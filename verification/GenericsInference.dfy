/** What a type parameter is inferred as when several arguments are given for it: the widest of
    them, in whatever order they come, but for untyped literals. */
module GenericsInference {
  import opened Wrappers
  import opened Interning
  import opened Generics

  /** The type arguments an argument list can give: no reported type, no untyped literal, and
      integers of at most 64 bits, those of a pointer's size having 64. */
  predicate Proper(t: Tree) {
    match t
    case Base(leaf) =>
      && leaf != ErrorType && leaf != UntypedInt
      && (leaf.IntType? ==> leaf.bits <= 64 && (leaf.pointerSized ==> leaf.bits == 64))
    case AtomicT(e) => Proper(e)
    case _ => true
  }

  const LITERAL := Base(UntypedInt)
  const I64 := Base(IntType(true, 64, false))

  // ----- widening -----

  /** Integers widen to integers of the same sign with more bits, floats to floats with more
      bits, and neither to the other. */
  lemma WidensByBits(a: Leaf, b: Leaf)
    requires a.IntType? || a.FloatType?
    requires b.IntType? || b.FloatType?
    ensures
      CanWiden(Base(a), Base(b)) <==>
        || a == b
        || (a.IntType? && b.IntType? && a.signed == b.signed && a.bits < b.bits)
        || (a.FloatType? && b.FloatType? && a.bits < b.bits)
  {
  }

  /** A type widens to its atomic, and to the atomic of what it widens to. */
  lemma WidensToAtomic(a: Tree, b: Tree)
    requires Proper(a) && Proper(b) && !a.AtomicT?
    ensures CanWiden(a, AtomicT(b)) <==> a == b || CanWiden(a, b)
  {
  }

  lemma {:induction false} WidensTransitively(a: Tree, b: Tree, c: Tree)
    requires Proper(a) && Proper(b) && Proper(c) && CanWiden(a, b) && CanWiden(b, c)
    ensures CanWiden(a, c)
    decreases c
  {
    if a != b && b != c && c.AtomicT? {
      if b != c.elem { WidensTransitively(a, b, c.elem); }
    }
  }

  /** What widens to one type is comparable. */
  lemma {:induction false} ComparableBelow(a: Tree, b: Tree, c: Tree)
    requires Proper(a) && Proper(b) && Proper(c) && CanWiden(a, c) && CanWiden(b, c)
    ensures CanWiden(a, b) || CanWiden(b, a)
    decreases c
  {
    if a != c && b != c && c.AtomicT? {
      if a != c.elem && b != c.elem { ComparableBelow(a, b, c.elem); }
    }
  }

  lemma {:induction false} WidensOneWay(a: Tree, b: Tree)
    requires Proper(a) && Proper(b) && CanWiden(a, b) && CanWiden(b, a)
    ensures a == b
  {
  }

  // ----- several arguments for one parameter -----

  const T := Base(Param(0, 0))

  /** Matching `T` against each argument in turn. */
  function Inferred(gots: seq<Tree>): (r: Inference)
    ensures |r.slots| == 1
  {
    UnifyAll(seq(|gots|, _ => T), gots, 0, NothingInferred(1))
  }

  ghost predicate AllProper(gots: seq<Tree>) { forall i :: 0 <= i < |gots| ==> Proper(gots[i]) }

  /** Any two of them are equal or one widens to the other. */
  ghost predicate Compatible(gots: seq<Tree>) {
    forall i, j :: 0 <= i < |gots| && 0 <= j < |gots| ==> CanWiden(gots[i], gots[j]) || CanWiden(gots[j], gots[i])
  }

  /** One of them, to which all widen. */
  ghost predicate Widest(gots: seq<Tree>, t: Tree) {
    t in gots && forall i :: 0 <= i < |gots| ==> CanWiden(gots[i], t)
  }

  lemma {:induction false} MatchInTurn(gots: seq<Tree>, s: Inference)
    requires gots != []
    ensures
      var front, last := gots[..|gots| - 1], gots[|gots| - 1];
      UnifyAll(seq(|gots|, _ => T), gots, 0, s) == Unify(T, last, 0, UnifyAll(seq(|front|, _ => T), front, 0, s))
    decreases |gots|
  {
    var pats := seq(|gots|, _ => T);
    var front, last := gots[..|gots| - 1], gots[|gots| - 1];
    assert pats[1..] == seq(|gots| - 1, _ => T);
    if |gots| > 1 {
      MatchInTurn(gots[1..], Unify(T, gots[0], 0, s));
      assert gots[1..][..|gots| - 2] == front[1..];
      assert seq(|front|, _ => T)[1..] == seq(|front| - 1, _ => T);
    } else {
      assert front == [];
    }
  }

  lemma StepInferred(gots: seq<Tree>, got: Tree)
    ensures Inferred(gots + [got]) == Unify(T, got, 0, Inferred(gots))
  {
    var all := gots + [got];
    MatchInTurn(all, NothingInferred(1));
    assert all[..|all| - 1] == gots;
  }

  /** Arguments of proper types: nothing is reported exactly when any two of them are equal or
      widen one way, and then the parameter is the widest of them. */
  lemma {:induction false} InfersTheWidest(gots: seq<Tree>)
    requires gots != [] && AllProper(gots)
    ensures Inferred(gots).reports == 0 <==> Compatible(gots)
    ensures Inferred(gots).slots[0].Some? && Inferred(gots).slots[0].value in gots
    ensures Inferred(gots).reports == 0 ==> Widest(gots, Inferred(gots).slots[0].value)
    decreases |gots|
  {
    var front, got := gots[..|gots| - 1], gots[|gots| - 1];
    assert gots == front + [got];
    StepInferred(front, got);
    var s := Inferred(front);
    if front == [] {
      assert Inferred(front) == NothingInferred(1);
      assert Inferred(gots).slots[0] == Some(got);
    } else {
      InfersTheWidest(front);
      var was := s.slots[0].value;
      var k :| 0 <= k < |front| && front[k] == was;
      assert gots[k] == was && Proper(was);
      LearnProper(s, got);
      if Compatible(gots) { FrontCompatible(gots); }
      if Inferred(gots).reports == 0 { NowWidest(front, got, was); }
    }
  }

  lemma FrontCompatible(gots: seq<Tree>)
    requires gots != [] && Compatible(gots)
    ensures Compatible(gots[..|gots| - 1])
    ensures forall i :: 0 <= i < |gots| ==>
      CanWiden(gots[i], gots[|gots| - 1]) || CanWiden(gots[|gots| - 1], gots[i])
  {
    var front := gots[..|gots| - 1];
    forall i, j | 0 <= i < |front| && 0 <= j < |front| ensures CanWiden(front[i], front[j]) || CanWiden(front[j], front[i]) {
      assert front[i] == gots[i] && front[j] == gots[j];
    }
  }

  /** One more argument, for a parameter that has been inferred as `was`. */
  lemma LearnProper(s: Inference, got: Tree)
    requires |s.slots| == 1 && s.slots[0].Some? && Proper(got) && Proper(s.slots[0].value)
    ensures
      var was, r := s.slots[0].value, Unify(T, got, 0, s);
      && |r.slots| == 1
      && r.slots[0] == Some(if CanWiden(was, got) then got else was)
      && r.reports == s.reports + if CanWiden(was, got) || CanWiden(got, was) then 0 else 1
  {
    var was := s.slots[0].value;
    if CanWiden(was, got) && CanWiden(got, was) { WidensOneWay(was, got); }
  }

  lemma NowWidest(front: seq<Tree>, got: Tree, was: Tree)
    requires AllProper(front) && Proper(got) && Widest(front, was) && (CanWiden(was, got) || CanWiden(got, was))
    ensures
      var all, now := front + [got], if CanWiden(was, got) then got else was;
      Widest(all, now) && Compatible(all)
  {
    var all, now := front + [got], if CanWiden(was, got) then got else was;
    forall i | 0 <= i < |all| ensures CanWiden(all[i], now) && Proper(all[i]) {
      if i < |front| {
        assert all[i] == front[i];
        WidensTransitively(front[i], was, now);
      }
    }
    assert all[|front|] == got;
    assert now in all;
    forall i, j | 0 <= i < |all| && 0 <= j < |all| ensures CanWiden(all[i], all[j]) || CanWiden(all[j], all[i]) {
      ComparableBelow(all[i], all[j], now);
    }
  }

  /** The order of such arguments does not matter. */
  lemma OrderDoesNotMatter(gots: seq<Tree>, gots': seq<Tree>)
    requires gots != [] && AllProper(gots) && multiset(gots) == multiset(gots')
    ensures Inferred(gots).reports == 0 <==> Inferred(gots').reports == 0
    ensures Inferred(gots).reports == 0 ==> Inferred(gots).slots == Inferred(gots').slots
  {
    SameMembers(gots, gots');
    SameMembers(gots', gots);
    forall i | 0 <= i < |gots'| ensures Proper(gots'[i]) {
      assert gots'[i] in gots;
    }
    assert |gots'| > 0 by { assert gots[0] in gots'; }
    InfersTheWidest(gots);
    InfersTheWidest(gots');
    if Compatible(gots) { CompatibleAlso(gots, gots'); }
    if Compatible(gots') { CompatibleAlso(gots', gots); }
    if Inferred(gots).reports == 0 {
      var a, b := Inferred(gots).slots[0].value, Inferred(gots').slots[0].value;
      var i :| 0 <= i < |gots| && gots[i] == b;
      var j :| 0 <= j < |gots'| && gots'[j] == a;
      WidensOneWay(a, b);
    }
  }

  lemma SameMembers(gots: seq<Tree>, gots': seq<Tree>)
    requires multiset(gots) == multiset(gots')
    ensures forall i :: 0 <= i < |gots| ==> gots[i] in gots'
  {
    forall i | 0 <= i < |gots| ensures gots[i] in gots' {
      assert gots[i] in multiset(gots);
    }
  }

  lemma CompatibleAlso(gots: seq<Tree>, gots': seq<Tree>)
    requires Compatible(gots) && forall i :: 0 <= i < |gots'| ==> gots'[i] in gots
    ensures Compatible(gots')
  {
    forall i, j | 0 <= i < |gots'| && 0 <= j < |gots'| ensures CanWiden(gots'[i], gots'[j]) || CanWiden(gots'[j], gots'[i]) {
      var k :| 0 <= k < |gots| && gots[k] == gots'[i];
      var m :| 0 <= m < |gots| && gots[m] == gots'[j];
    }
  }

  // ----- numbers -----

  predicate IsNumber(t: Tree) { t.Base? && (t.leaf.IntType? || t.leaf.FloatType?) && Proper(t) }

  function NumberBits(t: Tree): nat
    requires IsNumber(t)
  {
    t.leaf.bits
  }

  /** Signed integers, unsigned integers, floats. */
  predicate SameFamily(a: Tree, b: Tree)
    requires IsNumber(a) && IsNumber(b)
  {
    if a.leaf.IntType? then b.leaf.IntType? && a.leaf.signed == b.leaf.signed else b.leaf.FloatType?
  }

  /** Numbers for one parameter: nothing is reported exactly when all are of one family and two
      of the same bits are the same type; the parameter is the one with the most bits. */
  lemma NumbersInferByBits(gots: seq<Tree>)
    requires gots != [] && forall i :: 0 <= i < |gots| ==> IsNumber(gots[i])
    ensures
      Inferred(gots).reports == 0 <==>
        forall i, j :: 0 <= i < |gots| && 0 <= j < |gots| ==>
          SameFamily(gots[i], gots[j]) && (NumberBits(gots[i]) == NumberBits(gots[j]) ==> gots[i] == gots[j])
    ensures
      var t := Inferred(gots).slots[0];
      && t.Some? && t.value in gots && IsNumber(t.value)
      && (Inferred(gots).reports == 0 ==> forall i :: 0 <= i < |gots| ==> NumberBits(gots[i]) <= NumberBits(t.value))
  {
    hide Inferred;
    InfersTheWidest(gots);
    var widest := Inferred(gots).slots[0].value;
    var k :| 0 <= k < |gots| && gots[k] == widest;
    forall i, j | 0 <= i < |gots| && 0 <= j < |gots|
      ensures
        CanWiden(gots[i], gots[j]) || CanWiden(gots[j], gots[i]) <==>
        SameFamily(gots[i], gots[j]) && (NumberBits(gots[i]) == NumberBits(gots[j]) ==> gots[i] == gots[j])
    {
      WidensByBits(gots[i].leaf, gots[j].leaf);
      WidensByBits(gots[j].leaf, gots[i].leaf);
    }
    forall i | 0 <= i < |gots| && Inferred(gots).reports == 0 ensures NumberBits(gots[i]) <= NumberBits(widest) {
      WidensByBits(gots[i].leaf, widest.leaf);
    }
  }

  // ----- untyped literals -----

  /** Literals alone make an `i64`. */
  lemma {:induction false} LiteralsMakeI64(n: nat)
    requires n > 0
    ensures Inferred(seq(n, _ => LITERAL)) == Inference([Some(I64)], 0)
    decreases n
  {
    var gots := seq(n, _ => LITERAL);
    assert gots == seq(n - 1, _ => LITERAL) + [LITERAL];
    StepInferred(seq(n - 1, _ => LITERAL), LITERAL);
    if n > 1 { LiteralsMakeI64(n - 1); }
  }

  /** A literal behind another argument changes nothing. */
  lemma LaterLiteral(gots: seq<Tree>)
    requires gots != [] && AllProper(gots)
    ensures Inferred(gots + [LITERAL]) == Inferred(gots)
  {
    StepInferred(gots, LITERAL);
    InfersTheWidest(gots);
  }

  /** A literal in front of the others counts as an `i64`. */
  lemma {:induction false} FirstLiteral(gots: seq<Tree>)
    ensures Inferred([LITERAL] + gots) == Inferred([I64] + gots)
    decreases |gots|
  {
    if gots == [] {
      StepInferred([], LITERAL);
      StepInferred([], I64);
      assert [LITERAL] + gots == [] + [LITERAL] && [I64] + gots == [] + [I64];
    } else {
      var front, got := gots[..|gots| - 1], gots[|gots| - 1];
      assert [LITERAL] + gots == ([LITERAL] + front) + [got] && [I64] + gots == ([I64] + front) + [got];
      FirstLiteral(front);
      StepInferred([LITERAL] + front, got);
      StepInferred([I64] + front, got);
    }
  }

  /** A literal may stand before or behind the other arguments exactly when `i64` widens to what
      these infer: `f(1, x)` and `f(x, 1)` differ for an `i32`, and only one is accepted for a `u32`. */
  lemma LiteralMayMove(gots: seq<Tree>)
    requires gots != [] && AllProper(gots) && Compatible(gots)
    ensures Inferred(gots).slots[0].Some?
    ensures
      Inferred([LITERAL] + gots) == Inferred(gots + [LITERAL]) <==> CanWiden(I64, Inferred(gots).slots[0].value)
  {
    hide Inferred, Proper, CanWiden;
    ProperInts();
    LaterLiteral(gots);
    FirstLiteral(gots);
    var all := [I64] + gots;
    assert AllProper(all);
    InfersTheWidest(gots);
    InfersTheWidest(all);
    var m, m' := Inferred(gots).slots[0].value, Inferred(all).slots[0].value;
    var k :| 0 <= k < |gots| && gots[k] == m;
    assert all[0] == I64 && all[k + 1] == m;
    if Inferred(all) == Inferred(gots) {
      assert CanWiden(all[0], m');
    }
    if CanWiden(I64, m) {
      NowWidest(gots, I64, m) by { assert Widest(gots, m); }
      StillCompatible(gots, all);
      assert m' in all;
      var j :| 0 <= j < |all| && all[j] == m';
      if j > 0 { assert gots[j - 1] == m'; }
      WidensOneWay(m, m');
    }
  }

  lemma StillCompatible(gots: seq<Tree>, all: seq<Tree>)
    requires Compatible(gots + [I64]) && all == [I64] + gots
    ensures Compatible(all)
  {
    var other := gots + [I64];
    assert other[|gots|] == I64;
    forall i | 0 <= i < |all| ensures all[i] in other {
      if i > 0 { assert all[i] == other[i - 1]; }
    }
    CompatibleAlso(other, all);
  }

  // ----- inputs -----

  const I32 := Base(IntType(true, 32, false))
  const U32 := Base(IntType(false, 32, false))

  /** `max[T](a: T, b: T)` with an `i32` and an `i64` infers `i64`. */
  lemma WiderWins()
    ensures Inferred([I32, I64]) == Inference([Some(I64)], 0) == Inferred([I64, I32])
  {
    NumbersInferByBits([I32, I64]);
    NumbersInferByBits([I64, I32]);
    var a, b := Inferred([I32, I64]), Inferred([I64, I32]);
    assert [I32, I64][0] == I32 && [I32, I64][1] == I64 && [I64, I32][0] == I64;
    assert a.slots[0] == Some(I64) && b.slots[0] == Some(I64);
    assert a.slots == [Some(I64)] && b.slots == [Some(I64)];
  }

  /** The literal first infers `i64`, the `i32` first infers `i32`. */
  lemma LiteralOrder()
    ensures Inferred([LITERAL, I32]).slots == [Some(I64)] && Inferred([I32, LITERAL]).slots == [Some(I32)]
  {
    hide Inferred, Proper, CanWiden;
    assert Proper(I32) by { ProperInts(); }
    FirstLiteral([I32]);
    LaterLiteral([I32]);
    WiderWins();
    InfersTheWidest([I32]);
    assert [I64] + [I32] == [I64, I32];
    assert [LITERAL] + [I32] == [LITERAL, I32] && [I32] + [LITERAL] == [I32, LITERAL];
  }

  /** With a `u32` the literal first is reported. */
  lemma LiteralConflict()
    ensures Inferred([LITERAL, U32]).reports > 0 && Inferred([U32, LITERAL]).reports == 0
  {
    hide Inferred, Proper, CanWiden;
    ProperInts();
    FirstLiteral([U32]);
    LaterLiteral([U32]);
    NumbersInferByBits([I64, U32]);
    NumbersInferByBits([U32]);
    assert [I64] + [U32] == [I64, U32];
    assert [I64, U32][0] == I64 && [I64, U32][1] == U32 && !SameFamily(I64, U32);
    assert [LITERAL] + [U32] == [LITERAL, U32] && [U32] + [LITERAL] == [U32, LITERAL];
  }

  lemma ProperInts()
    ensures Proper(I32) && Proper(U32) && Proper(I64)
  {
  }

  // ----- arguments that are not the parameter's very type -----

  /** `got` is an argument for a parameter of type `pat` that gives each type parameter its
      argument: an array may stand for a span and a plain value for an optional, and `const` and
      the like are not looked at. */
  predicate Gives(pat: Tree, got: Tree, owner: nat, args: seq<Tree>)
    decreases pat
  {
    pat != Base(ErrorType) && got != Base(ErrorType) &&
    match pat
    case Base(_) => IsParam(pat, owner) && pat.leaf.index < |args| ==> got == args[pat.leaf.index]
    case PtrT(e, _, _, _) => got.PtrT? && Gives(e, got.elem, owner, args)
    case SpanT(e, _) => (got.SpanT? || got.ArrT?) && Gives(e, got.elem, owner, args)
    case ArrT(e, n) => got.ArrT? && got.length == n && Gives(e, got.elem, owner, args)
    case OptT(e) => Gives(e, if got.OptT? then got.elem else got, owner, args)
    case FailT(e) => got.FailT? && Gives(e, got.elem, owner, args)
    case StructT(o, ts) => got.StructT? && got.origin == o && |got.args| == |ts| && GivesAll(ts, got.args, owner, args)
    case FuncT(ps, r, _) =>
      got.FuncT? && |got.params| == |ps| && GivesAll(ps, got.params, owner, args) && Gives(r, got.result, owner, args)
    case _ => true
  }

  predicate GivesAll(pats: seq<Tree>, gots: seq<Tree>, owner: nat, args: seq<Tree>)
    requires |pats| == |gots|
    decreases pats
  {
    pats == [] || (Gives(pats[0], gots[0], owner, args) && GivesAll(pats[1..], gots[1..], owner, args))
  }

  /** From such an argument exactly the occurring parameters are inferred, each as its argument. */
  lemma {:induction false} GivenIsInferred(pat: Tree, got: Tree, owner: nat, args: seq<Tree>, s: Inference)
    requires Concrete(args) && Faithful(s, args) && Gives(pat, got, owner, args)
    ensures Exact(s, Unify(pat, got, owner, s), pat, owner, args)
    decreases pat
  {
    match pat
    case Base(_) =>
    case TupT(_) =>
    case AtomicT(_) =>
    case IfaceT(_, _, _) =>
    case OptT(e) => GivenIsInferred(e, if got.OptT? then got.elem else got, owner, args, s);
    case StructT(_, ts) => GivenAreInferred(ts, got.args, owner, args, s);
    case FuncT(ps, r, _) =>
      GivenAreInferred(ps, got.params, owner, args, s);
      GivenIsInferred(r, got.result, owner, args, UnifyAll(ps, got.params, owner, s));
    case _ => GivenIsInferred(pat.elem, got.elem, owner, args, s);
  }

  lemma {:induction false} GivenAreInferred(pats: seq<Tree>, gots: seq<Tree>, owner: nat, args: seq<Tree>, s: Inference)
    requires |pats| == |gots| && Concrete(args) && Faithful(s, args) && GivesAll(pats, gots, owner, args)
    ensures ExactAll(s, UnifyAll(pats, gots, owner, s), pats, owner, args)
    decreases pats
  {
    if pats != [] {
      GivenIsInferred(pats[0], gots[0], owner, args, s);
      GivenAreInferred(pats[1..], gots[1..], owner, args, Unify(pats[0], gots[0], owner, s));
    }
  }

  /** An argument of another form gives nothing. */
  lemma OtherFormGivesNothing(pat: Tree, got: Tree, owner: nat, s: Inference)
    requires
      || (pat.PtrT? && !got.PtrT?) || (pat.SpanT? && !got.SpanT? && !got.ArrT?) || (pat.FailT? && !got.FailT?)
      || (pat.ArrT? && !(got.ArrT? && got.length == pat.length))
      || (pat.StructT? && !(got.StructT? && got.origin == pat.origin && |got.args| == |pat.args|))
      || (pat.FuncT? && !(got.FuncT? && |got.params| == |pat.params|))
      || pat.TupT? || pat.AtomicT? || pat.IfaceT?
    ensures Unify(pat, got, owner, s) == s
  {
  }
}
