/** "Assigns every field exactly once" is more than the rules of a custom `init` ask: they ask
    whether every run has assigned a field by then, not whether some run has. */
module InitOnce {
  import opened FlowSource
  import opened AlwaysLeaves
  import opened InitCheck
  import opened InitTheorem
  import opened Steering
  import opened InitExact
  import AlwaysLeavesExact

  /** Every run that completes has assigned each field once. */
  ghost predicate OnceInEveryRun(body: Stmts, count: nat) {
    forall w: World, fuel: nat, f: nat :: f < count && ExecBlock(w, body, START, fuel).out == Normal ==>
      ExecBlock(w, body, START, fuel).st.sets[f] == 1
  }

  // ----- fields assigned on the ways that complete -----

  function Fields(s: Stmt): set<nat>
    decreases s, 0
  {
    match s
    case AssignField(f, _) => {f}
    case If(_, thn, els) => Completing(thn) + Completing(els)
    case Block(body) => FieldsIn(body)
    case With(_, body) => FieldsIn(body)
    case Match(_, arms) => FieldsInArms(arms)
    case _ => {}
  }

  function FieldsIn(ss: Stmts): set<nat>
    decreases ss, 0
  {
    match ss
    case Nil => {}
    case Cons(s, rest) => Fields(s) + FieldsIn(rest)
  }

  function Completing(ss: Stmts): set<nat>
    decreases ss, 1
  {
    if SomeReturns(ss) then {} else FieldsIn(ss)
  }

  function FieldsInArms(arms: Arms): set<nat>
    decreases arms, 0
  {
    match arms
    case NoArms => {}
    case Arm(_, _, body, rest) => Completing(body) + FieldsInArms(rest)
  }

  /** The branches that complete assign the same fields. */
  predicate Even(s: Stmt) {
    match s
    case If(_, thn, els) =>
      && (SomeReturns(thn) || (EvenList(thn) && FieldsIn(thn) == Fields(s)))
      && (SomeReturns(els) || (EvenList(els) && FieldsIn(els) == Fields(s)))
    case Block(body) => EvenList(body)
    case With(_, body) => EvenList(body)
    case Match(_, arms) => EvenArms(arms, FieldsInArms(arms))
    case _ => true
  }

  predicate EvenArms(arms: Arms, fields: set<nat>) {
    arms.Arm? ==>
      && (SomeReturns(arms.body) || (EvenList(arms.body) && FieldsIn(arms.body) == fields))
      && EvenArms(arms.rest, fields)
  }

  predicate EvenList(ss: Stmts) { ss.Cons? ==> Even(ss.head) && EvenList(ss.tail) }

  // ----- ways through and their fields -----

  /** A way through assigns only these fields. */
  lemma {:induction false} WithinFields(s: Stmt, m: multiset<nat>, f: nat)
    requires Steerable(s, NoJumps) && Ends(s, m) && f in m
    ensures f in Fields(s)
    decreases s, 0
  {
    match s
    case If(_, thn, els) =>
      var taken := if EndsList(thn, m) then thn else els;
      if SomeReturns(taken) { NoWay(taken, m); }
      WithinFieldsIn(taken, m, f);
    case Block(body) => WithinFieldsIn(body, m, f);
    case With(_, body) => WithinFieldsIn(body, m, f);
    case Match(_, arms) => WithinFieldsInArms(arms, m, f);
    case _ =>
  }

  lemma {:induction false} WithinFieldsInArms(arms: Arms, m: multiset<nat>, f: nat)
    requires SteerableArms(arms, NoJumps) && EndsArms(arms, m) && f in m
    ensures f in FieldsInArms(arms)
    decreases arms, 0
  {
    if EndsList(arms.body, m) {
      if SomeReturns(arms.body) { NoWay(arms.body, m); }
      WithinFieldsIn(arms.body, m, f);
    } else {
      WithinFieldsInArms(arms.rest, m, f);
    }
  }

  lemma {:induction false} WithinFieldsIn(ss: Stmts, m: multiset<nat>, f: nat)
    requires SteerableList(ss, NoJumps) && EndsList(ss, m) && f in m
    ensures f in FieldsIn(ss)
    decreases ss, 1
  {
    if ss.Cons? {
      var a, b :| Ends(ss.head, a) && EndsList(ss.tail, b) && m == a + b;
      if f in a { WithinFields(ss.head, a, f); } else { WithinFieldsIn(ss.tail, b, f); }
    }
  }

  /** Each of these fields is assigned on some way through. */
  lemma {:induction false} WayWith(s: Stmt, f: nat) returns (m: multiset<nat>)
    requires Steerable(s, NoJumps) && !AlwaysReturns(s) && f in Fields(s)
    ensures Ends(s, m) && f in m
    decreases s, 0
  {
    m := multiset{};
    match s
    case AssignField(_, _) => m := multiset{f};
    case If(_, thn, els) => m := WayWithIn(if f in Completing(thn) then thn else els, f);
    case Block(body) => m := WayWithIn(body, f);
    case With(_, body) => m := WayWithIn(body, f);
    case Match(_, arms) => m := WayWithInArms(arms, f);
  }

  lemma {:induction false} WayWithInArms(arms: Arms, f: nat) returns (m: multiset<nat>)
    requires SteerableArms(arms, NoJumps) && f in FieldsInArms(arms)
    ensures EndsArms(arms, m) && f in m
    decreases arms, 0
  {
    if f in Completing(arms.body) { m := WayWithIn(arms.body, f); } else { m := WayWithInArms(arms.rest, f); }
  }

  lemma {:induction false} WayWithIn(ss: Stmts, f: nat) returns (m: multiset<nat>)
    requires SteerableList(ss, NoJumps) && !SomeReturns(ss) && f in FieldsIn(ss)
    ensures EndsList(ss, m) && f in m
    decreases ss, 1
  {
    if f in Fields(ss.head) {
      var a := WayWith(ss.head, f);
      var b := AlwaysLeavesExact.WayThroughList(ss.tail);
      m := a + b;
    } else {
      var a := AlwaysLeavesExact.WayThrough(ss.head);
      var b := WayWithIn(ss.tail, f);
      m := a + b;
    }
  }

  // ----- uneven branches -----

  /** Uneven branches give two ways through that assign some field differently often. */
  lemma {:induction false} TwoWays(s: Stmt) returns (f: nat, m: multiset<nat>, m': multiset<nat>)
    requires Steerable(s, NoJumps) && !AlwaysReturns(s) && !Even(s)
    ensures Ends(s, m) && Ends(s, m') && m[f] < m'[f]
    decreases s, 1
  {
    match s
    case If(_, thn, els) => f, m, m' := TwoBranches(s);
    case Block(body) => f, m, m' := TwoWaysIn(body);
    case With(_, body) => f, m, m' := TwoWaysIn(body);
    case Match(_, arms) => f, m, m' := TwoArms(arms, arms);
  }

  /** A branch without a field that another way through assigns. */
  lemma ShortBranch(ss: Stmts, all: set<nat>) returns (f: nat, m: multiset<nat>)
    requires SteerableList(ss, NoJumps) && !SomeReturns(ss) && FieldsIn(ss) <= all && FieldsIn(ss) != all
    ensures f in all && EndsList(ss, m) && m[f] == 0
  {
    f :| f in all && f !in FieldsIn(ss);
    m := AlwaysLeavesExact.WayThroughList(ss);
    if f in m { WithinFieldsIn(ss, m, f); }
  }

  lemma {:induction false} TwoBranches(s: Stmt) returns (f: nat, m: multiset<nat>, m': multiset<nat>)
    requires s.If? && Steerable(s, NoJumps) && !AlwaysReturns(s) && !Even(s)
    ensures Ends(s, m) && Ends(s, m') && m[f] < m'[f]
    decreases s, 0
  {
    var short := if SomeReturns(s.thn) || (EvenList(s.thn) && FieldsIn(s.thn) == Fields(s)) then s.els else s.thn;
    if !EvenList(short) {
      f, m, m' := TwoWaysIn(short);
    } else {
      assert Fields(s) == Completing(s.thn) + Completing(s.els);
      f, m := ShortBranch(short, Fields(s));
      m' := WayWith(s, f);
    }
  }

  lemma {:induction false} TwoArms(arms: Arms, all: Arms) returns (f: nat, m: multiset<nat>, m': multiset<nat>)
    requires SteerableArms(arms, NoJumps) && SteerableArms(all, NoJumps) && !EvenArms(arms, FieldsInArms(all))
    requires FieldsInArms(arms) <= FieldsInArms(all) && forall m: multiset<nat> :: EndsArms(arms, m) ==> EndsArms(all, m)
    ensures EndsArms(all, m) && EndsArms(all, m') && m[f] < m'[f]
    decreases arms, 0
  {
    var whole := FieldsInArms(all);
    if SomeReturns(arms.body) || (EvenList(arms.body) && FieldsIn(arms.body) == whole) {
      f, m, m' := TwoArms(arms.rest, all);
    } else if !EvenList(arms.body) {
      f, m, m' := TwoWaysIn(arms.body);
      assert EndsArms(arms, m) && EndsArms(arms, m');
    } else {
      f, m := ShortBranch(arms.body, whole);
      assert EndsArms(arms, m);
      m' := WayWithInArms(all, f);
    }
  }

  lemma {:induction false} TwoWaysIn(ss: Stmts) returns (f: nat, m: multiset<nat>, m': multiset<nat>)
    requires SteerableList(ss, NoJumps) && !SomeReturns(ss) && !EvenList(ss)
    ensures EndsList(ss, m) && EndsList(ss, m') && m[f] < m'[f]
    decreases ss, 2
  {
    if !Even(ss.head) {
      var a, a';
      f, a, a' := TwoWays(ss.head);
      var b := AlwaysLeavesExact.WayThroughList(ss.tail);
      m, m' := a + b, a' + b;
    } else {
      var b, b';
      var a := AlwaysLeavesExact.WayThrough(ss.head);
      f, b, b' := TwoWaysIn(ss.tail);
      m, m' := a + b, a + b';
    }
  }

  // ----- even branches -----

  /** With even branches every way through assigns the same fields. */
  lemma {:induction false} EvenWays(s: Stmt, m: multiset<nat>, f: nat)
    requires Steerable(s, NoJumps) && Even(s) && Ends(s, m)
    ensures f in m <==> f in Fields(s)
    decreases s, 0
  {
    match s
    case If(_, thn, els) =>
      var taken := if EndsList(thn, m) then thn else els;
      if SomeReturns(taken) { NoWay(taken, m); } else { EvenWaysIn(taken, m, f); }
    case Block(body) => EvenWaysIn(body, m, f);
    case With(_, body) => EvenWaysIn(body, m, f);
    case Match(_, arms) => EvenWaysInArms(arms, FieldsInArms(arms), m, f);
    case _ =>
  }

  lemma {:induction false} EvenWaysInArms(arms: Arms, all: set<nat>, m: multiset<nat>, f: nat)
    requires SteerableArms(arms, NoJumps) && EvenArms(arms, all) && EndsArms(arms, m)
    ensures f in m <==> f in all
    decreases arms, 0
  {
    if EndsList(arms.body, m) {
      if SomeReturns(arms.body) { NoWay(arms.body, m); } else { EvenWaysIn(arms.body, m, f); }
    } else {
      EvenWaysInArms(arms.rest, all, m, f);
    }
  }

  lemma {:induction false} EvenWaysIn(ss: Stmts, m: multiset<nat>, f: nat)
    requires SteerableList(ss, NoJumps) && EvenList(ss) && EndsList(ss, m)
    ensures f in m <==> f in FieldsIn(ss)
    decreases ss, 1
  {
    if ss.Cons? {
      var a, b :| Ends(ss.head, a) && EndsList(ss.tail, b) && m == a + b;
      EvenWays(ss.head, a, f);
      EvenWaysIn(ss.tail, b, f);
    }
  }

  /** With even branches and nothing reported, a way through assigns a field at most once, and
      not at all when it is held. */
  lemma {:induction false} AtMostOnce(s: Stmt, held: Bits, count: nat, m: multiset<nat>, f: nat)
    requires Steerable(s, NoJumps) && Trimmed(s, count) && LoopsClean(s) && Even(s) && Ends(s, m)
    requires count <= 64 && held <= AllFields(count) && f < count && Walk(s, held, AllFields(count), false).ok
    ensures m[f] <= if f in held then 0 else 1
    decreases s, 0
  {
    match s
    case If(_, thn, els) =>
      var taken := if EndsList(thn, m) then thn else els;
      if SomeReturns(taken) { NoWay(taken, m); }
      AtMostOnceIn(taken, held, count, m, f);
    case Block(body) => AtMostOnceIn(body, held, count, m, f);
    case With(_, body) =>
      NothingAssigned(body);
      IdleList(body, held, AllFields(count), true);
      IdleList(body, held, AllFields(count), false);
      AtMostOnceIn(body, held, count, m, f);
    case Match(_, arms) => AtMostOnceInArms(arms, held, count, AllFields(count), false, FieldsInArms(arms), m, f);
    case _ =>
  }

  lemma {:induction false} AtMostOnceInArms(
    arms: Arms, held: Bits, count: nat, joined: Bits, any: bool, all: set<nat>, m: multiset<nat>, f: nat)
    requires SteerableArms(arms, NoJumps) && TrimmedArms(arms, count) && LoopsCleanInArms(arms) && EvenArms(arms, all)
    requires EndsArms(arms, m) && count <= 64 && held <= AllFields(count) && f < count
    requires WalkArms(arms, held, AllFields(count), false, joined, any).ok
    ensures m[f] <= if f in held then 0 else 1
    decreases arms, 0
  {
    if EndsList(arms.body, m) {
      if SomeReturns(arms.body) { NoWay(arms.body, m); }
      AtMostOnceIn(arms.body, held, count, m, f);
    } else if SomeReturns(arms.body) {
      AtMostOnceInArms(arms.rest, held, count, joined, any, all, m, f);
    } else {
      var b := WalkList(arms.body, held, AllFields(count), false);
      AtMostOnceInArms(arms.rest, held, count, joined * b.held, true, all, m, f);
    }
  }

  lemma {:induction false} AtMostOnceIn(ss: Stmts, held: Bits, count: nat, m: multiset<nat>, f: nat)
    requires SteerableList(ss, NoJumps) && TrimmedList(ss, count) && LoopsCleanIn(ss) && EvenList(ss) && EndsList(ss, m)
    requires count <= 64 && held <= AllFields(count) && f < count && WalkList(ss, held, AllFields(count), false).ok
    ensures m[f] <= if f in held then 0 else 1
    decreases ss, 1
  {
    if ss.Cons? {
      var s, rest := ss.head, ss.tail;
      var a, b :| Ends(s, a) && EndsList(rest, b) && m == a + b;
      AtMostOnce(s, held, count, a, f);
      if AlwaysReturns(s) { NoWay(Cons(s, Nil), a + multiset{}) by { assert EndsList(Nil, multiset{}); } }
      HeldExact(s, held, count, f);
      if f in a {
        forall a' ensures Ends(s, a') ==> f in a' {
          if Ends(s, a') { EvenWays(s, a, f); EvenWays(s, a', f); }
        }
        assert !Misses(s, f);
      }
      AtMostOnceIn(rest, Walk(s, held, AllFields(count), false).held, count, b, f);
    }
  }

  // ----- the theorem -----

  /** An accepted `init` assigns each field exactly once in every run that completes exactly when
      the branches that complete assign the same fields. */
  lemma OnceIffEven(body: Stmts, count: nat)
    requires Plain(body, count) && Accepts(body, count)
    ensures OnceInEveryRun(body, count) <==> SomeReturns(body) || EvenList(body)
  {
    AcceptedIff(body, count);
    if SomeReturns(body) {
      forall w: World, fuel: nat ensures ExecBlock(w, body, START, fuel).out != Normal {
        SomeReturnsSound(w, body, START, fuel);
      }
    } else if EvenList(body) {
      forall w: World, fuel: nat, f: nat | f < count && ExecBlock(w, body, START, fuel).out == Normal
        ensures ExecBlock(w, body, START, fuel).st.sets[f] == 1
      {
        var m := ListTook(w, body, START, fuel);
        AtMostOnceIn(body, {}, count, m, f);
        assert !CanMiss(body, f);
      }
    } else {
      UnevenTwice(body, count);
    }
  }

  lemma UnevenTwice(body: Stmts, count: nat)
    requires Plain(body, count) && !SomeReturns(body) && !EvenList(body) && LoopsCleanIn(body)
    ensures !OnceInEveryRun(body, count)
  {
    var f, m, m' := TwoWaysIn(body);
    var w := SteerList(AlwaysLeavesExact.CALM, body, NoJumps, START, m);
    var w' := SteerList(AlwaysLeavesExact.CALM, body, NoJumps, START, m');
    assert ExecBlock(w, body, START, 0).st.sets[f] == m[f];
    assert ExecBlock(w', body, START, 0).st.sets[f] == m'[f];
    FieldsBelow(body, count, f, m');
  }

  lemma {:induction false} FieldsBelow(ss: Stmts, count: nat, f: nat, m: multiset<nat>)
    requires SteerableList(ss, NoJumps) && TrimmedList(ss, count) && EndsList(ss, m) && f in m
    ensures f < count
    decreases ss, 1
  {
    var a, b :| Ends(ss.head, a) && EndsList(ss.tail, b) && m == a + b;
    if f in b {
      FieldsBelow(ss.tail, count, f, b);
    } else {
      match ss.head
      case If(_, thn, els) => FieldsBelow(if EndsList(thn, a) then thn else els, count, f, a);
      case Block(body) => FieldsBelow(body, count, f, a);
      case With(_, body) => FieldsBelow(body, count, f, a);
      case Match(_, arms) => FieldsBelowInArms(arms, count, f, a);
      case _ =>
    }
  }

  lemma {:induction false} FieldsBelowInArms(arms: Arms, count: nat, f: nat, m: multiset<nat>)
    requires SteerableArms(arms, NoJumps) && TrimmedArms(arms, count) && EndsArms(arms, m) && f in m
    ensures f < count
    decreases arms, 0
  {
    if EndsList(arms.body, m) { FieldsBelow(arms.body, count, f, m); } else { FieldsBelowInArms(arms.rest, count, f, m); }
  }

  // ----- inputs -----

  function Set(): Stmts { Cons(AssignField(0, Int(1)), Nil) }

  /** `if f(): self.x = 1`, then `self.x = 1`. */
  function TwiceBody(): Stmts { Cons(If(Call(0, NoExprs), Set(), Nil), Set()) }

  lemma WalkSet(held: Bits, every: Bits)
    requires 0 !in held
    ensures WalkList(Set(), held, every, false) == Walked(held + {0}, true)
  {
    var s := AssignField(0, Int(1));
    assert Walk(s, held, every, false) == Walked(held + {0}, true);
    assert Set() == Cons(s, Nil);
  }

  /** Accepted, and assigns the field twice in a run. */
  lemma TwiceAccepted()
    ensures Accepts(TwiceBody(), 1) && !OnceInEveryRun(TwiceBody(), 1)
  {
    var every := AllFields(1);
    assert every == {0};
    var s := If(Call(0, NoExprs), Set(), Nil);
    WalkSet({}, every);
    assert WalkList(Nil, {}, every, false) == Walked({}, true);
    assert Walk(s, {}, every, false) == Walked({}, true);
    assert Accepts(TwiceBody(), 1);
    assert Plain(TwiceBody(), 1);
    assert !Even(s);
    OnceIffEven(TwiceBody(), 1);
  }

  /** `if f(): self.x = 1` with `else: self.x = 1` is accepted. */
  lemma BothBranchesAccepted()
    ensures Accepts(Cons(If(Call(0, NoExprs), Set(), Set()), Nil), 1)
  {
    var every := AllFields(1);
    assert every == {0};
    WalkSet({}, every);
    assert Walk(If(Call(0, NoExprs), Set(), Set()), {}, every, false) == Walked({0}, true);
  }
}
