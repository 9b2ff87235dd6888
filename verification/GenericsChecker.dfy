/** `subst_type` and `unify_into` as the checker runs them, on interned type objects compared
    by address. */
module GenericsChecker {
  import opened Wrappers
  import opened Interning
  import opened Generics

  // ---------------------------------------------------------------- substitution

  method SubstType(c: Interner, t: TypeObj, owner: nat, args: seq<TypeObj>) returns (r: TypeObj)
    requires c.Valid() && c.Known(t) && c.AllKnown(args)
    modifies c
    ensures c.Valid() && c.Known(r) && old(c.interned) <= c.interned
    ensures r.tree == Subst(t.tree, owner, TreesOf(args))
    decreases t.tree, 1
  {
    hide Interner.Valid, TreesOf, Interner.AllKnown;
    ArgsKnown(c, args);
    KnownSpells(c, t);
    if t.kind.KBase? {
      var leaf := t.kind.leaf;
      if leaf.Param? && leaf.owner == owner && leaf.index < |args| {
        return args[leaf.index];
      }
      return t;
    }
    if t.kind == KAtomic || t.kind == KIface || (t.kind == KStruct && |t.args| == 0) {
      return t;
    }
    if t.kind == KTup || t.kind == KFunc || t.kind == KStruct {
      r := SubstParts(c, t, owner, args);
      return;
    }
    var e := SubstType(c, t.elem, owner, args);
    match t.kind
    case KPtr => r := c.InternPtr(e, t.isConst, t.isVolatile, t.isNullable);
    case KSpan => r := c.InternSpan(e, t.isConst);
    case KArr => r := c.InternArr(e, t.length);
    case KOpt => r := c.InternOpt(e);
    case KFail => r := c.InternWrapper(KFail, e);
  }

  /** The cases of `subst_type` for types with a list of components. */
  method SubstParts(c: Interner, t: TypeObj, owner: nat, args: seq<TypeObj>) returns (r: TypeObj)
    requires c.Valid() && c.Known(t) && c.AllKnown(args)
    requires t.kind == KTup || t.kind == KFunc || (t.kind == KStruct && |t.args| != 0)
    modifies c
    ensures c.Valid() && c.Known(r) && old(c.interned) <= c.interned
    ensures r.tree == Subst(t.tree, owner, TreesOf(args))
    decreases t.tree, 0
  {
    hide Interner.Valid, TreesOf;
    KnownSpells(c, t);
    var na: seq<TypeObj> := [];
    var i := 0;
    while i < |t.args|
      invariant 0 <= i <= |t.args| && |na| == i
      invariant c.Valid() && c.AllKnown(na) && c.AllKnown(args) && c.Known(t) && old(c.interned) <= c.interned
      invariant TreesOf(na) == SubstAll(TreesOf(t.args)[..i], owner, TreesOf(args))
    {
      KnownSpells(c, t);
      var a := SubstType(c, t.args[i], owner, args);
      SubstAllSnoc(TreesOf(t.args)[..i], t.args[i].tree, owner, TreesOf(args));
      assert TreesOf(t.args)[..i + 1] == TreesOf(t.args)[..i] + [t.args[i].tree];
      assert TreesOf(na + [a]) == TreesOf(na) + [a.tree];
      na := na + [a];
      i := i + 1;
    }
    assert TreesOf(t.args)[..i] == TreesOf(t.args);
    KnownSpells(c, t);
    if t.kind == KTup {
      r := c.InternTup(na);
    } else if t.kind == KFunc {
      var e := SubstType(c, t.elem, owner, args);
      r := c.InternFunc(na, e, t.isNullable);
    } else {
      r := c.InstantiateStruct(t.origin, na);
    }
  }

  lemma {:induction false} SubstAllSnoc(ts: seq<Tree>, t: Tree, owner: nat, args: seq<Tree>)
    ensures SubstAll(ts + [t], owner, args) == SubstAll(ts, owner, args) + [Subst(t, owner, args)]
  {
    if ts != [] {
      SubstAllSnoc(ts[1..], t, owner, args);
      assert (ts + [t])[1..] == ts[1..] + [t];
    }
  }

  lemma ArgsKnown(c: Interner, args: seq<TypeObj>)
    requires c.AllKnown(args)
    ensures forall i :: 0 <= i < |args| ==> c.Known(args[i])
  {
  }

  // ---------------------------------------------------------------- comparing objects

  method TypeEq(c: Interner, a: TypeObj, b: TypeObj) returns (r: bool)
    requires c.Valid() && c.Known(a) && c.Known(b)
    ensures r == SameType(a.tree, b.tree)
  {
    SameObjectIffSameTree(c, a, b);
    KnownSpells(c, a);
    KnownSpells(c, b);
    r := a == b || a.kind == KBase(ErrorType) || b.kind == KBase(ErrorType);
  }

  method CanWidenTo(c: Interner, narrow: TypeObj, wide: TypeObj) returns (r: bool)
    requires c.Valid() && c.Known(narrow) && c.Known(wide)
    ensures r == CanWiden(narrow.tree, wide.tree)
    decreases wide.tree
  {
    KnownSpells(c, narrow);
    KnownSpells(c, wide);
    var same := TypeEq(c, narrow, wide);
    if same {
      return true;
    }
    if wide.kind == KAtomic && narrow.kind != KAtomic {
      r := TypeEq(c, narrow, wide.elem);
      if !r {
        r := CanWidenTo(c, narrow, wide.elem);
      }
      return;
    }
    if narrow.kind.KBase? && wide.kind.KBase? {
      var f, t := narrow.kind.leaf, wide.kind.leaf;
      if f.IntType? && t.IntType? && f.signed == t.signed {
        return f.bits < t.bits;
      }
      return f.FloatType? && t.FloatType? && f.bits < t.bits;
    }
    return false;
  }

  // ---------------------------------------------------------------- matching

  ghost function SlotsOf(inf: seq<TypeObj?>): (r: seq<Option<Tree>>)
    ensures |r| == |inf|
    ensures forall i :: 0 <= i < |inf| ==> r[i] == if inf[i] == null then None else Some(inf[i].tree)
  {
    if inf == [] then [] else [if inf[0] == null then None else Some(inf[0].tree)] + SlotsOf(inf[1..])
  }

  /** The components of a known type are known. */
  lemma Components(c: Interner, t: TypeObj)
    requires c.Valid() && c.Known(t)
    ensures t.kind.KBase? || t.kind == KTup || t.kind == KStruct || t.kind == KIface || (t.elem != null && c.Known(t.elem))
    ensures t.kind.KBase? <==> t.tree.Base?
    ensures !t.kind.KBase? && t.kind != KTup && t.kind != KStruct && t.kind != KIface ==> t.elem.tree < t.tree
  {
    KnownSpells(c, t);
  }

  /** Two types that matching takes apart by their one element. */
  predicate ElementWise(pat: TypeObj, got: TypeObj) {
    || (pat.kind == KPtr && got.kind == KPtr)
    || (pat.kind == KSpan && (got.kind == KSpan || got.kind == KArr))
    || (pat.kind == KArr && got.kind == KArr && pat.length == got.length)
    || (pat.kind == KOpt && got.kind == KOpt)
    || (pat.kind == KFail && got.kind == KFail)
  }

  ghost predicate ByKind(pat: TypeObj, got: TypeObj, owner: nat, s: Inference, r: Inference) {
    if got.kind == KBase(ErrorType) || pat.kind == KBase(ErrorType) then r == s
    else if pat.kind.KBase? then
      r == if pat.kind.leaf.Param? && pat.kind.leaf.owner == owner then Learn(s, pat.kind.leaf.index, got.tree) else s
    else if ElementWise(pat, got) then
      pat.elem != null && got.elem != null && r == Unify(pat.elem.tree, got.elem.tree, owner, s)
    else if pat.kind == KOpt then pat.elem != null && r == Unify(pat.elem.tree, got.tree, owner, s)
    else if pat.kind == KStruct && got.kind == KStruct && pat.origin == got.origin && |pat.args| == |got.args| then
      r == UnifyAll(TreesOf(pat.args), TreesOf(got.args), owner, s)
    else if pat.kind == KFunc && got.kind == KFunc && |pat.args| == |got.args| then
      && pat.elem != null && got.elem != null
      && r == Unify(pat.elem.tree, got.elem.tree, owner, UnifyAll(TreesOf(pat.args), TreesOf(got.args), owner, s))
    else r == s
  }

  /** Matching, read off the kinds of the two objects. */
  lemma UnifyByKind(c: Interner, pat: TypeObj, got: TypeObj, owner: nat, s: Inference)
    requires c.Valid() && c.Known(pat) && c.Known(got)
    ensures ByKind(pat, got, owner, s, Unify(pat.tree, got.tree, owner, s))
  {
    KnownSpells(c, pat);
    KnownSpells(c, got);
    hide Interner.Valid, Interner.Formed, Interner.Known, ByKind, Unify, Spells;
    if pat.kind.KBase? || got.kind == KBase(ErrorType) {
      UnifyBase(pat, got, owner, s);
    } else if ElementWise(pat, got) || pat.kind == KOpt {
      UnifyElement(pat, got, owner, s);
    } else {
      UnifyOther(pat, got, owner, s);
    }
  }

  lemma UnifyBase(pat: TypeObj, got: TypeObj, owner: nat, s: Inference)
    requires Spells(pat) && Spells(got) && (pat.kind.KBase? || got.kind == KBase(ErrorType))
    ensures ByKind(pat, got, owner, s, Unify(pat.tree, got.tree, owner, s))
  {
    hide TreesOf, UnifyAll, Learn;
  }

  lemma UnifyElement(pat: TypeObj, got: TypeObj, owner: nat, s: Inference)
    requires Spells(pat) && Spells(got) && !pat.kind.KBase? && got.kind != KBase(ErrorType)
    requires ElementWise(pat, got) || pat.kind == KOpt
    ensures ByKind(pat, got, owner, s, Unify(pat.tree, got.tree, owner, s))
  {
    hide TreesOf, UnifyAll, Learn;
  }

  lemma UnifyOther(pat: TypeObj, got: TypeObj, owner: nat, s: Inference)
    requires Spells(pat) && Spells(got) && !pat.kind.KBase? && got.kind != KBase(ErrorType)
    requires !ElementWise(pat, got) && pat.kind != KOpt
    ensures ByKind(pat, got, owner, s, Unify(pat.tree, got.tree, owner, s))
  {
    hide TreesOf, UnifyAll, Learn;
  }

  class Inferrer {
    const c: Interner
    const i64: TypeObj
    var inf: seq<TypeObj?>
    var reports: nat

    constructor (c: Interner, i64: TypeObj, n: nat)
      ensures this.c == c && this.i64 == i64 && State() == NothingInferred(n) && |inf| == n
      ensures forall i :: 0 <= i < |inf| ==> inf[i] == null
    {
      this.c, this.i64, this.reports := c, i64, 0;
      this.inf := seq(n, _ => null);
      new;
      assert State().slots == NothingInferred(n).slots;
    }

    ghost predicate Valid()
      reads this, c
    {
      && c.Valid() && c.Known(i64) && i64.tree == Base(IntType(true, 64, false))
      && forall i :: 0 <= i < |inf| && inf[i] != null ==> c.Known(inf[i])
    }

    ghost function State(): (s: Inference)
      reads this
      ensures |s.slots| == |inf|
    {
      Inference(SlotsOf(inf), reports)
    }

    method Put(i: nat, t: TypeObj)
      requires Valid() && c.Known(t) && i < |inf|
      modifies this`inf
      ensures Valid() && |inf| == old(|inf|)
      ensures State() == old(State()).(slots := old(State()).slots[i := Some(t.tree)])
    {
      hide Interner.Valid, Interner.Known;
      inf := inf[i := t];
      assert State().slots == old(State()).slots[i := Some(t.tree)];
    }

    method Infer(i: nat, got: TypeObj)
      requires Valid() && c.Known(got)
      modifies this
      ensures Valid() && |inf| == old(|inf|) && State() == Learn(old(State()), i, got.tree)
    {
      KnownSpells(c, got);
      hide Interner.Valid, CanWiden, SameType, Spells, Interner.Formed, SlotsOf, Interner.Known;
      if i >= |inf| {
        return;
      }
      var was := inf[i];
      if got.kind == KBase(UntypedInt) {
        if was == null {
          Put(i, i64);
        }
        return;
      }
      if was == null {
        Put(i, got);
        return;
      }
      var same := TypeEq(c, was, got);
      var holds := CanWidenTo(c, got, was);
      if !same && !holds {
        var grows := CanWidenTo(c, was, got);
        if grows {
          Put(i, got);
        } else {
          reports := reports + 1;
        }
      }
    }

    method UnifyInto(pat: TypeObj, got: TypeObj, owner: nat)
      requires Valid() && c.Known(pat) && c.Known(got)
      modifies this
      ensures Valid() && |inf| == old(|inf|) && State() == Unify(pat.tree, got.tree, owner, old(State()))
      decreases pat.tree, 1
    {
      assert c.Valid();
      hide Interner.Valid, TreesOf, Learn, UnifyAll, Interner.AllKnown, Valid, State, SlotsOf, Unify, Spells, Interner.Formed;
      Components(c, pat);
      Components(c, got);
      UnifyByKind(c, pat, got, owner, State());
      if got.kind == KBase(ErrorType) || pat.kind == KBase(ErrorType) {
        return;
      }
      if pat.kind.KBase? {
        if pat.kind.leaf.Param? && pat.kind.leaf.owner == owner {
          Infer(pat.kind.leaf.index, got);
        }
        return;
      }
      if pat.kind == KPtr && got.kind == KPtr {
        UnifyInto(pat.elem, got.elem, owner);
        return;
      }
      if pat.kind == KSpan && (got.kind == KSpan || got.kind == KArr) {
        UnifyInto(pat.elem, got.elem, owner);
        return;
      }
      if pat.kind == KArr && got.kind == KArr && pat.length == got.length {
        UnifyInto(pat.elem, got.elem, owner);
        return;
      }
      if pat.kind == KOpt && got.kind == KOpt {
        UnifyInto(pat.elem, got.elem, owner);
        return;
      }
      if pat.kind == KOpt {
        UnifyInto(pat.elem, got, owner);
        return;
      }
      if pat.kind == KFail && got.kind == KFail {
        UnifyInto(pat.elem, got.elem, owner);
        return;
      }
      if pat.kind == KStruct && got.kind == KStruct && pat.origin == got.origin && |pat.args| == |got.args| {
        UnifyParts(pat, got, owner);
        return;
      }
      if pat.kind == KFunc && got.kind == KFunc && |pat.args| == |got.args| {
        UnifyParts(pat, got, owner);
        UnifyInto(pat.elem, got.elem, owner);
      }
    }

    method UnifyParts(pat: TypeObj, got: TypeObj, owner: nat)
      requires Valid() && c.Known(pat) && c.Known(got)
      requires pat.kind == got.kind && (pat.kind == KStruct || pat.kind == KFunc) && |pat.args| == |got.args|
      modifies this
      ensures Valid() && |inf| == old(|inf|)
      ensures State() == UnifyAll(TreesOf(pat.args), TreesOf(got.args), owner, old(State()))
      decreases pat.tree, 0
    {
      KnownSpells(c, pat);
      KnownSpells(c, got);
      hide Interner.Valid, TreesOf, Unify, SlotsOf, Spells;
      ghost var ps, gs := TreesOf(pat.args), TreesOf(got.args);
      var i := 0;
      while i < |pat.args|
        invariant 0 <= i <= |pat.args| && Valid() && |inf| == old(|inf|)
        invariant UnifyAll(ps[i..], gs[i..], owner, State()) == UnifyAll(ps, gs, owner, old(State()))
      {
        assert ps[i..][1..] == ps[i + 1..] && gs[i..][1..] == gs[i + 1..];
        UnifyInto(pat.args[i], got.args[i], owner);
        i := i + 1;
      }
    }
  }

  /** A generic function's parameter type, instantiated and then matched, gives back the very
      type objects it was instantiated with, unless some `T?` met a null niche. */
  method InstantiateThenInfer(c: Interner, i64: TypeObj, t: TypeObj, owner: nat, args: seq<TypeObj>) returns (w: Inferrer)
    requires c.Valid() && c.Known(i64) && i64.tree == Base(IntType(true, 64, false)) && c.Known(t) && c.AllKnown(args)
    requires Concrete(TreesOf(args)) && !NicheOptional(t.tree, owner, TreesOf(args))
    modifies c
    ensures c.Valid() && w.reports == 0 && |w.inf| == |args|
    ensures forall i :: 0 <= i < |args| ==> w.inf[i] == if Occurs(t.tree, owner, i) then args[i] else null
  {
    var got := SubstType(c, t, owner, args);
    w := new Inferrer(c, i64, |args|);
    w.UnifyInto(t, got, owner);
    MatchingInvertsSubstitution(t.tree, owner, TreesOf(args));
    forall i | 0 <= i < |args| ensures w.inf[i] == if Occurs(t.tree, owner, i) then args[i] else null {
      assert w.State().slots[i] == if Occurs(t.tree, owner, i) then Some(args[i].tree) else None;
      if Occurs(t.tree, owner, i) {
        SameObjectIffSameTree(c, w.inf[i], args[i]);
      }
    }
  }
}
