/** Type-argument inference (src/check/generic.cpp): matching a parameter's type against an
    argument's, and putting type arguments for parameters.

    Interned types are one object per structure, so both are functions of structures;
    GenericsChecker.dfy has the methods that work on the objects. */
module Generics {
  import opened Wrappers
  import opened Interning

  /** The inference vector, and how many conflicts were reported. */
  datatype Inference = Inference(slots: seq<Option<Tree>>, reports: nat)

  function NothingInferred(n: nat): (s: Inference)
    ensures |s.slots| == n && s.reports == 0 && forall i :: 0 <= i < n ==> s.slots[i] == None
  {
    Inference(seq(n, _ => None), 0)
  }

  // ---------------------------------------------------------------- comparing types

  predicate SameType(a: Tree, b: Tree) {
    a == b || a == Base(ErrorType) || b == Base(ErrorType)
  }

  predicate CanWiden(narrow: Tree, wide: Tree) {
    if SameType(narrow, wide) then true
    else if wide.AtomicT? && !narrow.AtomicT? then SameType(narrow, wide.elem) || CanWiden(narrow, wide.elem)
    else if narrow.Base? && wide.Base? && narrow.leaf.IntType? && wide.leaf.IntType? && narrow.leaf.signed == wide.leaf.signed then
      narrow.leaf.bits < wide.leaf.bits
    else narrow.Base? && wide.Base? && narrow.leaf.FloatType? && wide.leaf.FloatType? && narrow.leaf.bits < wide.leaf.bits
  }

  // ---------------------------------------------------------------- substitution

  predicate IsParam(t: Tree, owner: nat) {
    t.Base? && t.leaf.Param? && t.leaf.owner == owner
  }

  /** `subst_type`.  It does not look inside `@T`, nor at the arguments of an interface. */
  function Subst(t: Tree, owner: nat, args: seq<Tree>): Tree {
    match t
    case Base(_) => if IsParam(t, owner) && t.leaf.index < |args| then args[t.leaf.index] else t
    case PtrT(e, c, v, n) => PtrT(Subst(e, owner, args), c, v, n)
    case ArrT(e, n) => ArrT(Subst(e, owner, args), n)
    case SpanT(e, c) => SpanT(Subst(e, owner, args), c)
    case OptT(e) => Optional(Subst(e, owner, args))
    case FailT(e) => FailT(Subst(e, owner, args))
    case AtomicT(_) => t
    case TupT(es) => TupT(SubstAll(es, owner, args))
    case FuncT(ps, r, n) => FuncT(SubstAll(ps, owner, args), Subst(r, owner, args), n)
    case StructT(o, ts) => if ts == [] then t else StructT(o, SubstAll(ts, owner, args))
    case IfaceT(_, _, _) => t
  }

  function SubstAll(ts: seq<Tree>, owner: nat, args: seq<Tree>): (r: seq<Tree>)
    ensures |r| == |ts|
  {
    if ts == [] then [] else [Subst(ts[0], owner, args)] + SubstAll(ts[1..], owner, args)
  }

  // ---------------------------------------------------------------- matching

  function Learn(s: Inference, i: nat, got: Tree): (r: Inference)
    ensures |r.slots| == |s.slots| && r.reports >= s.reports
  {
    if i >= |s.slots| then s
    else if got == Base(UntypedInt) then
      if s.slots[i] == None then s.(slots := s.slots[i := Some(Base(IntType(true, 64, false)))]) else s
    else if s.slots[i] == None then s.(slots := s.slots[i := Some(got)])
    else if SameType(s.slots[i].value, got) || CanWiden(got, s.slots[i].value) then s
    else if CanWiden(s.slots[i].value, got) then s.(slots := s.slots[i := Some(got)])
    else s.(reports := s.reports + 1)
  }

  /** `unify_into`. */
  function Unify(pat: Tree, got: Tree, owner: nat, s: Inference): (r: Inference)
    ensures |r.slots| == |s.slots| && r.reports >= s.reports
    decreases pat
  {
    if got == Base(ErrorType) || pat == Base(ErrorType) then s
    else if pat.Base? then
      if IsParam(pat, owner) then Learn(s, pat.leaf.index, got) else s
    else if pat.PtrT? then
      if got.PtrT? then Unify(pat.elem, got.elem, owner, s) else s
    else if pat.SpanT? then
      if got.SpanT? || got.ArrT? then Unify(pat.elem, got.elem, owner, s) else s
    else if pat.ArrT? then
      if got.ArrT? && got.length == pat.length then Unify(pat.elem, got.elem, owner, s) else s
    else if pat.OptT? then
      Unify(pat.elem, if got.OptT? then got.elem else got, owner, s)
    else if pat.FailT? then
      if got.FailT? then Unify(pat.elem, got.elem, owner, s) else s
    else if pat.StructT? then
      if got.StructT? && pat.origin == got.origin && |pat.args| == |got.args| then
        UnifyAll(pat.args, got.args, owner, s)
      else s
    else if pat.FuncT? then
      if got.FuncT? && |pat.params| == |got.params| then
        Unify(pat.result, got.result, owner, UnifyAll(pat.params, got.params, owner, s))
      else s
    else s
  }

  function UnifyAll(pats: seq<Tree>, gots: seq<Tree>, owner: nat, s: Inference): (r: Inference)
    requires |pats| == |gots|
    ensures |r.slots| == |s.slots| && r.reports >= s.reports
    decreases pats
  {
    if pats == [] then s
    else UnifyAll(pats[1..], gots[1..], owner, Unify(pats[0], gots[0], owner, s))
  }

  // ---------------------------------------------------------------- where parameters occur

  /** Parameter `i` stands in `t` where matching looks: anywhere but in a tuple, an atomic or an
      interface. */
  predicate Occurs(t: Tree, owner: nat, i: nat) {
    match t
    case Base(_) => IsParam(t, owner) && t.leaf.index == i
    case TupT(_) => false
    case AtomicT(_) => false
    case IfaceT(_, _, _) => false
    case FuncT(ps, r, _) => OccursAny(ps, owner, i) || Occurs(r, owner, i)
    case StructT(_, ts) => OccursAny(ts, owner, i)
    case _ => Occurs(t.elem, owner, i)
  }

  predicate OccursAny(ts: seq<Tree>, owner: nat, i: nat) {
    ts != [] && (Occurs(ts[0], owner, i) || OccursAny(ts[1..], owner, i))
  }

  /** `T?` stands in `t` where matching looks, for a parameter whose argument has a null niche. */
  predicate NicheOptional(t: Tree, owner: nat, args: seq<Tree>) {
    match t
    case OptT(e) =>
      || (IsParam(e, owner) && e.leaf.index < |args| && HasNullNiche(args[e.leaf.index]))
      || NicheOptional(e, owner, args)
    case Base(_) => false
    case TupT(_) => false
    case AtomicT(_) => false
    case IfaceT(_, _, _) => false
    case FuncT(ps, r, _) => NicheOptionalAny(ps, owner, args) || NicheOptional(r, owner, args)
    case StructT(_, ts) => NicheOptionalAny(ts, owner, args)
    case _ => NicheOptional(t.elem, owner, args)
  }

  predicate NicheOptionalAny(ts: seq<Tree>, owner: nat, args: seq<Tree>) {
    ts != [] && (NicheOptional(ts[0], owner, args) || NicheOptionalAny(ts[1..], owner, args))
  }

  // ---------------------------------------------------------------- matching inverts substitution

  /** Arguments a call can be given: an untyped literal and an already reported type are none. */
  predicate Concrete(args: seq<Tree>) {
    forall i :: 0 <= i < |args| ==> args[i] != Base(ErrorType) && args[i] != Base(UntypedInt)
  }

  /** Every occurring parameter is inferred as its argument, the others stay open, and
      nothing is reported. */
  predicate Inverts(s: Inference, pat: Tree, owner: nat, args: seq<Tree>) {
    && s.reports == 0 && |s.slots| == |args|
    && forall i :: 0 <= i < |args| ==> s.slots[i] == if Occurs(pat, owner, i) then Some(args[i]) else None
  }

  /** What matching against substituted types can have put in the slots. */
  predicate Plausible(s: Inference, args: seq<Tree>) {
    && |s.slots| == |args|
    && forall i :: 0 <= i < |args| ==> PlausibleSlot(s.slots[i], args[i])
  }

  predicate PlausibleSlot(slot: Option<Tree>, arg: Tree) {
    slot == None || slot == Some(arg) || (HasNullNiche(arg) && slot == Some(Optional(arg)))
  }

  /** The inference is already wrong. */
  predicate Wrong(s: Inference, args: seq<Tree>) {
    s.reports > 0 || exists i :: 0 <= i < |args| && i < |s.slots| && WrongSlot(s.slots[i], args[i])
  }

  predicate WrongSlot(slot: Option<Tree>, arg: Tree) {
    HasNullNiche(arg) && slot == Some(Optional(arg))
  }

  lemma NicheNeverWidens(a: Tree)
    requires HasNullNiche(a)
    ensures a != Optional(a) && !SameType(a, Optional(a)) && !SameType(Optional(a), a)
    ensures !CanWiden(a, Optional(a)) && !CanWiden(Optional(a), a)
  {
  }

  /** Matching keeps plausible slots plausible, keeps a wrong inference wrong, and makes it
      wrong at each `T?` whose argument has a null niche; elsewhere it learns exactly. */
  ghost predicate Learned(s: Inference, r: Inference, args: seq<Tree>, niche: bool) {
    && Plausible(r, args)
    && (Wrong(s, args) || niche ==> Wrong(r, args))
  }

  ghost predicate Exact(s: Inference, r: Inference, t: Tree, owner: nat, args: seq<Tree>) {
    && r.reports == s.reports && |r.slots| == |s.slots| == |args|
    && forall i :: 0 <= i < |args| ==> r.slots[i] == if Occurs(t, owner, i) then Some(args[i]) else s.slots[i]
  }

  ghost predicate ExactAll(s: Inference, r: Inference, ts: seq<Tree>, owner: nat, args: seq<Tree>) {
    && r.reports == s.reports && |r.slots| == |s.slots| == |args|
    && forall i :: 0 <= i < |args| ==> r.slots[i] == if OccursAny(ts, owner, i) then Some(args[i]) else s.slots[i]
  }

  /** Slots hold their argument or nothing. */
  predicate Faithful(s: Inference, args: seq<Tree>) {
    |s.slots| == |args| && forall i :: 0 <= i < |args| ==> s.slots[i] == None || s.slots[i] == Some(args[i])
  }

  lemma LearnArgument(s: Inference, i: nat, args: seq<Tree>)
    requires Concrete(args) && Plausible(s, args) && i < |args|
    ensures Learned(s, Learn(s, i, args[i]), args, false)
  {
    var r := Learn(s, i, args[i]);
    if HasNullNiche(args[i]) {
      NicheNeverWidens(args[i]);
    }
    if Wrong(s, args) && s.reports == 0 {
      var k :| 0 <= k < |args| && k < |s.slots| && WrongSlot(s.slots[k], args[k]);
      assert WrongSlot(r.slots[k], args[k]) || r.reports > 0;
    }
  }

  lemma LearnNiche(s: Inference, i: nat, args: seq<Tree>)
    requires Concrete(args) && Plausible(s, args) && i < |args| && HasNullNiche(args[i])
    ensures Learned(s, Learn(s, i, Optional(args[i])), args, true)
  {
    var r := Learn(s, i, Optional(args[i]));
    NicheNeverWidens(args[i]);
    assert r.reports > 0 || WrongSlot(r.slots[i], args[i]);
    assert Plausible(r, args);
  }

  lemma SubstNotError(t: Tree, owner: nat, args: seq<Tree>)
    requires Concrete(args)
    ensures Subst(t, owner, args) == Base(ErrorType) <==> t == Base(ErrorType)
  {
  }

  lemma {:induction false} UnifyLearned(t: Tree, owner: nat, args: seq<Tree>, s: Inference)
    requires Concrete(args) && Plausible(s, args)
    ensures Learned(s, Unify(t, Subst(t, owner, args), owner, s), args, NicheOptional(t, owner, args))
    decreases t, 1
  {
    SubstNotError(t, owner, args);
    match t
    case Base(_) =>
      if IsParam(t, owner) && t.leaf.index < |args| { LearnArgument(s, t.leaf.index, args); }
    case OptT(e) => UnifyOptional(t, owner, args, s);
    case TupT(_) =>
    case AtomicT(_) =>
    case IfaceT(_, _, _) =>
    case StructT(o, ts) =>
      UnifyAllLearned(ts, owner, args, s);
      assert Unify(t, Subst(t, owner, args), owner, s) == UnifyAll(ts, SubstAll(ts, owner, args), owner, s);
    case FuncT(ps, r, n) =>
      UnifyAllLearned(ps, owner, args, s);
      UnifyLearned(r, owner, args, UnifyAll(ps, SubstAll(ps, owner, args), owner, s));
    case _ => UnifyLearned(t.elem, owner, args, s);
  }

  lemma {:induction false} UnifyOptional(t: Tree, owner: nat, args: seq<Tree>, s: Inference)
    requires Concrete(args) && Plausible(s, args) && t.OptT?
    ensures Learned(s, Unify(t, Subst(t, owner, args), owner, s), args, NicheOptional(t, owner, args))
    decreases t, 0
  {
    var e := t.elem;
    var sub := Subst(e, owner, args);
    if !HasNullNiche(sub) {
      UnifyLearned(e, owner, args, s);
    } else if IsParam(e, owner) && e.leaf.index < |args| {
      LearnNiche(s, e.leaf.index, args);
    } else {
      NicheOfPattern(e, owner, args, s);
      UnifyLearned(e, owner, args, s);
    }
  }

  /** A pattern that is itself a pointer, function or interface is matched past its null niche. */
  lemma NicheOfPattern(e: Tree, owner: nat, args: seq<Tree>, s: Inference)
    requires Concrete(args) && HasNullNiche(Subst(e, owner, args)) && !(IsParam(e, owner) && e.leaf.index < |args|)
    ensures e.PtrT? || e.FuncT? || e.IfaceT?
    ensures Unify(e, Optional(Subst(e, owner, args)), owner, s) == Unify(e, Subst(e, owner, args), owner, s)
  {
  }

  lemma {:induction false} UnifyAllLearned(ts: seq<Tree>, owner: nat, args: seq<Tree>, s: Inference)
    requires Concrete(args) && Plausible(s, args)
    ensures Learned(s, UnifyAll(ts, SubstAll(ts, owner, args), owner, s), args, NicheOptionalAny(ts, owner, args))
    decreases ts, 0
  {
    if ts != [] {
      UnifyLearned(ts[0], owner, args, s);
      UnifyAllLearned(ts[1..], owner, args, Unify(ts[0], Subst(ts[0], owner, args), owner, s));
      assert SubstAll(ts, owner, args)[1..] == SubstAll(ts[1..], owner, args);
    }
  }

  lemma {:induction false} UnifyExact(t: Tree, owner: nat, args: seq<Tree>, s: Inference)
    requires Concrete(args) && Faithful(s, args) && !NicheOptional(t, owner, args)
    ensures Exact(s, Unify(t, Subst(t, owner, args), owner, s), t, owner, args)
    decreases t
  {
    SubstNotError(t, owner, args);
    match t
    case Base(_) =>
    case TupT(_) =>
    case AtomicT(_) =>
    case IfaceT(_, _, _) =>
    case OptT(e) =>
      UnifyExact(e, owner, args, s);
      if HasNullNiche(Subst(e, owner, args)) { NicheOfPattern(e, owner, args, s); }
    case StructT(o, ts) => if ts != [] { UnifyAllExact(ts, owner, args, s); }
    case FuncT(ps, r, n) =>
      UnifyAllExact(ps, owner, args, s);
      UnifyExact(r, owner, args, UnifyAll(ps, SubstAll(ps, owner, args), owner, s));
    case _ => UnifyExact(t.elem, owner, args, s);
  }

  lemma {:induction false} UnifyAllExact(ts: seq<Tree>, owner: nat, args: seq<Tree>, s: Inference)
    requires Concrete(args) && Faithful(s, args) && !NicheOptionalAny(ts, owner, args)
    ensures ExactAll(s, UnifyAll(ts, SubstAll(ts, owner, args), owner, s), ts, owner, args)
    decreases ts
  {
    if ts != [] {
      UnifyExact(ts[0], owner, args, s);
      UnifyAllExact(ts[1..], owner, args, Unify(ts[0], Subst(ts[0], owner, args), owner, s));
      assert SubstAll(ts, owner, args)[1..] == SubstAll(ts[1..], owner, args);
    }
  }

  /** Matching a type against its own instance recovers the type arguments, exactly when no
      `T?` it meets was given an argument with a null niche. */
  lemma MatchingInvertsSubstitution(t: Tree, owner: nat, args: seq<Tree>)
    requires Concrete(args)
    ensures Inverts(Unify(t, Subst(t, owner, args), owner, NothingInferred(|args|)), t, owner, args)
            <==> !NicheOptional(t, owner, args)
  {
    var s := NothingInferred(|args|);
    var r := Unify(t, Subst(t, owner, args), owner, s);
    if NicheOptional(t, owner, args) {
      UnifyLearned(t, owner, args, s);
      if r.reports == 0 {
        var k :| 0 <= k < |args| && k < |r.slots| && WrongSlot(r.slots[k], args[k]);
        NicheNeverWidens(args[k]);
      }
    } else {
      UnifyExact(t, owner, args, s);
    }
  }

  /** `T?` at `bool*` is `bool*?`, from which matching infers `T` as `bool*?`; and `T?` at an
      interface infers its nullable form. */
  lemma NicheInfersTheOptional(arg: Tree)
    requires HasNullNiche(arg)
    ensures
      var T := Base(Param(0, 0));
      && Unify(OptT(T), Subst(OptT(T), 0, [arg]), 0, NothingInferred(1)).slots == [Some(Optional(arg))]
      && Optional(arg) != arg
  {
    var T := Base(Param(0, 0));
    assert Subst(OptT(T), 0, [arg]) == Optional(arg);
    assert Unify(OptT(T), Optional(arg), 0, NothingInferred(1)) == Unify(T, Optional(arg), 0, NothingInferred(1));
  }

  // ---------------------------------------------------------------- nothing left to infer

  predicate Mentions(t: Tree, owner: nat) {
    match t
    case Base(_) => IsParam(t, owner)
    case TupT(es) => MentionsAny(es, owner)
    case FuncT(ps, r, _) => MentionsAny(ps, owner) || Mentions(r, owner)
    case StructT(_, ts) => MentionsAny(ts, owner)
    case IfaceT(_, ts, _) => MentionsAny(ts, owner)
    case _ => Mentions(t.elem, owner)
  }

  predicate MentionsAny(ts: seq<Tree>, owner: nat) {
    ts != [] && (Mentions(ts[0], owner) || MentionsAny(ts[1..], owner))
  }

  /** `all_inferred`. */
  predicate AllInferred(t: Tree, owner: nat, slots: seq<Option<Tree>>) {
    match t
    case Base(_) => IsParam(t, owner) ==> t.leaf.index < |slots| && slots[t.leaf.index].Some?
    case TupT(es) => AllInferredAll(es, owner, slots)
    case FuncT(ps, r, _) => AllInferredAll(ps, owner, slots) && AllInferred(r, owner, slots)
    case StructT(_, ts) => AllInferredAll(ts, owner, slots)
    case IfaceT(_, ts, _) => AllInferredAll(ts, owner, slots)
    case _ => AllInferred(t.elem, owner, slots)
  }

  predicate AllInferredAll(ts: seq<Tree>, owner: nat, slots: seq<Option<Tree>>) {
    ts == [] || (AllInferred(ts[0], owner, slots) && AllInferredAll(ts[1..], owner, slots))
  }

  /** A parameter of `owner` stands where substitution does not look: inside an atomic, or in
      the arguments of an interface (whose nullable form has none). */
  predicate Unreached(t: Tree, owner: nat) {
    match t
    case Base(_) => false
    case AtomicT(e) => Mentions(e, owner)
    case IfaceT(_, ts, _) => MentionsAny(ts, owner)
    case OptT(e) => !(e.IfaceT? && !e.nullable) && Unreached(e, owner)
    case TupT(es) => UnreachedAny(es, owner)
    case FuncT(ps, r, _) => UnreachedAny(ps, owner) || Unreached(r, owner)
    case StructT(_, ts) => UnreachedAny(ts, owner)
    case _ => Unreached(t.elem, owner)
  }

  predicate UnreachedAny(ts: seq<Tree>, owner: nat) {
    ts != [] && (Unreached(ts[0], owner) || UnreachedAny(ts[1..], owner))
  }

  /** `args` are the inferred types, none of which mentions the generic's own parameters. */
  predicate Supplies(args: seq<Tree>, owner: nat, slots: seq<Option<Tree>>) {
    && |args| == |slots|
    && forall i :: 0 <= i < |slots| && slots[i].Some? ==> args[i] == slots[i].value && !Mentions(args[i], owner)
  }

  /** Once everything is inferred, the substituted type still mentions a parameter exactly
      when the type has one inside an atomic or in the arguments of an interface. */
  lemma {:induction false} SubstitutedIsClosed(t: Tree, owner: nat, slots: seq<Option<Tree>>, args: seq<Tree>)
    requires AllInferred(t, owner, slots) && Supplies(args, owner, slots)
    ensures Mentions(Subst(t, owner, args), owner) <==> Unreached(t, owner)
    decreases t
  {
    match t
    case Base(_) =>
    case AtomicT(_) =>
    case IfaceT(_, _, _) =>
    case TupT(es) => AllSubstitutedClosed(es, owner, slots, args);
    case StructT(_, ts) => AllSubstitutedClosed(ts, owner, slots, args);
    case FuncT(ps, r, _) =>
      AllSubstitutedClosed(ps, owner, slots, args);
      SubstitutedIsClosed(r, owner, slots, args);
    case OptT(e) =>
      SubstitutedIsClosed(e, owner, slots, args);
      OptionalMentions(Subst(e, owner, args), owner);
      assert Subst(e, owner, args).IfaceT? ==> e.IfaceT? || !Mentions(Subst(e, owner, args), owner);
    case _ => SubstitutedIsClosed(t.elem, owner, slots, args);
  }

  lemma OptionalMentions(t: Tree, owner: nat)
    ensures Mentions(Optional(t), owner) <==> !(t.IfaceT? && !t.nullable) && Mentions(t, owner)
  {
  }

  lemma {:induction false} AllSubstitutedClosed(ts: seq<Tree>, owner: nat, slots: seq<Option<Tree>>, args: seq<Tree>)
    requires AllInferredAll(ts, owner, slots) && Supplies(args, owner, slots)
    ensures MentionsAny(SubstAll(ts, owner, args), owner) <==> UnreachedAny(ts, owner)
    decreases ts
  {
    if ts != [] {
      SubstitutedIsClosed(ts[0], owner, slots, args);
      AllSubstitutedClosed(ts[1..], owner, slots, args);
      assert SubstAll(ts, owner, args)[1..] == SubstAll(ts[1..], owner, args);
    }
  }

  /** `@T*`: all inferred, and `T` still there. */
  lemma AtomicKeepsParameter(arg: Tree)
    requires !Mentions(arg, 0)
    ensures
      var t := AtomicT(PtrT(Base(Param(0, 0)), false, false, false));
      AllInferred(t, 0, [Some(arg)]) && Mentions(Subst(t, 0, [arg]), 0)
  {
    var T := Base(Param(0, 0));
    assert AllInferred(T, 0, [Some(arg)]) && Mentions(T, 0);
    assert AllInferred(PtrT(T, false, false, false), 0, [Some(arg)]) && Mentions(PtrT(T, false, false, false), 0);
  }

  /** `Iterator[T]`: the same. */
  lemma InterfaceKeepsParameter(decl: nat, arg: Tree)
    requires !Mentions(arg, 0)
    ensures
      var t := IfaceT(decl, [Base(Param(0, 0))], false);
      AllInferred(t, 0, [Some(arg)]) && Mentions(Subst(t, 0, [arg]), 0)
  {
    var ts := [Base(Param(0, 0))];
    assert ts[1..] == [];
    assert AllInferred(ts[0], 0, [Some(arg)]) && Mentions(ts[0], 0);
    assert AllInferredAll(ts, 0, [Some(arg)]) && MentionsAny(ts, 0);
  }
}
