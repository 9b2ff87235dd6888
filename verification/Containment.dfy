/** By-value containment (src/check/check.cpp): a record must not contain itself.

    `contains_by_value` walks the types a declaration holds by value with one list of the
    declarations seen, shared by the whole walk; `check_containment` takes the type off every
    member through which its declaration contains itself. */
module Containment {
  import opened Wrappers

  /** A type as far as by-value containment goes; pointers, spans and functions are leaves, and
      so is the error type an offending member is left with. */
  datatype Ty =
    | Leaf
    | Array(elem: Ty, length: nat)
    | Atomic(elem: Ty)
    | Optional(elem: Ty)
    | Tuple(elems: Types)
    | Record(decl: nat)

  datatype Types = NoTypes | More(head: Ty, tail: Types)

  /** The members' types of every declaration: fields, or the payloads of an enum's cases. */
  type Decls = seq<seq<Ty>>

  /** The declarations `t` holds directly. */
  function Holds(t: Ty): set<nat> {
    match t
    case Leaf => {}
    case Array(e, _) => Holds(e)
    case Atomic(e) => Holds(e)
    case Optional(e) => Holds(e)
    case Tuple(es) => HoldsAny(es)
    case Record(d) => {d}
  }

  function HoldsAny(ts: Types): set<nat> {
    match ts
    case NoTypes => {}
    case More(t, rest) => Holds(t) + HoldsAny(rest)
  }

  function HoldsIn(ts: seq<Ty>): (r: set<nat>)
    ensures forall i :: 0 <= i < |ts| ==> Holds(ts[i]) <= r
  {
    if ts == [] then {} else Holds(ts[0]) + HoldsIn(ts[1..])
  }

  lemma {:induction false} HoldsInPrefix(ts: seq<Ty>, i: nat)
    requires i < |ts|
    ensures HoldsIn(ts[..i + 1]) == HoldsIn(ts[..i]) + Holds(ts[i])
    decreases i
  {
    if i > 0 {
      HoldsInPrefix(ts[1..], i - 1);
      assert ts[..i + 1][1..] == ts[1..][..i];
      assert ts[..i][1..] == ts[1..][..i - 1];
    } else {
      assert ts[..1][1..] == [];
    }
  }

  /** The declarations that declaration `d` holds. */
  function Edges(ds: Decls, d: nat): set<nat> {
    if d < |ds| then HoldsIn(ds[d]) else {}
  }

  predicate InRange(s: set<nat>, n: nat) { forall k :: k in s ==> k < n }

  predicate WellFormed(ds: Decls) {
    forall d: nat :: d < |ds| ==> InRange(Edges(ds, d), |ds|)
  }

  /** A walk along by-value edges. */
  predicate IsPath(ds: Decls, p: seq<nat>) {
    |p| > 0 && forall i :: 0 <= i < |p| - 1 ==> p[i + 1] in Edges(ds, p[i])
  }

  /** A declaration of `from`, or something reached from one, is `d`. */
  ghost predicate Reaches(ds: Decls, from: set<nat>, d: nat) {
    exists p: seq<nat> :: IsPath(ds, p) && p[0] in from && p[|p| - 1] == d
  }

  lemma ReachesStep(ds: Decls, from: set<nat>, k: nat, d: nat)
    requires k in from && Reaches(ds, Edges(ds, k), d)
    ensures Reaches(ds, from, d)
  {
    var p: seq<nat> :| IsPath(ds, p) && p[0] in Edges(ds, k) && p[|p| - 1] == d;
    var q := [k] + p;
    assert forall i :: 0 <= i < |q| - 1 ==> q[i + 1] in Edges(ds, q[i]);
    assert IsPath(ds, q) && q[0] in from && q[|q| - 1] == d;
  }

  lemma ReachesMore(ds: Decls, from: set<nat>, more: set<nat>, d: nat)
    requires from <= more && Reaches(ds, from, d)
    ensures Reaches(ds, more, d)
  {
    var p: seq<nat> :| IsPath(ds, p) && p[0] in from && p[|p| - 1] == d;
    assert IsPath(ds, p) && p[0] in more && p[|p| - 1] == d;
  }

  lemma NorFewer(ds: Decls, from: set<nat>, more: set<nat>, d: nat)
    requires from <= more && !Reaches(ds, more, d)
    ensures !Reaches(ds, from, d)
  {
    if Reaches(ds, from, d) {
      ReachesMore(ds, from, more, d);
    }
  }

  /** If none of `from` reaches `d` on its own, `from` does not. */
  lemma NoneReaches(ds: Decls, from: set<nat>, d: nat)
    requires forall k :: k in from ==> !Reaches(ds, {k}, d)
    ensures !Reaches(ds, from, d)
  {
    forall p: seq<nat> | IsPath(ds, p) && p[0] in from ensures p[|p| - 1] != d {
      assert !Reaches(ds, {p[0]}, d);
    }
  }

  lemma ReachesNow(ds: Decls, from: set<nat>, d: nat)
    requires d in from
    ensures Reaches(ds, from, d)
  {
    assert IsPath(ds, [d]) && [d][0] in from && [d][|[d]| - 1] == d;
  }

  lemma TailIsPath(ds: Decls, p: seq<nat>)
    requires IsPath(ds, p) && |p| > 1
    ensures IsPath(ds, p[1..]) && p[1] in Edges(ds, p[0])
  {
    var q := p[1..];
    assert forall i :: 0 <= i < |q| ==> q[i] == p[i + 1];
    forall i | 0 <= i < |q| - 1 ensures q[i + 1] in Edges(ds, q[i]) {
      assert p[i + 1 + 1] in Edges(ds, p[i + 1]);
    }
    assert p[0 + 1] in Edges(ds, p[0]);
  }

  /** A set closed under edges is never left. */
  lemma {:induction false} ClosedSet(ds: Decls, s: set<nat>, p: seq<nat>)
    requires IsPath(ds, p) && p[0] in s && forall k :: k in s ==> Edges(ds, k) <= s
    ensures p[|p| - 1] in s
    decreases |p|
  {
    if |p| > 1 {
      TailIsPath(ds, p);
      ClosedSet(ds, s, p[1..]);
    }
  }

  /** What a finished, unsuccessful part of the walk leaves: everything it entered is closed. */
  ghost predicate Explored(ds: Decls, before: set<nat>, after: set<nat>, d: nat) {
    && before <= after
    && forall k :: k in after && k !in before ==> k != d && Edges(ds, k) <= after && d !in Edges(ds, k)
  }

  /** Declarations the walk may still enter. */
  function Unseen(ds: Decls, seen: set<nat>): set<nat> {
    Below(|ds|) - seen
  }

  // ----- taking members off -----

  /** `small` is `ds` with some members' types taken off. */
  ghost predicate Sub(small: Decls, ds: Decls) {
    && |small| == |ds|
    && forall d: nat :: d < |ds| ==> Edges(small, d) <= Edges(ds, d)
  }

  lemma SubReaches(small: Decls, ds: Decls, from: set<nat>, d: nat)
    requires Sub(small, ds) && Reaches(small, from, d)
    ensures Reaches(ds, from, d)
  {
    var p: seq<nat> :| IsPath(small, p) && p[0] in from && p[|p| - 1] == d;
    forall i | 0 <= i < |p| - 1 ensures p[i + 1] in Edges(ds, p[i]) {
      assert p[i + 1] in Edges(small, p[i]);
    }
    assert IsPath(ds, p) && p[0] in from && p[|p| - 1] == d;
  }

  /** Whether something reaches `d` does not depend on what `d` itself holds. */
  lemma {:induction false} ReachesUpTo(ds: Decls, ds': Decls, from: set<nat>, d: nat, p: seq<nat>)
    requires |ds| == |ds'| && forall k: nat :: k != d ==> Edges(ds, k) == Edges(ds', k)
    requires IsPath(ds, p) && p[0] in from && p[|p| - 1] == d
    ensures Reaches(ds', from, d)
    decreases |p|
  {
    if p[0] == d {
      ReachesNow(ds', from, d);
    } else {
      TailIsPath(ds, p);
      ReachesUpTo(ds, ds', Edges(ds, p[0]), d, p[1..]);
      ReachesStep(ds', from, p[0], d);
    }
  }

  lemma ReachesSame(ds: Decls, ds': Decls, from: set<nat>, d: nat)
    requires |ds| == |ds'| && forall k: nat :: k != d ==> Edges(ds, k) == Edges(ds', k)
    ensures Reaches(ds, from, d) <==> Reaches(ds', from, d)
  {
    if Reaches(ds, from, d) {
      var p: seq<nat> :| IsPath(ds, p) && p[0] in from && p[|p| - 1] == d;
      ReachesUpTo(ds, ds', from, d, p);
    }
    if Reaches(ds', from, d) {
      var p: seq<nat> :| IsPath(ds', p) && p[0] in from && p[|p| - 1] == d;
      ReachesUpTo(ds', ds, from, d, p);
    }
  }

  /** The member `t` of declaration `d` as `check_containment` leaves it. */
  ghost function Left(ds: Decls, d: nat, t: Ty): Ty {
    if Reaches(ds, Holds(t), d) then Leaf else t
  }

  lemma {:induction false} LeftHolds(ds: Decls, d: nat, ts: seq<Ty>, left: seq<Ty>)
    requires |left| == |ts| && forall i :: 0 <= i < |ts| ==> left[i] == Left(ds, d, ts[i])
    ensures HoldsIn(left) <= HoldsIn(ts)
    ensures forall k :: k in HoldsIn(left) ==> !Reaches(ds, {k}, d)
    decreases |ts|
  {
    if ts != [] {
      LeftHolds(ds, d, ts[1..], left[1..]);
      if !Reaches(ds, Holds(ts[0]), d) {
        forall k | k in Holds(ts[0]) ensures !Reaches(ds, {k}, d) {
          NorFewer(ds, {k}, Holds(ts[0]), d);
        }
      }
    }
  }

  /** No declaration contains itself. */
  ghost predicate Acyclic(ds: Decls) {
    forall d: nat :: d < |ds| ==> !Reaches(ds, Edges(ds, d), d)
  }

  /** What a declaration holds, directly or not. */
  ghost function Contents(ds: Decls, d: nat): set<nat> {
    set k | k in Below(|ds|) && Reaches(ds, Edges(ds, d), k)
  }

  /** Without cycles every declaration holds strictly fewer others than its holder: recursion
      over members, as in `type_size` and `type_align`, is well founded. */
  lemma LayoutWellFounded(ds: Decls, a: nat, b: nat)
    requires WellFormed(ds) && Acyclic(ds) && a < |ds| && b in Edges(ds, a)
    ensures Contents(ds, b) < Contents(ds, a) && |Contents(ds, b)| < |Contents(ds, a)|
  {
    forall k | k in Contents(ds, b) ensures k in Contents(ds, a) {
      ReachesStep(ds, Edges(ds, a), b, k);
    }
    ReachesNow(ds, Edges(ds, a), b);
    assert InRange(Edges(ds, a), |ds|);
    assert b in Contents(ds, a) && b !in Contents(ds, b);
    SmallerSet(Contents(ds, b), Contents(ds, a));
  }

  lemma SmallerSet(a: set<nat>, b: set<nat>)
    requires a < b
    ensures |a| < |b|
  {
    var rest := b - a;
    assert b == a + rest;
    assert rest != {};
  }

  /** The declarations of the program, whose members lose their types in place. */
  class Checker {
    var decls: Decls

    constructor (decls: Decls)
      ensures this.decls == decls
    {
      this.decls := decls;
    }

    /** `contains_by_value`: `seen` is the shared list, given and handed back. */
    method Contains(t: Ty, d: nat, seen: set<nat>) returns (found: bool, seen': set<nat>)
      requires WellFormed(decls) && InRange(Holds(t), |decls|)
      ensures found ==> Reaches(decls, Holds(t), d)
      ensures !found ==> Explored(decls, seen, seen', d) && Holds(t) <= seen' && d !in Holds(t)
      ensures seen <= seen'
      decreases Unseen(decls, seen), 0, t
    {
      match t
      case Leaf => found, seen' := false, seen;
      case Array(e, _) => found, seen' := Contains(e, d, seen);
      case Atomic(e) => found, seen' := Contains(e, d, seen);
      case Optional(e) => found, seen' := Contains(e, d, seen);
      case Tuple(es) => found, seen' := ContainsAny(es, d, seen);
      case Record(k) =>
        if k == d {
          ReachesNow(decls, {d}, d);
          return true, seen;
        }
        if k in seen {
          return false, seen;
        }
        assert k in Unseen(decls, seen);
        found, seen' := ContainsIn(k, d, seen + {k});
        if found {
          ReachesStep(decls, {k}, k, d);
        }
    }

    method ContainsAny(ts: Types, d: nat, seen: set<nat>) returns (found: bool, seen': set<nat>)
      requires WellFormed(decls) && InRange(HoldsAny(ts), |decls|)
      ensures found ==> Reaches(decls, HoldsAny(ts), d)
      ensures !found ==> Explored(decls, seen, seen', d) && HoldsAny(ts) <= seen' && d !in HoldsAny(ts)
      ensures seen <= seen'
      decreases Unseen(decls, seen), 0, ts
    {
      found, seen' := false, seen;
      if ts.More? {
        found, seen' := Contains(ts.head, d, seen);
        if found {
          ReachesMore(decls, Holds(ts.head), HoldsAny(ts), d);
        } else {
          assert Unseen(decls, seen') == Unseen(decls, seen) || Unseen(decls, seen') < Unseen(decls, seen);
          found, seen' := ContainsAny(ts.tail, d, seen');
          if found {
            ReachesMore(decls, HoldsAny(ts.tail), HoldsAny(ts), d);
          }
        }
      }
    }

    /** The members of declaration `k`, which has just joined `seen`. */
    method ContainsIn(k: nat, d: nat, seen: set<nat>) returns (found: bool, seen': set<nat>)
      requires WellFormed(decls) && k < |decls|
      ensures found ==> Reaches(decls, Edges(decls, k), d)
      ensures !found ==> Explored(decls, seen, seen', d) && Edges(decls, k) <= seen' && d !in Edges(decls, k)
      ensures seen <= seen'
      decreases Unseen(decls, seen), 1
    {
      found, seen' := false, seen;
      var i := 0;
      while i < |decls[k]|
        invariant 0 <= i <= |decls[k]|
        invariant Explored(decls, seen, seen', d)
        invariant HoldsIn(decls[k][..i]) <= seen' && d !in HoldsIn(decls[k][..i])
      {
        assert Unseen(decls, seen') == Unseen(decls, seen) || Unseen(decls, seen') < Unseen(decls, seen);
        assert Holds(decls[k][i]) <= Edges(decls, k);
        HoldsInPrefix(decls[k], i);
        found, seen' := Contains(decls[k][i], d, seen');
        if found {
          ReachesMore(decls, Holds(decls[k][i]), Edges(decls, k), d);
          return;
        }
        i := i + 1;
      }
      assert decls[k][..i] == decls[k];
    }

    /** `contains_by_value` is exact reachability along by-value edges. */
    method ContainsByValue(t: Ty, d: nat) returns (found: bool)
      requires WellFormed(decls) && InRange(Holds(t), |decls|)
      ensures found <==> Reaches(decls, Holds(t), d)
    {
      var seen;
      found, seen := Contains(t, d, {});
      if !found {
        assert forall k :: k in seen ==> Edges(decls, k) <= seen;
        assert d !in seen;
        forall p: seq<nat> | IsPath(decls, p) && p[0] in Holds(t) ensures p[|p| - 1] != d {
          ClosedSet(decls, seen, p);
        }
      }
    }

    /** `check_containment` on one declaration: a member loses its type exactly when it contains
        the declaration, and then the declaration no longer contains itself. */
    method CheckContainment(d: nat)
      requires WellFormed(decls) && d < |decls|
      modifies this
      ensures |decls| == |old(decls)| && |decls[d]| == |old(decls)[d]|
      ensures forall i :: 0 <= i < |decls[d]| ==> decls[d][i] == Left(old(decls), d, old(decls)[d][i])
      ensures forall k :: 0 <= k < |decls| && k != d ==> decls[k] == old(decls)[k]
      ensures WellFormed(decls) && Sub(decls, old(decls)) && !Reaches(decls, Edges(decls, d), d)
    {
      ghost var ds := decls;
      var i := 0;
      while i < |decls[d]|
        invariant |decls| == |ds| && |decls[d]| == |ds[d]| && 0 <= i <= |ds[d]|
        invariant forall j :: 0 <= j < i ==> decls[d][j] == Left(ds, d, ds[d][j])
        invariant forall j :: i <= j < |ds[d]| ==> decls[d][j] == ds[d][j]
        invariant forall k :: 0 <= k < |ds| && k != d ==> decls[k] == ds[k]
        invariant WellFormed(decls)
      {
        assert Holds(decls[d][i]) <= Edges(decls, d);
        var found := ContainsByValue(decls[d][i], d);
        ReachesSame(ds, decls, Holds(decls[d][i]), d);
        if found {
          ghost var before := decls;
          decls := decls[d := decls[d][i := Leaf]];
          TakenOff(before, d, i);
        }
        i := i + 1;
      }
      DeclarationDone(ds, decls, d);
    }

    /** Every declaration in turn: at the end none contains itself, and a program in which none
        did is untouched. */
    method CheckAll()
      requires WellFormed(decls)
      modifies this
      ensures WellFormed(decls) && Sub(decls, old(decls)) && Acyclic(decls)
      ensures decls == old(decls) <==> Acyclic(old(decls))
    {
      ghost var ds := decls;
      var d := 0;
      while d < |decls|
        invariant 0 <= d <= |decls| == |ds|
        invariant WellFormed(decls) && Sub(decls, ds)
        invariant forall k: nat :: k < d ==> !Reaches(decls, Edges(decls, k), k)
        invariant Acyclic(ds) ==> decls == ds
      {
        ghost var before := decls;
        CheckContainment(d);
        forall k: nat | k < d ensures !Reaches(decls, Edges(decls, k), k) {
          if Reaches(decls, Edges(decls, k), k) {
            SubReaches(decls, before, Edges(decls, k), k);
            ReachesMore(before, Edges(decls, k), Edges(before, k), k);
          }
        }
        if Acyclic(ds) {
          UntouchedIfAcyclic(ds, decls, d);
        }
        d := d + 1;
      }
    }
  }

  lemma {:induction false} TakenOff(before: Decls, d: nat, i: nat)
    requires WellFormed(before) && d < |before| && i < |before[d]|
    ensures WellFormed(before[d := before[d][i := Leaf]])
  {
    var after := before[d := before[d][i := Leaf]];
    LeafHoldsLess(before[d], i);
    forall k: nat | k < |after| ensures InRange(Edges(after, k), |after|) {
      assert Edges(after, k) <= Edges(before, k);
    }
  }

  lemma {:induction false} LeafHoldsLess(ts: seq<Ty>, i: nat)
    requires i < |ts|
    ensures HoldsIn(ts[i := Leaf]) <= HoldsIn(ts)
    decreases |ts|
  {
    if i > 0 {
      assert ts[i := Leaf][1..] == ts[1..][i - 1 := Leaf];
      LeafHoldsLess(ts[1..], i - 1);
    } else {
      assert ts[i := Leaf][1..] == ts[1..];
    }
  }

  lemma DeclarationDone(ds: Decls, ds': Decls, d: nat)
    requires WellFormed(ds') && |ds| == |ds'| && d < |ds| && |ds'[d]| == |ds[d]|
    requires forall j :: 0 <= j < |ds[d]| ==> ds'[d][j] == Left(ds, d, ds[d][j])
    requires forall k :: 0 <= k < |ds| && k != d ==> ds'[k] == ds[k]
    ensures Sub(ds', ds) && !Reaches(ds', Edges(ds', d), d)
  {
    LeftHolds(ds, d, ds[d], ds'[d]);
    NoneReaches(ds, Edges(ds', d), d);
    if Reaches(ds', Edges(ds', d), d) {
      SubReaches(ds', ds, Edges(ds', d), d);
    }
  }

  lemma UntouchedIfAcyclic(ds: Decls, ds': Decls, d: nat)
    requires |ds| == |ds'| && d < |ds| && |ds'[d]| == |ds[d]| && Acyclic(ds)
    requires forall j :: 0 <= j < |ds[d]| ==> ds'[d][j] == Left(ds, d, ds[d][j])
    requires forall k :: 0 <= k < |ds| && k != d ==> ds'[k] == ds[k]
    ensures ds' == ds
  {
    forall j | 0 <= j < |ds[d]| ensures ds'[d][j] == ds[d][j] {
      if Reaches(ds, Holds(ds[d][j]), d) {
        ReachesMore(ds, Holds(ds[d][j]), Edges(ds, d), d);
      }
    }
    assert ds'[d] == ds[d];
    assert forall k :: 0 <= k < |ds| ==> ds'[k] == ds[k];
  }
}
