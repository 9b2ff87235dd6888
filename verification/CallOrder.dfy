/** The order in which a call's arguments are evaluated, by the interpreter
    (src/interp/interp.cpp) and by the emitted C (src/emit/call.cpp). */
module CallOrder {
  import opened Wrappers
  import opened CallArgs

  // ---------------------------------------------------------------- the stable sort

  function Key(a: Arg): nat {
    if a.order.Some? then a.order.value else 0xFFFF_FFFF
  }

  /** Position `i` after every position whose key is no greater. */
  function InsertByKey(body: seq<Arg>, i: nat, s: seq<nat>): (r: seq<nat>)
    requires i < |body| && forall k :: 0 <= k < |s| ==> s[k] < |body|
    ensures |r| == |s| + 1
    ensures forall k :: 0 <= k < |r| ==> r[k] < |body|
    ensures forall x :: x in r <==> x == i || x in s
    decreases |s|
  {
    if s == [] || Key(body[s[|s| - 1]]) <= Key(body[i]) then s + [i]
    else
      var n := |s| - 1;
      assert s == s[..n] + [s[n]];
      InsertByKey(body, i, s[..n]) + [s[n]]
  }

  /** The first `n` positions, by `evaluation_order`, equal ones as they stand. */
  function Sorted(body: seq<Arg>, n: nat): (r: seq<nat>)
    requires n <= |body|
    ensures |r| == n && (forall k :: 0 <= k < |r| ==> r[k] < |body|)
    ensures forall x :: x in r <==> 0 <= x < n
  {
    if n == 0 then [] else InsertByKey(body, n - 1, Sorted(body, n - 1))
  }

  function EvaluationOrder(body: seq<Arg>): seq<nat> {
    Sorted(body, |body|)
  }

  /** The keys of the positions in `s` grow. */
  predicate Growing(body: seq<Arg>, s: seq<nat>) {
    && (forall k :: 0 <= k < |s| ==> s[k] < |body|)
    && (forall j, k :: 0 <= j < k < |s| ==> Key(body[s[j]]) < Key(body[s[k]]))
  }

  predicate DistinctKeys(body: seq<Arg>) {
    forall i, j :: 0 <= i < j < |body| ==> Key(body[i]) != Key(body[j])
  }

  lemma {:induction false} InsertGrowing(body: seq<Arg>, i: nat, s: seq<nat>)
    requires i < |body| && Growing(body, s) && forall k :: 0 <= k < |s| ==> Key(body[s[k]]) != Key(body[i])
    ensures Growing(body, InsertByKey(body, i, s))
    decreases |s|
  {
    if s != [] && Key(body[s[|s| - 1]]) > Key(body[i]) {
      var n := |s| - 1;
      InsertGrowing(body, i, s[..n]);
      var front := InsertByKey(body, i, s[..n]);
      forall k | 0 <= k < |front| ensures Key(body[front[k]]) < Key(body[s[n]]) {
        assert front[k] in front;
        if front[k] != i {
          var j :| 0 <= j < n && s[..n][j] == front[k];
        }
      }
    }
  }

  lemma {:induction false} SortedGrowing(body: seq<Arg>, n: nat)
    requires n <= |body| && DistinctKeys(body)
    ensures Growing(body, Sorted(body, n))
    decreases n
  {
    if n > 0 {
      var s := Sorted(body, n - 1);
      SortedGrowing(body, n - 1);
      forall k | 0 <= k < |s| ensures Key(body[s[k]]) != Key(body[n - 1]) {
        assert s[k] in s;
      }
      InsertGrowing(body, n - 1, s);
    }
  }

  predicate SameMembers(a: seq<nat>, b: seq<nat>) {
    (forall k :: 0 <= k < |a| ==> a[k] in b) && (forall k :: 0 <= k < |b| ==> b[k] in a)
  }

  /** Positions with growing keys are determined by which positions they are. */
  lemma {:induction false} GrowingUnique(body: seq<Arg>, a: seq<nat>, b: seq<nat>)
    requires Growing(body, a) && Growing(body, b) && SameMembers(a, b)
    ensures a == b
    decreases |a|
  {
    hide Growing, SameMembers;
    if a != [] { NoneLeftOver(a, b); }
    if b != [] { NoneLeftOver(b, a); }
    if a != [] && b != [] {
      var m, n := |a| - 1, |b| - 1;
      SameLast(body, a, b);
      SameFront(body, a, b);
      GrowingFront(body, a);
      GrowingFront(body, b);
      GrowingUnique(body, a[..m], b[..n]);
      assert a == a[..m] + [a[m]] && b == b[..n] + [b[n]];
    }
  }

  lemma GrowingFront(body: seq<Arg>, s: seq<nat>)
    requires Growing(body, s) && s != []
    ensures Growing(body, s[..|s| - 1])
  {
  }

  lemma NoneLeftOver(a: seq<nat>, b: seq<nat>)
    requires a != [] && (SameMembers(a, b) || SameMembers(b, a))
    ensures b != []
  {
    assert a[0] in b;
  }

  lemma SameLast(body: seq<Arg>, a: seq<nat>, b: seq<nat>)
    requires Growing(body, a) && Growing(body, b) && SameMembers(a, b) && a != [] && b != []
    ensures a[|a| - 1] == b[|b| - 1]
  {
    var m, n := |a| - 1, |b| - 1;
    assert a[m] in b && b[n] in a;
    var i :| 0 <= i < |b| && b[i] == a[m];
    var j :| 0 <= j < |a| && a[j] == b[n];
    LastIsGreatest(body, b, i);
    LastIsGreatest(body, a, j);
  }

  lemma LastIsGreatest(body: seq<Arg>, s: seq<nat>, i: nat)
    requires Growing(body, s) && i < |s|
    ensures Key(body[s[i]]) < Key(body[s[|s| - 1]]) || i == |s| - 1
  {
  }

  lemma SameFront(body: seq<Arg>, a: seq<nat>, b: seq<nat>)
    requires Growing(body, a) && Growing(body, b) && SameMembers(a, b) && a != [] && b != []
    requires a[|a| - 1] == b[|b| - 1]
    ensures SameMembers(a[..|a| - 1], b[..|b| - 1])
  {
    hide Growing;
    var m, n := |a| - 1, |b| - 1;
    forall k | 0 <= k < m ensures a[..m][k] in b[..n] {
      assert a[..m][k] in a[..m] && a[k] in b;
      Without(body, a, a[k]);
      Without(body, b, a[k]);
    }
    forall k | 0 <= k < n ensures b[..n][k] in a[..m] {
      assert b[..n][k] in b[..n] && b[k] in a;
      Without(body, a, b[k]);
      Without(body, b, b[k]);
    }
  }

  lemma Without(body: seq<Arg>, s: seq<nat>, x: nat)
    requires Growing(body, s) && s != []
    ensures x in s[..|s| - 1] <==> x in s && x != s[|s| - 1]
  {
    var n := |s| - 1;
    assert s == s[..n] + [s[n]];
    if x in s[..n] {
      var k :| 0 <= k < n && s[k] == x;
      assert Key(body[s[k]]) < Key(body[s[n]]);
    }
  }

  // ---------------------------------------------------------------- source order, then defaults

  /** Where the first `k` arguments of the source went. */
  function Written(ps: seq<Param>, args: seq<Arg>, k: nat): (r: seq<int>)
    requires k <= |args|
    ensures |r| == k && forall j :: 0 <= j < k ==> r[j] == Target(ps, args, j)
  {
    if k == 0 then [] else Written(ps, args, k - 1) + [Target(ps, args, k - 1)]
  }

  /** The parameters below `i` that take their default, in order. */
  function Defaulted(ps: seq<Param>, args: seq<Arg>, i: nat): (r: seq<int>)
    ensures |r| == Gaps(ps, args, i)
  {
    if i == 0 then []
    else if Taken(ps, args, |args|, i - 1) then Defaulted(ps, args, i - 1)
    else Defaulted(ps, args, i - 1) + [i - 1]
  }

  lemma {:induction false} DefaultedAre(ps: seq<Param>, args: seq<Arg>, i: nat)
    ensures forall k :: 0 <= k < Gaps(ps, args, i) ==> IsGap(ps, args, i, k, Defaulted(ps, args, i)[k])
    ensures forall x :: 0 <= x < i && !Taken(ps, args, |args|, x) ==> x in Defaulted(ps, args, i)
  {
    hide Taken;
    if i > 0 {
      var r, d := Defaulted(ps, args, i), Defaulted(ps, args, i - 1);
      DefaultedAre(ps, args, i - 1);
      forall k | 0 <= k < |r| ensures IsGap(ps, args, i, k, r[k]) {
        if k < |d| { assert r[k] == d[k] && IsGap(ps, args, i - 1, k, d[k]); }
      }
      forall x | 0 <= x < i && !Taken(ps, args, |args|, x) ensures x in r {
        if x < i - 1 { assert x in d; }
      }
    }
  }

  /** Parameter `x` takes its default, and is number `k` to do so. */
  predicate IsGap(ps: seq<Param>, args: seq<Arg>, i: nat, k: nat, x: int) {
    0 <= x < i && !Taken(ps, args, |args|, x) && Gaps(ps, args, x) == k
  }

  predicate Fresh(args: seq<Arg>) {
    forall k :: 0 <= k < |args| ==> args[k].order == None
  }

  lemma {:induction false} FreshOrders(args: seq<Arg>, k: nat)
    requires Fresh(args) && k <= |args|
    ensures NextOrder(args, k) == k && (k < |args| ==> OrderOf(args, k) == k)
    decreases k
  {
    if k > 0 { FreshOrders(args, k - 1); }
  }

  /** The keys of a call just bound: the source's order for its arguments, then the defaults. */
  lemma BoundKeys(ps: seq<Param>, args: seq<Arg>, body: seq<Arg>)
    requires Fresh(args) && Acceptable(ps, args) && Filled(ps, args, body)
    ensures forall k :: 0 <= k < |args| ==> 0 <= Target(ps, args, k) < |body| && Key(body[Target(ps, args, k)]) == k
    ensures forall i :: 0 <= i < |ps| && !Taken(ps, args, |args|, i) ==> Key(body[i]) == |args| + Gaps(ps, args, i)
  {
    FreshOrders(args, |args|);
    forall k | 0 <= k < |args| ensures 0 <= Target(ps, args, k) < |body| && Key(body[Target(ps, args, k)]) == k {
      assert HoldsArg(ps, args, body, k);
      FreshOrders(args, k);
    }
    forall i | 0 <= i < |ps| && !Taken(ps, args, |args|, i) ensures Key(body[i]) == |args| + Gaps(ps, args, i) {
      assert HoldsDefault(ps, args, body, i);
    }
  }

  lemma {:induction false} GapsBelow(ps: seq<Param>, args: seq<Arg>, i: nat, j: nat)
    requires i < j && !Taken(ps, args, |args|, i)
    ensures Gaps(ps, args, i) < Gaps(ps, args, j)
    decreases j
  {
    if i < j - 1 { GapsBelow(ps, args, i, j - 1); }
  }

  lemma BoundKeysDistinct(ps: seq<Param>, args: seq<Arg>, body: seq<Arg>)
    requires Fresh(args) && Acceptable(ps, args) && Filled(ps, args, body)
    ensures DistinctKeys(body)
  {
    hide Gaps, Acceptable, Filled, Target;
    assert |body| == |ps| by { FilledLength(ps, args, body); }
    BoundKeys(ps, args, body);
    forall i, j | 0 <= i < j < |body| ensures Key(body[i]) != Key(body[j]) {
      if !Taken(ps, args, |args|, i) && !Taken(ps, args, |args|, j) { GapsBelow(ps, args, i, j); }
    }
  }

  lemma FilledLength(ps: seq<Param>, args: seq<Arg>, body: seq<Arg>)
    requires Filled(ps, args, body)
    ensures |body| == |ps|
  {
  }

  lemma WrittenThenDefaulted(ps: seq<Param>, args: seq<Arg>, body: seq<Arg>)
    requires Fresh(args) && Acceptable(ps, args) && Filled(ps, args, body)
    ensures var s := Written(ps, args, |args|) + Defaulted(ps, args, |ps|);
            && (forall k :: 0 <= k < |s| ==> 0 <= s[k] < |body|)
            && Growing(body, s)
            && (forall x :: x in s <==> 0 <= x < |body|)
  {
    hide Gaps, Acceptable, Filled, Target, Taken;
    assert |body| == |ps| by { FilledLength(ps, args, body); }
    BoundKeys(ps, args, body);
    var w, d := Written(ps, args, |args|), Defaulted(ps, args, |ps|);
    var s := w + d;
    DefaultedAre(ps, args, |ps|);
    forall k | 0 <= k < |s| ensures 0 <= s[k] < |body| && Key(body[s[k]]) == k {
      if k < |w| { assert s[k] == w[k]; } else { assert s[k] == d[k - |w|] && IsGap(ps, args, |ps|, k - |w|, d[k - |w|]); }
    }
    forall x | 0 <= x < |body| ensures x in s {
      if Taken(ps, args, |args|, x) { TakenIsWritten(ps, args, x); assert x in w; } else { assert x in d; }
    }
  }

  lemma TakenIsWritten(ps: seq<Param>, args: seq<Arg>, x: int)
    requires Taken(ps, args, |args|, x)
    ensures x in Written(ps, args, |args|)
  {
    var k :| 0 <= k < |args| && Target(ps, args, k) == x;
    assert Written(ps, args, |args|)[k] == x;
  }

  /** Arguments are evaluated as written, then defaults in the order of the parameters. */
  lemma SourceOrderThenDefaults(ps: seq<Param>, args: seq<Arg>, body: seq<Arg>)
    requires Fresh(args) && Acceptable(ps, args) && Filled(ps, args, body)
    ensures EvaluationOrder(body) == Written(ps, args, |args|) + Defaulted(ps, args, |ps|)
  {
    WrittenThenDefaulted(ps, args, body);
    BoundKeysDistinct(ps, args, body);
    SortedGrowing(body, |body|);
    GrowingUnique(body, EvaluationOrder(body), Written(ps, args, |args|) + Defaulted(ps, args, |ps|));
  }
}
