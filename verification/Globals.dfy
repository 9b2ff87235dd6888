/** Global initialisation in the interpreter (src/interp/interp.cpp): passes over the globals
    not yet bound, until one binds nothing more. */
module Globals {
  import opened Wrappers

  type Ops = (nat, seq<int>) -> int
  type Env = map<nat, int>

  /** Initialisers.  `Address(g)` is the place of `g`; `Choose` is `if`, `and` and `or`, which
      evaluate one branch. */
  datatype Expr =
    | Const(v: int)
    | Read(g: nat)
    | Address(g: nat)
    | Apply(op: nat, args: Exprs)
    | Choose(cond: Expr, thn: Expr, els: Expr)
  datatype Exprs = NoExprs | More(head: Expr, tail: Exprs)

  /** A program's globals, and where each one lives. */
  datatype Program = Program(inits: map<nat, Expr>, ops: Ops, place: nat -> int)

  // ---------------------------------------------------------------- evaluation

  /** Evaluation when the globals of `env` are bound: `None` is the trap "unknown name at runtime". */
  function Eval(p: Program, e: Expr, env: Env): Option<int> {
    match e
    case Const(v) => Some(v)
    case Read(g) => if g in env then Some(env[g]) else None
    case Address(g) => Some(p.place(g))
    case Apply(op, args) =>
      var vs := EvalAll(p, args, env);
      if vs == None then None else Some(p.ops(op, vs.value))
    case Choose(c, a, b) =>
      var v := Eval(p, c, env);
      if v == None then None else if v.value != 0 then Eval(p, a, env) else Eval(p, b, env)
  }

  function EvalAll(p: Program, es: Exprs, env: Env): Option<seq<int>> {
    match es
    case NoExprs => Some([])
    case More(e, rest) =>
      var v := Eval(p, e, env);
      var vs := EvalAll(p, rest, env);
      if v == None || vs == None then None else Some([v.value] + vs.value)
  }

  predicate Within(small: Env, large: Env) {
    forall g :: g in small ==> g in large && large[g] == small[g]
  }

  lemma {:induction false} EvalMonotone(p: Program, e: Expr, small: Env, large: Env)
    requires Within(small, large) && Eval(p, e, small) != None
    ensures Eval(p, e, large) == Eval(p, e, small)
    decreases e
  {
    match e
    case Const(_) =>
    case Read(_) =>
    case Address(_) =>
    case Apply(op, args) => EvalAllMonotone(p, args, small, large);
    case Choose(c, a, b) =>
      EvalMonotone(p, c, small, large);
      if Eval(p, c, small).value != 0 { EvalMonotone(p, a, small, large); } else { EvalMonotone(p, b, small, large); }
  }

  lemma {:induction false} EvalAllMonotone(p: Program, es: Exprs, small: Env, large: Env)
    requires Within(small, large) && EvalAll(p, es, small) != None
    ensures EvalAll(p, es, large) == EvalAll(p, es, small)
    decreases es
  {
    match es
    case NoExprs =>
    case More(e, rest) =>
      EvalMonotone(p, e, small, large);
      EvalAllMonotone(p, rest, small, large);
  }

  // ---------------------------------------------------------------- what is promised

  /** Every global has the value of its initialiser. */
  predicate Solves(p: Program, env: Env) {
    env.Keys == p.inits.Keys && forall g :: g in env ==> Eval(p, p.inits[g], env) == Some(env[g])
  }

  /** `trail` lists globals that can be bound one after the other, giving `env`. */
  ghost predicate Bindable(p: Program, trail: seq<nat>, env: Env)
    decreases |trail|
  {
    if trail == [] then env == map[]
    else
      var g := trail[|trail| - 1];
      && g in p.inits && g in env && g !in trail[..|trail| - 1]
      && Bindable(p, trail[..|trail| - 1], env - {g})
      && Eval(p, p.inits[g], env - {g}) == Some(env[g])
  }

  lemma {:induction false} BindableKeys(p: Program, trail: seq<nat>, env: Env)
    requires Bindable(p, trail, env)
    ensures forall g :: g in env <==> g in trail
    ensures env.Keys <= p.inits.Keys
    decreases |trail|
  {
    if trail != [] {
      var n := |trail| - 1;
      BindableKeys(p, trail[..n], env - {trail[n]});
      assert trail == trail[..n] + [trail[n]];
    }
  }

  /** Binding in any order keeps each global equal to its initialiser. */
  lemma {:induction false} BoundHoldsInit(p: Program, trail: seq<nat>, env: Env, larger: Env, g: nat)
    requires Bindable(p, trail, env) && Within(env, larger) && g in env
    ensures g in p.inits && Eval(p, p.inits[g], larger) == Some(env[g])
    decreases |trail|
  {
    if trail != [] {
      var last := trail[|trail| - 1];
      if g == last {
        EvalMonotone(p, p.inits[g], env - {g}, larger);
      } else {
        BoundHoldsInit(p, trail[..|trail| - 1], env - {last}, larger, g);
      }
    }
  }

  /** What can be bound at all has in any solution the value binding gives it: solutions are
      unique, and no order of modules or declarations matters. */
  lemma {:induction false} BoundIsForced(p: Program, trail: seq<nat>, env: Env, other: Env)
    requires Bindable(p, trail, env) && Solves(p, other)
    ensures Within(env, other)
    decreases |trail|
  {
    if trail != [] {
      var g := trail[|trail| - 1];
      BoundIsForced(p, trail[..|trail| - 1], env - {g}, other);
      EvalMonotone(p, p.inits[g], env - {g}, other);
    }
  }

  /** No global outside `env` can be evaluated. */
  predicate Stuck(p: Program, env: Env) {
    forall g :: g in p.inits && g !in env ==> Eval(p, p.inits[g], env) == None
  }

  /** Whatever some order binds, a stuck run has bound to the same value. */
  lemma {:induction false} StuckBindsMost(p: Program, trail: seq<nat>, env: Env, stuckTrail: seq<nat>, stuck: Env)
    requires Bindable(p, trail, env) && Bindable(p, stuckTrail, stuck) && Stuck(p, stuck)
    ensures Within(env, stuck)
    decreases |trail|
  {
    if trail != [] {
      var g := trail[|trail| - 1];
      StuckBindsMost(p, trail[..|trail| - 1], env - {g}, stuckTrail, stuck);
      EvalMonotone(p, p.inits[g], env - {g}, stuck);
      BoundHoldsInit(p, stuckTrail, stuck, stuck, g);
    }
  }

  /** Some order binds every global. */
  ghost predicate Loadable(p: Program) {
    exists trail: seq<nat>, env: Env :: Loads(p, trail, env)
  }

  ghost predicate Loads(p: Program, trail: seq<nat>, env: Env) {
    Bindable(p, trail, env) && env.Keys == p.inits.Keys
  }

  // ---------------------------------------------------------------- dependencies

  /** `e` may read the value of `g`; taking its address is not reading it. */
  predicate Reads(e: Expr, g: nat) {
    match e
    case Const(_) => false
    case Read(h) => g == h
    case Address(_) => false
    case Apply(_, args) => ReadsAny(args, g)
    case Choose(c, a, b) => Reads(c, g) || Reads(a, g) || Reads(b, g)
  }

  predicate ReadsAny(es: Exprs, g: nat) {
    es.More? && (Reads(es.head, g) || ReadsAny(es.tail, g))
  }

  predicate Strict(e: Expr) {
    match e
    case Apply(_, args) => StrictAll(args)
    case Choose(_, _, _) => false
    case _ => true
  }

  predicate StrictAll(es: Exprs) {
    es.More? ==> Strict(es.head) && StrictAll(es.tail)
  }

  predicate AllStrict(p: Program) {
    forall g :: g in p.inits ==> Strict(p.inits[g])
  }

  /** Names are resolved: an initialiser reads globals of the program only. */
  ghost predicate Resolved(p: Program) {
    forall g, h :: g in p.inits && Reads(p.inits[g], h) ==> h in p.inits
  }

  predicate Depends(p: Program, g: nat, h: nat) {
    g in p.inits && Reads(p.inits[g], h)
  }

  /** Each global of `walk` reads the next. */
  predicate Walk(p: Program, walk: seq<nat>) {
    forall i :: 0 <= i < |walk| - 1 ==> Depends(p, walk[i], walk[i + 1])
  }

  ghost predicate Cyclic(p: Program) {
    exists walk: seq<nat> :: Cycle(p, walk)
  }

  predicate Cycle(p: Program, walk: seq<nat>) {
    |walk| >= 2 && walk[0] == walk[|walk| - 1] && Walk(p, walk)
  }

  lemma {:induction false} FailureNamesUnbound(p: Program, e: Expr, env: Env) returns (g: nat)
    requires Eval(p, e, env) == None
    ensures Reads(e, g) && g !in env
    decreases e
  {
    match e
    case Read(h) => g := h;
    case Apply(_, args) => g := AllFailureNamesUnbound(p, args, env);
    case Choose(c, a, b) =>
      if Eval(p, c, env) == None { g := FailureNamesUnbound(p, c, env); }
      else if Eval(p, c, env).value != 0 { g := FailureNamesUnbound(p, a, env); }
      else { g := FailureNamesUnbound(p, b, env); }
  }

  lemma {:induction false} AllFailureNamesUnbound(p: Program, es: Exprs, env: Env) returns (g: nat)
    requires EvalAll(p, es, env) == None
    ensures ReadsAny(es, g) && g !in env
    decreases es
  {
    if Eval(p, es.head, env) == None { g := FailureNamesUnbound(p, es.head, env); }
    else { g := AllFailureNamesUnbound(p, es.tail, env); }
  }

  lemma {:induction false} StrictNeedsAll(p: Program, e: Expr, env: Env, g: nat)
    requires Strict(e) && Reads(e, g) && Eval(p, e, env) != None
    ensures g in env
    decreases e
  {
    if e.Apply? { StrictNeedsEach(p, e.args, env, g); }
  }

  lemma {:induction false} StrictNeedsEach(p: Program, es: Exprs, env: Env, g: nat)
    requires StrictAll(es) && ReadsAny(es, g) && EvalAll(p, es, env) != None
    ensures g in env
    decreases es
  {
    if Reads(es.head, g) { StrictNeedsAll(p, es.head, env, g); } else { StrictNeedsEach(p, es.tail, env, g); }
  }

  // ---------------------------------------------------------------- cycles

  /** From a stuck global, ever longer walks among stuck globals. */
  lemma {:induction false} StuckWalk(p: Program, env: Env, start: nat, n: nat) returns (walk: seq<nat>)
    requires Resolved(p) && Stuck(p, env) && start in p.inits && start !in env
    ensures |walk| == n + 1 && Walk(p, walk) && forall i :: 0 <= i < |walk| ==> walk[i] in p.inits && walk[i] !in env
    decreases n
  {
    hide Resolved, Stuck, Depends;
    if n == 0 {
      walk := [start];
    } else {
      var w := StuckWalk(p, env, start, n - 1);
      var g := NextStuck(p, env, w[|w| - 1]);
      walk := w + [g];
    }
  }

  lemma NextStuck(p: Program, env: Env, last: nat) returns (g: nat)
    requires Resolved(p) && Stuck(p, env) && last in p.inits && last !in env
    ensures Depends(p, last, g) && g in p.inits && g !in env
  {
    hide Reads, Eval;
    g := FailureNamesUnbound(p, p.inits[last], env);
  }

  lemma {:induction false} Pigeonhole(s: seq<nat>, from: set<nat>) returns (i: nat, j: nat)
    requires |s| > |from| && forall k :: 0 <= k < |s| ==> s[k] in from
    ensures i < j < |s| && s[i] == s[j]
    decreases |s|
  {
    var n := |s| - 1;
    if k :| 0 <= k < n && s[k] == s[n] {
      i, j := k, n;
    } else {
      i, j := Pigeonhole(s[..n], from - {s[n]});
    }
  }

  /** A run that gets stuck before binding everything has met a cycle. */
  lemma StuckMeansCyclic(p: Program, env: Env)
    requires Resolved(p) && Stuck(p, env) && exists g :: g in p.inits && g !in env
    ensures Cyclic(p)
  {
    hide Resolved, Stuck, Walk;
    var g :| g in p.inits && g !in env;
    var walk := StuckWalk(p, env, g, |p.inits.Keys|);
    var i, j := Pigeonhole(walk, p.inits.Keys);
    Stretch(p, walk, i, j);
    assert Cycle(p, walk[i..j + 1]);
  }

  lemma Stretch(p: Program, walk: seq<nat>, i: nat, j: nat)
    requires Walk(p, walk) && i <= j < |walk|
    ensures Walk(p, walk[i..j + 1])
  {
    var part := walk[i..j + 1];
    forall k | 0 <= k < |part| - 1 ensures Depends(p, part[k], part[k + 1]) {
      assert Depends(p, walk[i + k], walk[i + k + 1]);
    }
  }

  function Position(trail: seq<nat>, g: nat): (i: nat)
    requires g in trail
    ensures i < |trail| && trail[i] == g
  {
    if trail[0] == g then 0 else 1 + Position(trail[1..], g)
  }

  /** With strict initialisers, what a global reads was bound before it. */
  lemma {:induction false} ReadsAreEarlier(p: Program, trail: seq<nat>, env: Env, i: nat, h: nat)
    requires AllStrict(p) && Bindable(p, trail, env) && i < |trail| && Depends(p, trail[i], h)
    ensures h in trail[..i]
    decreases |trail|
  {
    var n := |trail| - 1;
    var g := trail[n];
    if i == n {
      StrictNeedsAll(p, p.inits[g], env - {g}, h);
      BindableKeys(p, trail[..n], env - {g});
    } else {
      ReadsAreEarlier(p, trail[..n], env - {g}, i, h);
      assert trail[..n][..i] == trail[..i];
    }
  }

  lemma {:induction false} WalksGoBack(p: Program, trail: seq<nat>, env: Env, walk: seq<nat>, i: nat) returns (j: nat)
    requires AllStrict(p) && Bindable(p, trail, env) && Walk(p, walk) && |walk| > 0 && i < |trail| && walk[0] == trail[i]
    ensures j <= i && walk[|walk| - 1] == trail[j] && (|walk| > 1 ==> j < i)
    decreases |walk|
  {
    if |walk| == 1 {
      j := i;
    } else {
      assert Depends(p, walk[0], walk[1]);
      ReadsAreEarlier(p, trail, env, i, walk[1]);
      var k :| 0 <= k < i && trail[..i][k] == walk[1];
      Stretch(p, walk, 1, |walk| - 1);
      assert walk[1..|walk| - 1 + 1] == walk[1..];
      j := WalksGoBack(p, trail, env, walk[1..], k);
    }
  }

  lemma {:induction false} TrailDistinct(p: Program, trail: seq<nat>, env: Env, i: nat, j: nat)
    requires Bindable(p, trail, env) && i < j < |trail|
    ensures trail[i] != trail[j]
    decreases |trail|
  {
    var n := |trail| - 1;
    if j == n {
      assert trail[..n][i] == trail[i];
    } else {
      TrailDistinct(p, trail[..n], env - {trail[n]}, i, j);
    }
  }

  lemma CompleteMeansAcyclic(p: Program, trail: seq<nat>, env: Env)
    requires AllStrict(p) && Bindable(p, trail, env) && env.Keys == p.inits.Keys
    ensures !Cyclic(p)
  {
    BindableKeys(p, trail, env);
    forall walk: seq<nat> ensures !Cycle(p, walk) {
      if Cycle(p, walk) {
        assert Depends(p, walk[0], walk[1]);
        var i := Position(trail, walk[0]);
        var j := WalksGoBack(p, trail, env, walk, i);
        TrailDistinct(p, trail, env, j, i);
      }
    }
  }

  // ---------------------------------------------------------------- the interpreter

  class Interp {
    const p: Program
    var slots: map<nat, int>        // every global's storage
    var unbound: set<nat>           // globals whose initialiser has not run
    var trapped: bool

    constructor (p: Program)
      ensures this.p == p && slots == map[] && unbound == {} && !trapped
    {
      this.p, slots, unbound, trapped := p, map[], {}, false;
    }

    ghost function Bound(): Env
      reads this
    {
      map g | g in slots && g !in unbound :: slots[g]
    }

    /** `eval` on an initialiser: reading a global that is not bound traps. */
    method Evaluate(e: Expr) returns (v: int)
      requires !trapped && unbound <= slots.Keys
      modifies this`trapped
      ensures trapped <==> Eval(p, e, Bound()) == None
      ensures !trapped ==> Eval(p, e, Bound()) == Some(v)
      decreases e
    {
      v := 0;
      match e
      case Const(c) => v := c;
      case Address(g) => v := p.place(g);
      case Read(g) =>
        if g in unbound || g !in slots {
          trapped := true;
        } else {
          v := slots[g];
        }
      case Apply(op, args) =>
        var vs := EvaluateAll(args);
        if !trapped {
          v := p.ops(op, vs);
        }
      case Choose(c, a, b) =>
        v := Evaluate(c);
        if !trapped {
          if v != 0 { v := Evaluate(a); } else { v := Evaluate(b); }
        }
    }

    method EvaluateAll(es: Exprs) returns (vs: seq<int>)
      requires !trapped && unbound <= slots.Keys
      modifies this`trapped
      ensures trapped <==> EvalAll(p, es, Bound()) == None
      ensures !trapped ==> EvalAll(p, es, Bound()) == Some(vs)
      decreases es
    {
      vs := [];
      if es.More? {
        var v := Evaluate(es.head);
        if !trapped {
          vs := EvaluateAll(es.tail);
          vs := [v] + vs;
        }
      }
    }

    /** What the globals listed in `pending`, bound or waiting, have come to. */
    ghost predicate Progress(trail: seq<nat>)
      reads this
    {
      && slots.Keys == p.inits.Keys && unbound <= slots.Keys
      && Bindable(p, trail, Bound())
    }

    method BindGlobal(g: nat, v: int, ghost trail: seq<nat>)
      requires Progress(trail) && g in unbound && Eval(p, p.inits[g], Bound()) == Some(v)
      modifies this`slots, this`unbound
      ensures Progress(trail + [g]) && unbound == old(unbound) - {g}
    {
      BindableKeys(p, trail, Bound());
      slots := slots[g := v];
      unbound := unbound - {g};
      assert (trail + [g])[..|trail|] == trail;
      assert Bound() - {g} == old(Bound());
    }

    /** One pass over `pending`: what evaluates is bound at once, the rest waits. */
    method Pass(pending: seq<nat>, ghost trail: seq<nat>) returns (later: seq<nat>, ghost longer: seq<nat>)
      requires !trapped && Progress(trail)
      requires Distinct(pending) && Listed(pending, unbound)
      modifies this
      ensures !trapped && Progress(longer) && Distinct(later) && Listed(later, unbound)
      ensures |later| <= |pending| && unbound <= old(unbound)
      ensures |later| == |pending| ==> Bound() == old(Bound()) && unbound == old(unbound) && Stuck(p, Bound())
    {
      hide Eval, Bindable;
      later, longer := [], trail;
      var i := 0;
      while i < |pending|
        invariant 0 <= i <= |pending| && !trapped && Progress(longer)
        invariant |later| <= i && unbound <= old(unbound)
        invariant Distinct(later + pending[i..]) && Listed(later + pending[i..], unbound)
        invariant |later| == i ==> slots == old(slots) && unbound == old(unbound) && later == pending[..i]
        invariant |later| == i ==> forall g :: g in later ==> Eval(p, p.inits[g], Bound()) == None
      {
        var d := pending[i];
        assert pending[i..] == [d] + pending[i + 1..];
        assert d in later + pending[i..];
        var v := Evaluate(p.inits[d]);
        if trapped {
          trapped := false;
          later := later + [d];
          assert later + pending[i + 1..] == later[..|later| - 1] + pending[i..];
        } else {
          Removed(later, d, pending[i + 1..], unbound);
          BindGlobal(d, v, longer);
          longer := longer + [d];
        }
        i := i + 1;
      }
      assert later + pending[i..] == later;
      BindableKeys(p, longer, Bound());
    }

    /** `load_globals`, for the globals in the order the modules list them. */
    method LoadGlobals(order: seq<nat>)
      requires !trapped && slots == map[] && unbound == {}
      requires Distinct(order) && forall g :: g in order <==> g in p.inits
      modifies this
      ensures !trapped ==> Solves(p, slots) && (forall other :: Solves(p, other) ==> other == slots)
      ensures trapped <==> !Loadable(p)
      ensures Resolved(p) && !Cyclic(p) ==> !trapped
      ensures Resolved(p) && AllStrict(p) ==> (trapped <==> Cyclic(p))
    {
      hide Bindable, Resolved, Cyclic, Loadable, AllStrict, Solves;
      slots := map g | g in p.inits.Keys :: 0;
      unbound := p.inits.Keys;
      assert Bound() == map[];
      assert Bindable(p, [], Bound()) by { NothingBound(p); }
      var pending := order;
      ghost var trail := [];
      while |pending| > 0
        invariant !trapped && Progress(trail) && Distinct(pending) && Listed(pending, unbound)
        decreases |pending|
      {
        var later;
        later, trail := Pass(pending, trail);
        if |later| == |pending| {
          assert pending[0] in pending;
          GivesUp(p, trail, Bound(), later[0]);
          trapped := true;
          return;
        }
        pending := later;
      }
      NothingListed(pending, unbound);
      assert Bound() == slots;
      Succeeds(p, trail, slots);
    }
  }

  predicate Distinct(s: seq<nat>) {
    forall i, j :: 0 <= i < j < |s| ==> s[i] != s[j]
  }

  ghost predicate Listed(s: seq<nat>, names: set<nat>) {
    forall g :: g in s <==> g in names
  }

  lemma NothingBound(p: Program)
    ensures Bindable(p, [], map[])
  {
  }

  lemma NothingListed(s: seq<nat>, names: set<nat>)
    requires s == [] && Listed(s, names)
    ensures names == {}
  {
    assert forall g :: g in names ==> g in s;
  }

  lemma Removed(before: seq<nat>, d: nat, after: seq<nat>, names: set<nat>)
    requires Distinct(before + ([d] + after)) && Listed(before + ([d] + after), names)
    ensures Distinct(before + after) && Listed(before + after, names - {d})
  {
    var s, r := before + ([d] + after), before + after;
    assert forall i :: 0 <= i < |r| ==> r[i] == s[if i < |before| then i else i + 1];
    forall g ensures g in r <==> g in names - {d} {
      if g in names - {d} {
        assert g in s;
        var k :| 0 <= k < |s| && s[k] == g;
        assert r[if k < |before| then k else k - 1] == g;
      }
      if g in r {
        var k :| 0 <= k < |r| && r[k] == g;
        assert g in s;
        assert s[|before|] == d;
      }
    }
  }

  /** Giving up with something unbound: no order would have bound it, and there is a cycle. */
  lemma GivesUp(p: Program, trail: seq<nat>, env: Env, g: nat)
    requires Bindable(p, trail, env) && Stuck(p, env) && g in p.inits && g !in env
    ensures !Loadable(p) && (Resolved(p) ==> Cyclic(p))
  {
    hide Resolved, Cyclic, Stuck, Bindable;
    forall other: seq<nat>, full: Env ensures !Loads(p, other, full) {
      if Loads(p, other, full) { StuckBindsMost(p, other, full, trail, env); }
    }
    if Resolved(p) { StuckMeansCyclic(p, env); }
  }

  lemma Succeeds(p: Program, trail: seq<nat>, env: Env)
    requires Bindable(p, trail, env) && env.Keys == p.inits.Keys
    ensures Solves(p, env) && (forall other :: Solves(p, other) ==> other == env)
    ensures Loadable(p) && (AllStrict(p) ==> !Cyclic(p))
  {
    assert Loads(p, trail, env);
    forall g | g in env ensures Eval(p, p.inits[g], env) == Some(env[g]) {
      BoundHoldsInit(p, trail, env, env, g);
    }
    forall other | Solves(p, other) ensures other == env {
      BoundIsForced(p, trail, env, other);
    }
    if AllStrict(p) { CompleteMeansAcyclic(p, trail, env); }
  }
}
