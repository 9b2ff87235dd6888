/** What evaluating a bound call's arguments does, in the interpreter (`call_func`,
    src/interp/interp.cpp) and in the emitted C (`emit_args`, src/emit/call.cpp). */
module CallEvaluation {
  import opened Wrappers
  import opened CallArgs
  import opened CallOrder

  /** The value of an expression in a state, the state after it, and whether the emitter takes
      it to have an effect (`may_have_effect`). */
  datatype World = World(value: (nat, seq<nat>) -> nat, after: (nat, seq<nat>) -> seq<nat>, effect: nat -> bool)

  /** An expression without effects changes nothing. */
  ghost predicate Honest(w: World) {
    forall e: nat, st: seq<nat> :: !w.effect(e) ==> w.after(e, st) == st
  }

  /** The values of the argument positions evaluated so far, and the state. */
  datatype Got = Got(vals: map<nat, nat>, st: seq<nat>)

  predicate InRange(order: seq<nat>, n: nat) {
    forall k :: 0 <= k < |order| ==> order[k] < n
  }

  /** Evaluating the positions of `body` in the given order. */
  function Evaluate(w: World, body: seq<Arg>, order: seq<nat>, st: seq<nat>): Got
    requires InRange(order, |body|)
    decreases |order|
  {
    if order == [] then Got(map[], st)
    else
      var n := |order| - 1;
      var g := Evaluate(w, body, order[..n], st);
      var e := body[order[n]].expr;
      Got(g.vals[order[n] := w.value(e, g.st)], w.after(e, g.st))
  }

  lemma {:induction false} EvaluatedAre(w: World, body: seq<Arg>, order: seq<nat>, st: seq<nat>)
    requires InRange(order, |body|)
    ensures forall x :: x in Evaluate(w, body, order, st).vals <==> x in order
    decreases |order|
  {
    if order != [] {
      var n := |order| - 1;
      EvaluatedAre(w, body, order[..n], st);
      assert order == order[..n] + [order[n]];
    }
  }

  // ---------------------------------------------------------------- the interpreter

  function SlotOf(slots: seq<(string, nat)>, name: string): Option<nat>
    decreases |slots|
  {
    if slots == [] then None
    else if slots[|slots| - 1].0 == name then Some(slots[|slots| - 1].1)
    else SlotOf(slots[..|slots| - 1], name)
  }

  /** The frame holds, for each position in `done`, its parameter's name and its value. */
  ghost predicate FrameHolds(ps: seq<Param>, done: seq<nat>, slots: seq<(string, nat)>, vals: map<nat, nat>) {
    forall i :: 0 <= i < |ps| && i in done ==> i in vals && SlotOf(slots, ps[i].name) == Some(vals[i])
  }

  /** The part of `call_func` that evaluates arguments: sorted by `evaluation_order`, each value
      is pushed under its parameter's name. */
  method CallFunc(w: World, ps: seq<Param>, body: seq<Arg>, st: seq<nat>) returns (slots: seq<(string, nat)>, after: seq<nat>)
    requires Named(ps) && |body| == |ps|
    ensures var g := Evaluate(w, body, EvaluationOrder(body), st);
            && after == g.st
            && forall i :: 0 <= i < |ps| ==> i in g.vals && SlotOf(slots, ps[i].name) == Some(g.vals[i])
  {
    var order := EvaluationOrder(body);
    slots, after := [], st;
    var k := 0;
    while k < |order|
      invariant 0 <= k <= |order| && after == Evaluate(w, body, order[..k], st).st
      invariant FrameHolds(ps, order[..k], slots, Evaluate(w, body, order[..k], st).vals)
    {
      var i := order[k];
      var v := w.value(body[i].expr, after);
      FramePush(ps, order[..k], slots, Evaluate(w, body, order[..k], st).vals, i, v);
      after := w.after(body[i].expr, after);
      slots := slots + [(ps[i].name, v)];
      assert order[..k + 1] == order[..k] + [i] && order[..k + 1][..k] == order[..k];
      k := k + 1;
    }
    assert order[..k] == order;
  }

  lemma FramePush(ps: seq<Param>, done: seq<nat>, slots: seq<(string, nat)>, vals: map<nat, nat>, i: nat, v: nat)
    requires Named(ps) && i < |ps| && FrameHolds(ps, done, slots, vals)
    ensures FrameHolds(ps, done + [i], slots + [(ps[i].name, v)], vals[i := v])
  {
    var taller := slots + [(ps[i].name, v)];
    assert taller[..|slots|] == slots;
    forall j | 0 <= j < |ps| && j in done + [i] ensures j in vals[i := v] && SlotOf(taller, ps[j].name) == Some(vals[i := v][j]) {
      if j != i { assert j in done && ps[j].name != ps[i].name; }
    }
  }

  // ---------------------------------------------------------------- the emitted C

  /** An argument in the emitted call: a temporary, or the expression itself. */
  datatype CArg = TempName(t: nat) | Inline(expr: nat)

  /** `temp = expr;` for each pair, in order. */
  function RunPrefix(w: World, prefix: seq<(nat, nat)>, st: seq<nat>): Got
    decreases |prefix|
  {
    if prefix == [] then Got(map[], st)
    else
      var n := |prefix| - 1;
      var g := RunPrefix(w, prefix[..n], st);
      Got(g.vals[prefix[n].0 := w.value(prefix[n].1, g.st)], w.after(prefix[n].1, g.st))
  }

  /** C evaluates the call's arguments in an order of its own. */
  function RunCall(w: World, args: seq<CArg>, order: seq<nat>, temps: map<nat, nat>, st: seq<nat>): Got
    requires InRange(order, |args|)
    decreases |order|
  {
    if order == [] then Got(map[], st)
    else
      var n := |order| - 1;
      var g := RunCall(w, args, order[..n], temps, st);
      match args[order[n]]
      case TempName(t) => Got(g.vals[order[n] := if t in temps then temps[t] else 0], g.st)
      case Inline(e) => Got(g.vals[order[n] := w.value(e, g.st)], w.after(e, g.st))
  }

  predicate Effects(w: World, body: seq<Arg>) {
    exists i :: 0 <= i < |body| && w.effect(body[i].expr)
  }

  /** The temporaries that hold the positions of `order`. */
  ghost predicate Hoists(body: seq<Arg>, order: seq<nat>, first: nat, prefix: seq<(nat, nat)>) {
    && InRange(order, |body|) && |prefix| == |order|
    && forall k :: 0 <= k < |order| ==> prefix[k] == (first + k, body[order[k]].expr)
  }

  /** `emit_args`, given somewhere to declare temporaries, for arguments whose parameter type is known. */
  method EmitArgs(w: World, body: seq<Arg>, first: nat) returns (prefix: seq<(nat, nat)>, args: seq<CArg>)
    ensures |args| == |body|
    ensures |body| > 1 && Effects(w, body) ==> Hoists(body, EvaluationOrder(body), first, prefix)
    ensures |body| > 1 && Effects(w, body) ==>
      forall k :: 0 <= k < |body| ==> args[EvaluationOrder(body)[k]] == TempName(first + k)
    ensures !(|body| > 1 && Effects(w, body)) ==>
      prefix == [] && forall i :: 0 <= i < |body| ==> args[i] == Inline(body[i].expr)
  {
    var effects := false;
    var i := 0;
    while i < |body|
      invariant 0 <= i <= |body| && (effects <==> exists j :: 0 <= j < i && w.effect(body[j].expr))
    {
      effects := effects || w.effect(body[i].expr);
      i := i + 1;
    }
    var hoist := |body| > 1 && effects;
    var order := EvaluationOrder(body);
    prefix, args := [], seq(|body|, j => Inline(0));
    OrderDistinct(body);
    var k := 0;
    while k < |order|
      invariant 0 <= k <= |order| && |args| == |body|
      invariant |prefix| == if hoist then k else 0
      invariant hoist ==> forall j :: 0 <= j < k ==> prefix[j] == (first + j, body[order[j]].expr)
      invariant forall j :: 0 <= j < k ==> args[order[j]] == if hoist then TempName(first + j) else Inline(body[order[j]].expr)
    {
      var a := order[k];
      if hoist {
        prefix := prefix + [(first + k, body[a].expr)];
        args := args[a := TempName(first + k)];
      } else {
        args := args[a := Inline(body[a].expr)];
      }
      k := k + 1;
    }
    if !hoist {
      forall x | 0 <= x < |body| ensures args[x] == Inline(body[x].expr) {
        assert x in order;
      }
    }
  }

  lemma {:induction false} SortedDistinct(body: seq<Arg>, n: nat, j: nat, k: nat)
    requires n <= |body| && j < k < n
    ensures Sorted(body, n)[j] != Sorted(body, n)[k]
    decreases n
  {
    var s := Sorted(body, n - 1);
    forall a, b | 0 <= a < b < |s| ensures s[a] != s[b] { SortedDistinct(body, n - 1, a, b); }
    forall a | 0 <= a < |s| ensures s[a] != n - 1 { assert s[a] in s; }
    InsertDistinct(body, n - 1, s);
  }

  lemma {:induction false} InsertDistinct(body: seq<Arg>, i: nat, s: seq<nat>)
    requires i < |body| && InRange(s, |body|) && forall k :: 0 <= k < |s| ==> s[k] != i
    requires forall a, b :: 0 <= a < b < |s| ==> s[a] != s[b]
    ensures forall a, b :: 0 <= a < b < |s| + 1 ==> InsertByKey(body, i, s)[a] != InsertByKey(body, i, s)[b]
    decreases |s|
  {
    if s != [] && Key(body[s[|s| - 1]]) > Key(body[i]) {
      var n := |s| - 1;
      InsertDistinct(body, i, s[..n]);
      var front := InsertByKey(body, i, s[..n]);
      forall a | 0 <= a < |front| ensures front[a] != s[n] {
        assert front[a] in front;
      }
    }
  }

  lemma OrderDistinct(body: seq<Arg>)
    ensures forall j, k :: 0 <= j < k < |body| ==> EvaluationOrder(body)[j] != EvaluationOrder(body)[k]
  {
    forall j, k | 0 <= j < k < |body| ensures EvaluationOrder(body)[j] != EvaluationOrder(body)[k] {
      SortedDistinct(body, |body|, j, k);
    }
  }

  // ---------------------------------------------------------------- both agree

  /** C may evaluate the arguments of a call in any order that takes each once. */
  predicate AnyOrder(order: seq<nat>, n: nat) {
    && InRange(order, n) && |order| == n
    && (forall x: nat :: x < n ==> x in order)
    && (forall j, k :: 0 <= j < k < |order| ==> order[j] != order[k])
  }

  lemma {:induction false} PrefixComputes(w: World, body: seq<Arg>, order: seq<nat>, first: nat, prefix: seq<(nat, nat)>, st: seq<nat>)
    requires Hoists(body, order, first, prefix) && forall j, k :: 0 <= j < k < |order| ==> order[j] != order[k]
    ensures RunPrefix(w, prefix, st).st == Evaluate(w, body, order, st).st
    ensures forall k :: 0 <= k < |order| ==> HoldsTemp(RunPrefix(w, prefix, st).vals, first + k, Evaluate(w, body, order, st).vals, order[k])
    decreases |order|
  {
    if order != [] {
      var n := |order| - 1;
      PrefixComputes(w, body, order[..n], first, prefix[..n], st);
      var temps, vals := RunPrefix(w, prefix[..n], st).vals, Evaluate(w, body, order[..n], st).vals;
      forall k | 0 <= k < |order|
        ensures HoldsTemp(RunPrefix(w, prefix, st).vals, first + k, Evaluate(w, body, order, st).vals, order[k])
      {
        if k < n { assert HoldsTemp(temps, first + k, vals, order[..n][k]); }
      }
    }
  }

  predicate HoldsTemp(temps: map<nat, nat>, t: nat, vals: map<nat, nat>, i: nat) {
    t in temps && i in vals && temps[t] == vals[i]
  }

  /** Reading temporaries changes nothing, in whatever order. */
  lemma {:induction false} TempsRead(
    w: World, args: seq<CArg>, order: seq<nat>, temps: map<nat, nat>, vals: map<nat, nat>, st: seq<nat>)
    requires InRange(order, |args|)
    requires forall i :: 0 <= i < |args| ==> args[i].TempName? && HoldsTemp(temps, args[i].t, vals, i)
    ensures RunCall(w, args, order, temps, st).st == st
    ensures forall x :: x in order ==> HoldsTemp(RunCall(w, args, order, temps, st).vals, x, vals, x)
    decreases |order|
  {
    if order != [] {
      var n := |order| - 1;
      TempsRead(w, args, order[..n], temps, vals, st);
      assert order == order[..n] + [order[n]];
    }
  }

  /** Without effects every order gives each argument its value in the state before the call. */
  lemma {:induction false} QuietEvaluation(w: World, body: seq<Arg>, order: seq<nat>, st: seq<nat>)
    requires Honest(w) && !Effects(w, body) && InRange(order, |body|)
    ensures var g := Evaluate(w, body, order, st);
            g.st == st && forall x :: x in order ==> x in g.vals && g.vals[x] == w.value(body[x].expr, st)
    decreases |order|
  {
    if order != [] {
      var n := |order| - 1;
      QuietEvaluation(w, body, order[..n], st);
      assert order == order[..n] + [order[n]];
      assert !w.effect(body[order[n]].expr);
    }
  }

  lemma {:induction false} InlineIsEvaluation(w: World, body: seq<Arg>, args: seq<CArg>, order: seq<nat>, temps: map<nat, nat>, st: seq<nat>)
    requires |args| == |body| && InRange(order, |body|) && forall i :: 0 <= i < |body| ==> args[i] == Inline(body[i].expr)
    ensures RunCall(w, args, order, temps, st) == Evaluate(w, body, order, st)
    decreases |order|
  {
    if order != [] { InlineIsEvaluation(w, body, args, order[..|order| - 1], temps, st); }
  }

  /** The emitted call: its parameters and state are the interpreter's, whatever order C takes. */
  method EmittedCall(w: World, body: seq<Arg>, first: nat, cOrder: seq<nat>, st: seq<nat>) returns (vals: map<nat, nat>, after: seq<nat>)
    requires Honest(w) && AnyOrder(cOrder, |body|)
    ensures var g := Evaluate(w, body, EvaluationOrder(body), st);
            after == g.st && forall i: nat :: i < |body| ==> i in g.vals && i in vals && vals[i] == g.vals[i]
  {
    hide Evaluate, RunPrefix, RunCall, Hoists;
    var prefix, args := EmitArgs(w, body, first);
    var temps := RunPrefix(w, prefix, st);
    var call := RunCall(w, args, cOrder, temps.vals, temps.st);
    vals, after := call.vals, call.st;
    ghost var order := EvaluationOrder(body);
    OrderDistinct(body);
    if |body| > 1 && Effects(w, body) {
      PrefixComputes(w, body, order, first, prefix, st);
      AllTemps(w, body, first, args, temps.vals, st);
      ghost var g := Evaluate(w, body, order, st);
      TempsRead(w, args, cOrder, temps.vals, g.vals, temps.st);
      forall i: nat | i < |body| ensures i in g.vals && i in vals && vals[i] == g.vals[i] {
        assert i in cOrder;
        assert HoldsTemp(call.vals, i, g.vals, i);
      }
    } else {
      NothingBefore(w, st);
      InlineIsEvaluation(w, body, args, cOrder, temps.vals, st);
      if |body| <= 1 {
        AtMostOne(order, cOrder, |body|);
        EvaluatedAre(w, body, order, st);
      } else {
        QuietEvaluation(w, body, order, st);
        QuietEvaluation(w, body, cOrder, st);
      }
    }
  }

  lemma NothingBefore(w: World, st: seq<nat>)
    ensures RunPrefix(w, [], st) == Got(map[], st)
  {
  }

  lemma AtMostOne(a: seq<nat>, b: seq<nat>, n: nat)
    requires n <= 1 && |a| == |b| == n && InRange(a, n) && InRange(b, n)
    ensures a == b
  {
  }

  lemma AllTemps(w: World, body: seq<Arg>, first: nat, args: seq<CArg>, temps: map<nat, nat>, st: seq<nat>)
    requires |args| == |body|
    requires forall k :: 0 <= k < |body| ==> args[EvaluationOrder(body)[k]] == TempName(first + k)
    requires forall k :: 0 <= k < |body| ==>
      HoldsTemp(temps, first + k, Evaluate(w, body, EvaluationOrder(body), st).vals, EvaluationOrder(body)[k])
    ensures forall i :: 0 <= i < |args| ==>
      args[i].TempName? && HoldsTemp(temps, args[i].t, Evaluate(w, body, EvaluationOrder(body), st).vals, i)
  {
    hide Evaluate;
    var order := EvaluationOrder(body);
    forall i | 0 <= i < |args|
      ensures args[i].TempName? && HoldsTemp(temps, args[i].t, Evaluate(w, body, order, st).vals, i)
    {
      assert i in order;
      var k :| 0 <= k < |order| && order[k] == i;
    }
  }
}
