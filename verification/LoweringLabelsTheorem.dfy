/** The labels lowering writes are the loops of the source, as often as they are inlined. */
module LoweringLabelsTheorem {
  import opened Wrappers
  import opened LuceSource
  import opened CTarget
  import opened Lowering
  import opened LoweringLabels

  // ----- what cleanup writes -----

  function DefersLoops(ds: seq<Deferred>, failing: bool, name: string): nat {
    if ds == [] then 0
    else
      var d := ds[|ds| - 1];
      DefersLoops(ds[..|ds| - 1], failing, name) + if d.onFailure && !failing then 0 else StmtLoops(d.what, name)
  }

  function UnwindLoops(scopes: seq<Scope>, from: nat, failing: bool, name: string): nat
    decreases |scopes|
  {
    if |scopes| <= from then 0
    else
      UnwindLoops(scopes[..|scopes| - 1], from, failing, name)
      + DefersLoops(scopes[|scopes| - 1].defers, failing, name)
  }

  function Clip(ctx: Ctx, t: nat): nat { if t < ctx.base then ctx.base else t }

  function JumpsOf(ctx: Ctx, k: nat, name: string): seq<(string, nat)>
    requires k <= |ctx.scopes|
  {
    if k == 0 then []
    else
      var sc := ctx.scopes[k - 1];
      JumpsOf(ctx, k - 1, name)
      + if sc.loop then [(sc.name, UnwindLoops(ctx.scopes, Clip(ctx, k - 1), false, name))] else []
  }

  /** What the exits of a place cost, read off the emitter's state. */
  function CostsOf(ctx: Ctx, name: string): Costs {
    Costs(UnwindLoops(ctx.scopes, Clip(ctx, if ctx.failure.Some? then ctx.failureScope else 0), true, name),
          UnwindLoops(ctx.scopes, Clip(ctx, 0), false, name),
          UnwindLoops(ctx.scopes, Clip(ctx, if ctx.catching.Some? then ctx.catchScope else 0), false, name),
          JumpsOf(ctx, |ctx.scopes|, name))
  }

  predicate Bounded(ctx: Ctx) { Well(ctx) && ctx.failureScope <= |ctx.scopes| && ctx.catchScope <= |ctx.scopes| }

  // ----- how the costs follow the emitter's state -----

  lemma UnwindPush(scopes: seq<Scope>, sc: Scope, from: nat, failing: bool, name: string)
    ensures from <= |scopes| ==>
      UnwindLoops(scopes + [sc], from, failing, name)
      == UnwindLoops(scopes, from, failing, name) + DefersLoops(sc.defers, failing, name)
  {
    assert (scopes + [sc])[..|scopes|] == scopes;
  }

  lemma {:induction false} JumpsPush(ctx: Ctx, sc: Scope, k: nat, name: string)
    requires Well(ctx) && sc.defers == [] && k <= |ctx.scopes|
    ensures JumpsOf(Push(ctx, sc), k, name) == JumpsOf(ctx, k, name)
    decreases k
  {
    if k > 0 {
      JumpsPush(ctx, sc, k - 1, name);
      UnwindPush(ctx.scopes, sc, Clip(ctx, k - 1), false, name);
    }
  }

  lemma CostsPush(ctx: Ctx, sc: Scope, name: string)
    requires Bounded(ctx) && sc.defers == []
    ensures CostsOf(Push(ctx, sc), name) == if sc.loop then OpenLoop(CostsOf(ctx, name), sc.name) else CostsOf(ctx, name)
    ensures Bounded(Push(ctx, sc))
  {
    hide UnwindLoops;
    var n := |ctx.scopes|;
    JumpsPush(ctx, sc, n, name);
    UnwindPush(ctx.scopes, sc, Clip(ctx, if ctx.failure.Some? then ctx.failureScope else 0), true, name);
    UnwindPush(ctx.scopes, sc, Clip(ctx, 0), false, name);
    UnwindPush(ctx.scopes, sc, Clip(ctx, if ctx.catching.Some? then ctx.catchScope else 0), false, name);
    UnwindPush(ctx.scopes, sc, n, false, name);
    UnwindNone(ctx.scopes, n, false, name);
    assert DefersLoops([], true, name) == 0 && DefersLoops([], false, name) == 0;
  }

  lemma UnwindNone(scopes: seq<Scope>, from: nat, failing: bool, name: string)
    requires |scopes| <= from
    ensures UnwindLoops(scopes, from, failing, name) == 0
  {
  }

  lemma CostsOperand(ctx: Ctx, n: nat, name: string)
    requires Bounded(ctx)
    ensures CostsOf(OperandCtx(ctx, n), name) == CostsOf(ctx, name).(fail := 0) && Bounded(OperandCtx(ctx, n))
    ensures Pending(OperandCtx(ctx, n)) == Pending(ctx)
  {
    UnwindNone(ctx.scopes, |ctx.scopes|, true, name);
    hide UnwindLoops;
    JumpsAlike(ctx, OperandCtx(ctx, n), |ctx.scopes|, name);
  }

  lemma CostsHandler(ctx: Ctx, n: nat, name: string)
    requires Bounded(ctx)
    ensures CostsOf(HandlerCtx(ctx, n), name) == CostsOf(ctx, name).(recover := 0) && Bounded(HandlerCtx(ctx, n))
    ensures Pending(HandlerCtx(ctx, n)) == Pending(ctx)
  {
    UnwindNone(ctx.scopes, |ctx.scopes|, false, name);
    hide UnwindLoops;
    JumpsAlike(ctx, HandlerCtx(ctx, n), |ctx.scopes|, name);
  }

  lemma {:induction false} JumpsAlike(a: Ctx, b: Ctx, k: nat, name: string)
    requires a.scopes == b.scopes && a.base == b.base && k <= |a.scopes|
    ensures JumpsOf(a, k, name) == JumpsOf(b, k, name)
    decreases k
  {
    if k > 0 { JumpsAlike(a, b, k - 1, name); }
  }

  lemma UnwindRegister(ctx: Ctx, d: Deferred, from: nat, failing: bool, name: string)
    requires ctx.base < |ctx.scopes| && from < |ctx.scopes|
    ensures
      UnwindLoops(Registered(ctx, d).scopes, from, failing, name)
      == More(UnwindLoops(ctx.scopes, from, failing, name), DeferLoops(d, name), failing || !d.onFailure)
  {
    var n := |ctx.scopes| - 1;
    var after, ds := Registered(ctx, d).scopes, ctx.scopes[n].defers;
    assert after[..n] == ctx.scopes[..n] && after[n].defers == ds + [d];
    assert (ds + [d])[..|ds|] == ds;
  }

  lemma {:induction false} JumpsRegister(ctx: Ctx, d: Deferred, k: nat, name: string)
    requires ctx.base < |ctx.scopes| && k <= |ctx.scopes|
    ensures
      var was, now := JumpsOf(ctx, k, name), JumpsOf(Registered(ctx, d), k, name);
      |now| == |was| && forall i :: 0 <= i < |was| ==> now[i] == (was[i].0, More(was[i].1, DeferLoops(d, name), !d.onFailure))
    decreases k
  {
    hide UnwindLoops;
    if k > 0 {
      JumpsRegister(ctx, d, k - 1, name);
      UnwindRegister(ctx, d, Clip(ctx, k - 1), false, name);
      var n := |ctx.scopes| - 1;
      assert Registered(ctx, d).scopes[k - 1].loop == ctx.scopes[k - 1].loop;
      assert Registered(ctx, d).scopes[k - 1].name == ctx.scopes[k - 1].name;
    }
  }

  /** One more thing deferred raises the cost of every exit, as far as it runs there. */
  lemma CostsRegister(ctx: Ctx, d: Deferred, name: string)
    requires ctx.base < |ctx.scopes| && ctx.failureScope < |ctx.scopes| && ctx.catchScope < |ctx.scopes|
    ensures CostsOf(Registered(ctx, d), name) == Raise(CostsOf(ctx, name), HERE, d.onFailure, DeferLoops(d, name))
  {
    hide UnwindLoops, JumpsOf;
    UnwindRegister(ctx, d, Clip(ctx, if ctx.failure.Some? then ctx.failureScope else 0), true, name);
    UnwindRegister(ctx, d, Clip(ctx, 0), false, name);
    UnwindRegister(ctx, d, Clip(ctx, if ctx.catching.Some? then ctx.catchScope else 0), false, name);
    JumpsRegister(ctx, d, |ctx.scopes|, name);
    var c := CostsOf(ctx, name);
    assert CostsOf(Registered(ctx, d), name).jumps == Raise(c, HERE, d.onFailure, DeferLoops(d, name)).jumps;
  }

  lemma {:induction false} SealedJumps(ctx: Ctx, k: nat, name: string)
    requires k <= |ctx.scopes|
    ensures forall i :: 0 <= i < |JumpsOf(Sealed(ctx), k, name)| ==> JumpsOf(Sealed(ctx), k, name)[i].1 == 0
    decreases k
  {
    if k > 0 {
      SealedJumps(ctx, k - 1, name);
      UnwindNone(ctx.scopes, |ctx.scopes|, false, name);
    }
  }

  /** Nothing outside what is deferred is written from within it. */
  lemma SealedFree(ctx: Ctx, name: string)
    requires Bounded(ctx)
    ensures Free(CostsOf(Sealed(ctx), name)) && Bounded(Sealed(ctx))
  {
    SealedJumps(ctx, |ctx.scopes|, name);
    UnwindNone(ctx.scopes, |ctx.scopes|, false, name);
    UnwindNone(ctx.scopes, |ctx.scopes|, true, name);
  }

  lemma {:induction false} JumpCosts(ctx: Ctx, aim: string, k: nat, name: string)
    requires k <= |ctx.scopes|
    ensures
      var c := CostsOf(ctx, name);
      var js := JumpsOf(ctx, k, name);
      JumpCost(c.(jumps := js), aim, |js|)
      == UnwindLoops(ctx.scopes, Clip(ctx, JumpScope(ctx.scopes[..k], aim)), false, name)
    decreases k
  {
    hide UnwindLoops;
    if k > 0 {
      JumpCosts(ctx, aim, k - 1, name);
      assert ctx.scopes[..k][..k - 1] == ctx.scopes[..k - 1];
      var c, js, was := CostsOf(ctx, name), JumpsOf(ctx, k, name), JumpsOf(ctx, k - 1, name);
      if ctx.scopes[k - 1].loop { JumpCostPrefix(c.(jumps := js), c.(jumps := was), aim, |was|); } else { assert js == was; }
    }
  }

  lemma {:induction false} JumpCostPrefix(a: Costs, b: Costs, aim: string, i: nat)
    requires a.ret == b.ret && i <= |b.jumps| <= |a.jumps| && b.jumps <= a.jumps
    ensures JumpCost(a, aim, i) == JumpCost(b, aim, i)
    decreases i
  {
    if i > 0 { JumpCostPrefix(a, b, aim, i - 1); }
  }

  lemma ToLoopCosts(ctx: Ctx, aim: string, name: string)
    ensures ToLoop(CostsOf(ctx, name), aim) == UnwindLoops(ctx.scopes, Clip(ctx, JumpScope(ctx.scopes, aim)), false, name)
  {
    hide UnwindLoops;
    assert ctx.scopes[..|ctx.scopes|] == ctx.scopes;
    JumpCosts(ctx, aim, |ctx.scopes|, name);
    var c := CostsOf(ctx, name);
    assert c.(jumps := JumpsOf(ctx, |ctx.scopes|, name)) == c;
  }

  // ----- what lowering writes -----

  /** How often code written from counter `n` to `m` may carry `l`, when the source calls for
      `loops` loops of that name. */
  predicate CountOk(count: nat, l: Label, loops: nat, n: nat, m: nat) {
    match l
    case Handler(id) => count <= 1 && (id < n || m <= id ==> count == 0)
    case Done(id) => count <= 1 && (id < n || m <= id ==> count == 0)
    case BreakOf(_) => count == loops
    case ContinueOf(_) => count == loops
  }

  function NameOf(l: Label): string {
    if l.BreakOf? || l.ContinueOf? then l.name else ""
  }

  /** Two pieces of code, one written after the other. */
  lemma CountBoth(a: nat, b: nat, l: Label, x: nat, y: nat, n: nat, k: nat, m: nat)
    requires n <= k <= m && CountOk(a, l, x, n, k) && CountOk(b, l, y, k, m)
    ensures CountOk(a + b, l, x + y, n, m)
  {
  }

  lemma CountWider(a: nat, l: Label, x: nat, n: nat, m: nat, n': nat, m': nat)
    requires n' <= n <= m <= m' && CountOk(a, l, x, n, m)
    ensures CountOk(a, l, x, n', m')
  {
  }

  lemma CountZero(l: Label, n: nat, m: nat)
    ensures CountOk(0, l, 0, n, m)
  {
  }

  lemma {:induction false} DefersLabels(ctx: Ctx, at: nat, i: nat, failing: bool, n: nat, l: Label)
    requires Bounded(ctx) && ctx.base <= at < |ctx.scopes| && i <= |ctx.scopes[at].defers|
    ensures CountOk(InCode(DefersCode(ctx, at, i, failing, n).code, l), l,
                    DefersLoops(ctx.scopes[at].defers[..i], failing, NameOf(l)), n, DefersCode(ctx, at, i, failing, n).n)
    decreases Pending(ctx), 0, i
  {
    hide InCode, DeferCode, CountOk, DefersLoops;
    var ds := ctx.scopes[at].defers;
    if i == 0 {
      InNothing(l);
      CountZero(l, n, n);
      NoDefersLoops(failing, NameOf(l));
      assert ds[..0] == [];
    } else {
      var a := DeferCode(ctx, at, i - 1, failing, n);
      var b := DefersCode(ctx, at, i - 1, failing, a.n);
      DeferLabels(ctx, at, i - 1, failing, n, l);
      DefersLabels(ctx, at, i - 1, failing, a.n, l);
      InAppend(a.code, b.code, l);
      OneMoreDefer(ds, i - 1, failing, NameOf(l));
      CountBoth(InCode(a.code, l), InCode(b.code, l), l, RunLoops(ds[i - 1], failing, NameOf(l)),
                DefersLoops(ds[..i - 1], failing, NameOf(l)), n, a.n, b.n);
    }
  }

  /** The loops something deferred writes at an exit. */
  function RunLoops(d: Deferred, failing: bool, name: string): nat {
    if d.onFailure && !failing then 0 else StmtLoops(d.what, name)
  }

  lemma NoDefersLoops(failing: bool, name: string)
    ensures DefersLoops([], failing, name) == 0
  {
  }

  lemma OneMoreDefer(ds: seq<Deferred>, i: nat, failing: bool, name: string)
    requires i < |ds|
    ensures DefersLoops(ds[..i + 1], failing, name) == RunLoops(ds[i], failing, name) + DefersLoops(ds[..i], failing, name)
  {
    assert ds[..i + 1][..i] == ds[..i];
  }

  lemma {:induction false} DeferLabels(ctx: Ctx, at: nat, i: nat, failing: bool, n: nat, l: Label)
    requires Bounded(ctx) && ctx.base <= at < |ctx.scopes| && i < |ctx.scopes[at].defers|
    ensures CountOk(InCode(DeferCode(ctx, at, i, failing, n).code, l), l,
                    RunLoops(ctx.scopes[at].defers[i], failing, NameOf(l)), n, DeferCode(ctx, at, i, failing, n).n)
    decreases Pending(ctx), 0, i
  {
    hide InCode, LowerStmt, StmtLoops, StmtCost, CountOk, CostsOf;
    var d := ctx.scopes[at].defers[i];
    if d.onFailure && !failing {
      InNothing(l);
      CountZero(l, n, n);
    } else {
      PartOfScopes(ctx.scopes, ctx.base, at, i);
      SealedFree(ctx, NameOf(l));
      StmtLabels(Sealed(ctx), d.what, n, l);
      FreeStmt(d.what, CostsOf(Sealed(ctx), NameOf(l)));
    }
  }

  lemma {:induction false} ScopeLabels(ctx: Ctx, at: nat, failing: bool, n: nat, l: Label)
    requires Bounded(ctx) && ctx.base <= at < |ctx.scopes|
    ensures CountOk(InCode(ScopeCode(ctx, at, failing, n).code, l), l,
                    DefersLoops(ctx.scopes[at].defers, failing, NameOf(l)), n, ScopeCode(ctx, at, failing, n).n)
    decreases Pending(ctx), 1, 0
  {
    hide InCode, DefersCode, DefersLoops;
    var sc := ctx.scopes[at];
    assert sc.defers[..|sc.defers|] == sc.defers;
    DefersLabels(ctx, at, |sc.defers|, failing, n, l);
    var tail := if sc.save.Some? then [RestoreAlloc(sc.save.value)] else [];
    InNothing(l);
    if sc.save.Some? { InOne(tail[0], l); }
    InAppend(DefersCode(ctx, at, |sc.defers|, failing, n).code, tail, l);
  }

  lemma {:induction false} UnwindLabels(ctx: Ctx, k: nat, from: nat, failing: bool, n: nat, l: Label)
    requires Bounded(ctx) && k <= |ctx.scopes|
    ensures CountOk(InCode(UnwindFrom(ctx, k, from, failing, n).code, l), l,
                    UnwindLoops(ctx.scopes[..k], Clip(ctx, from), failing, NameOf(l)), n, UnwindFrom(ctx, k, from, failing, n).n)
    decreases Pending(ctx), 2, k
  {
    hide InCode, ScopeCode, DefersLoops, CountOk;
    InNothing(l);
    CountZero(l, n, n);
    if k > from && k > ctx.base {
      var a := ScopeCode(ctx, k - 1, failing, n);
      var b := UnwindFrom(ctx, k - 1, from, failing, a.n);
      assert ctx.scopes[..k][..k - 1] == ctx.scopes[..k - 1];
      ScopeLabels(ctx, k - 1, failing, n, l);
      UnwindLabels(ctx, k - 1, from, failing, a.n, l);
      InAppend(a.code, b.code, l);
      CountBoth(InCode(a.code, l), InCode(b.code, l), l, DefersLoops(ctx.scopes[k - 1].defers, failing, NameOf(l)),
                UnwindLoops(ctx.scopes[..k - 1], Clip(ctx, from), failing, NameOf(l)), n, a.n, b.n);
    }
  }

  /** `first`, cleanup and a jump: `first` was written before counter `m`. */
  lemma {:induction false} JumpLabels(
    first: seq<CStmt>, x: nat, ctx: Ctx, from: nat, failing: bool, last: CStmt, n: nat, m: nat, l: Label)
    requires Bounded(ctx) && n <= m && CountOk(InCode(first, l), l, x, n, m) && InStmt(last, l) == 0
    ensures
      var u := UnwindCode(ctx, from, failing, m);
      && CountOk(InCode(first + u.code + [last], l), l,
                 x + UnwindLoops(ctx.scopes, Clip(ctx, from), failing, NameOf(l)), n, u.n)
      && CountOk(InCode(u.code + [last], l), l, UnwindLoops(ctx.scopes, Clip(ctx, from), failing, NameOf(l)), m, u.n)
    decreases Pending(ctx), 3, 0
  {
    hide InCode, UnwindFrom, UnwindLoops, InStmt;
    var u := UnwindCode(ctx, from, failing, m);
    assert ctx.scopes[..|ctx.scopes|] == ctx.scopes;
    UnwindLabels(ctx, |ctx.scopes|, from, failing, m, l);
    InOne(last, l);
    InAppend(first, u.code, l);
    InAppend(first + u.code, [last], l);
    InAppend(u.code, [last], l);
  }

  lemma {:induction false} FailureLabels(ctx: Ctx, t: Temp, n: nat, l: Label)
    requires Bounded(ctx)
    ensures CountOk(InCode(FailureExit(ctx, t, n).code, l), l, CostsOf(ctx, NameOf(l)).fail, n, FailureExit(ctx, t, n).n)
    decreases Pending(ctx), 4, 0
  {
    hide InCode, UnwindCode, UnwindLoops, JumpsOf, CountOk;
    CountZero(l, n, n);
    if ctx.failure.Some? {
      var copy := CopyTemp(Temp(CaughtError, ctx.failure.value), t);
      InOne(copy, l);
      JumpLabels([copy], 0, ctx, ctx.failureScope, true, Goto(Handler(ctx.failure.value)), n, n, l);
    } else {
      InNothing(l);
      JumpLabels([], 0, ctx, 0, true, ReturnSlot(t), n, n, l);
    }
  }

  lemma InCatch(id: nat, operand: CExpr, x: string, handler: seq<CStmt>, l: Label)
    ensures InCode(CatchCode(id, operand, x, handler), l)
         == InExpr(operand, l) + InCode(handler, l) + (if l == Handler(id) || l == Done(id) then 1 else 0)
  {
    hide InCode;
    var value, name := Temp(CatchValue, id), VarFromTemp(x, Temp(CaughtError, id));
    var a := [SetTemp(value, false, CLit(0)), SetTemp(value, false, operand)];
    var b := [Goto(Done(id)), LabelHere(Handler(id))];
    var c := [Braces([name] + handler), LabelHere(Done(id))];
    InTwo(a[0], a[1], l);
    InTwo(b[0], b[1], l);
    InTwo(c[0], c[1], l);
    InOne(name, l);
    InAppend([name], handler, l);
    InAppend(a, b, l);
    InAppend(a + b, c, l);
    assert CatchCode(id, operand, x, handler) == a + b + c;
  }

  lemma InWhile(name: string, c: CExpr, body: seq<CStmt>, l: Label)
    ensures InCode(WhileCode(name, c, body), l)
         == InExpr(c, l) + InCode(body, l) + (if name != "" && (l == BreakOf(name) || l == ContinueOf(name)) then 1 else 0)
  {
    hide InCode;
    var first, cont := [BreakUnless(c)], LabelHere(ContinueOf(name));
    InOne(BreakUnless(c), l);
    InAppend(first, body, l);
    if name == "" {
      InOne(Loop(first + body), l);
    } else {
      InOne(cont, l);
      InAppend(first + body, [cont], l);
      InTwo(Loop(first + body + [cont]), LabelHere(BreakOf(name)), l);
    }
  }

  lemma {:induction false} ExprLabels(ctx: Ctx, e: Expr, n: nat, l: Label)
    requires Bounded(ctx)
    ensures CountOk(InExpr(LowerExpr(ctx, e, n).e, l), l, ExprLoops(e, NameOf(l)) + ExprCost(e, CostsOf(ctx, NameOf(l))), n,
                    LowerExpr(ctx, e, n).n)
    decreases Pending(ctx) + ExprSize(e), 5, 0
  {
    hide InCode, CostsOf, FailureExit, LowerBlock, ListLoops, ListCost;
    match e
    case Lit(_) =>
    case Name(_) =>
    case Call(_, arg) => ExprLabels(ctx, arg, n, l);
    case Try(f, arg) =>
      var t := Temp(ResultTemp, n);
      var a := LowerExpr(ctx, arg, n + 1);
      ExprLabels(ctx, arg, n + 1, l);
      FailureLabels(ctx, t, a.n, l);
      InTwo(CallInto(t, f, a.e), IfFailed(t, FailureExit(ctx, t, a.n).code), l);
    case Catch(_, _, _) => CatchLabelled(ctx, e, n, l);
  }

  lemma {:induction false} CatchLabelled(ctx: Ctx, e: Expr, n: nat, l: Label)
    requires Bounded(ctx) && e.Catch?
    ensures CountOk(InExpr(LowerExpr(ctx, e, n).e, l), l, ExprLoops(e, NameOf(l)) + ExprCost(e, CostsOf(ctx, NameOf(l))), n,
                    LowerExpr(ctx, e, n).n)
    decreases Pending(ctx) + ExprSize(e), 4, 0
  {
    hide InCode, CostsOf, FailureExit, LowerBlock, ListLoops, ListCost;
    CostsOperand(ctx, n, NameOf(l));
    CostsHandler(ctx, n, NameOf(l));
    var o := LowerExpr(OperandCtx(ctx, n), e.operand, n + 1);
    ExprLabels(OperandCtx(ctx, n), e.operand, n + 1, l);
    BlockLabels(HandlerCtx(ctx, n), e.handler, o.n, l);
    InCatch(n, o.e, e.name, LowerBlock(HandlerCtx(ctx, n), e.handler, o.n).code, l);
  }

  /** The labels of a statement's code, as the source calls for them. */
  predicate StmtCounted(ctx: Ctx, s: Stmt, n: nat, l: Label)
    requires Well(ctx)
  {
    CountOk(InCode(LowerStmt(ctx, s, n).code, l), l, StmtLoops(s, NameOf(l)) + StmtCost(s, CostsOf(ctx, NameOf(l))), n,
            LowerStmt(ctx, s, n).n)
  }

  lemma {:induction false} StmtLabels(ctx: Ctx, s: Stmt, n: nat, l: Label)
    requires Bounded(ctx)
    ensures StmtCounted(ctx, s, n, l)
    decreases Pending(ctx) + StmtSize(s), 5, 2
  {
    hide InCode, CostsOf, LowerExpr, LowerBlock, ExprLoops, ExprCost, ListLoops, ListCost;
    match s
    case ExprStmt(e) => ExprLabels(ctx, e, n, l); InOne(Eval(LowerExpr(ctx, e, n).e), l);
    case Assign(x, e) => ExprLabels(ctx, e, n, l); InOne(SetVar(x, LowerExpr(ctx, e, n).e), l);
    case SetAllocator(e) => ExprLabels(ctx, e, n, l); InOne(SetAlloc(LowerExpr(ctx, e, n).e), l);
    case If(_, _, _) => IfLabels(ctx, s, n, l);
    case While(_, _, _) => WhileLabels(ctx, s, n, l);
    case Block(body) => BlockLabels(ctx, body, n, l);
    case With(_, _) => WithLabels(ctx, s, n, l);
    case Defer(_) => InNothing(l);
    case _ => ExitLabels(ctx, s, n, l);
  }

  lemma {:induction false} IfLabels(ctx: Ctx, s: Stmt, n: nat, l: Label)
    requires Bounded(ctx) && s.If?
    ensures StmtCounted(ctx, s, n, l)
    decreases Pending(ctx) + StmtSize(s), 5, 1
  {
    hide InCode, CostsOf, LowerExpr, LowerBlock, ExprLoops, ExprCost, ListLoops, ListCost, CountOk;
    var c, name := CostsOf(ctx, NameOf(l)), NameOf(l);
    var i := LowerExpr(ctx, s.cond, n);
    var a := LowerBlock(ctx, s.thn, i.n);
    var b := LowerBlock(ctx, s.els, a.n);
    ExprLabels(ctx, s.cond, n, l);
    BlockLabels(ctx, s.thn, i.n, l);
    BlockLabels(ctx, s.els, a.n, l);
    InOne(CIf(i.e, a.code, b.code), l);
    CountBoth(InExpr(i.e, l), InCode(a.code, l), l, ExprLoops(s.cond, name) + ExprCost(s.cond, c),
              ListLoops(s.thn, name) + ListCost(s.thn, c), n, i.n, a.n);
    CountBoth(InExpr(i.e, l) + InCode(a.code, l), InCode(b.code, l), l,
              ExprLoops(s.cond, name) + ExprCost(s.cond, c) + (ListLoops(s.thn, name) + ListCost(s.thn, c)),
              ListLoops(s.els, name) + ListCost(s.els, c), n, a.n, b.n);
  }

  lemma {:induction false} WhileLabels(ctx: Ctx, s: Stmt, n: nat, l: Label)
    requires Bounded(ctx) && s.While?
    ensures StmtCounted(ctx, s, n, l)
    decreases Pending(ctx) + StmtSize(s), 5, 1
  {
    hide InCode, CostsOf, LowerExpr, LowerBlock, ExprLoops, ExprCost, ListLoops, ListCost;
    CostsPush(ctx, LoopScope(s.loopName), NameOf(l));
    var inner := Push(ctx, LoopScope(s.loopName));
    var i := LowerExpr(inner, s.cond, n);
    ExprLabels(inner, s.cond, n, l);
    BlockLabels(inner, s.body, i.n, l);
    InWhile(s.loopName, i.e, LowerBlock(inner, s.body, i.n).code, l);
  }

  lemma {:induction false} WithLabels(ctx: Ctx, s: Stmt, n: nat, l: Label)
    requires Bounded(ctx) && s.With?
    ensures StmtCounted(ctx, s, n, l)
    decreases Pending(ctx) + StmtSize(s), 5, 1
  {
    hide InCode, CostsOf, LowerExpr, LowerBlock, ExprLoops, ExprCost, ListLoops, ListCost;
    var save := Temp(SavedAlloc, n);
    var sc := PLAIN.(save := Some(save));
    CostsPush(ctx, sc, NameOf(l));
    var a := LowerExpr(ctx, s.allocator, n + 1);
    var inner := Push(ctx, sc);
    var b := LowerBlock(inner, s.body, a.n);
    var first := [SaveAlloc(save), SetAlloc(a.e)];
    ExprLabels(ctx, s.allocator, n + 1, l);
    BlockLabels(inner, s.body, a.n, l);
    InTwo(SaveAlloc(save), SetAlloc(a.e), l);
    InOne(RestoreAlloc(save), l);
    InAppend(first, b.code, l);
    InAppend(first + b.code, [RestoreAlloc(save)], l);
    InOne(Braces(first + b.code + [RestoreAlloc(save)]), l);
  }

  lemma {:induction false} ExitLabels(ctx: Ctx, s: Stmt, n: nat, l: Label)
    requires Bounded(ctx) && (s.Return? || s.ReturnUnit? || s.Error? || s.Break? || s.Continue? || s.Recover?)
    ensures StmtCounted(ctx, s, n, l)
    decreases Pending(ctx) + StmtSize(s), 5, 1
  {
    hide InCode, UnwindCode, UnwindLoops, JumpsOf, LowerExpr, ExprLoops, ExprCost, FailureExit, ToLoop, CountOk;
    CountZero(l, n, n);
    InNothing(l);
    match s
    case Return(e) => ReturnLabels(ctx, e, n, l);
    case ReturnUnit => JumpLabels([], 0, ctx, 0, false, ReturnOk(CLit(0)), n, n, l);
    case Error(e) => ErrorLabels(ctx, e, n, l);
    case Break(_) => LoopJumpLabels(ctx, s, n, l);
    case Continue(_) => LoopJumpLabels(ctx, s, n, l);
    case Recover(e) => RecoverLabels(ctx, e, n, l);
  }

  lemma {:induction false} LoopJumpLabels(ctx: Ctx, s: Stmt, n: nat, l: Label)
    requires Bounded(ctx) && (s.Break? || s.Continue?)
    ensures StmtCounted(ctx, s, n, l)
    decreases Pending(ctx) + StmtSize(s), 5, 0
  {
    hide InCode, UnwindCode, UnwindLoops, JumpsOf, ToLoop, CountOk, ScopesSize;
    CountZero(l, n, n);
    InNothing(l);
    ToLoopCosts(ctx, s.loopName, NameOf(l));
    var jump :=
      if s.Break? then (if s.loopName == "" then CBreak else Goto(BreakOf(s.loopName)))
      else (if s.loopName == "" then CContinue else Goto(ContinueOf(s.loopName)));
    JumpLabels([], 0, ctx, JumpScope(ctx.scopes, s.loopName), false, jump, n, n, l);
  }

  lemma {:induction false} ReturnLabels(ctx: Ctx, e: Expr, n: nat, l: Label)
    requires Bounded(ctx)
    ensures StmtCounted(ctx, Return(e), n, l)
    decreases Pending(ctx) + StmtSize(Return(e)), 5, 0
  {
    hide InCode, UnwindCode, UnwindLoops, JumpsOf, LowerExpr, ExprLoops, ExprCost, CountOk, AnyDefers;
    var a := LowerExpr(ctx, e, n);
    var first := SetTemp(Temp(ReturnTemp, a.n), false, a.e);
    var x := ExprLoops(e, NameOf(l)) + ExprCost(e, CostsOf(ctx, NameOf(l)));
    ExprLabels(ctx, e, n, l);
    if AnyDefers(ctx.scopes) {
      InOne(first, l);
      CountWider(InExpr(a.e, l), l, x, n, a.n, n, a.n + 1);
      JumpLabels([first], x, ctx, 0, false, ReturnSlot(Temp(ReturnTemp, a.n)), n, a.n + 1, l);
    } else {
      InOne(ReturnOk(a.e), l);
      NothingDeferred(ctx.scopes, Clip(ctx, 0), false, NameOf(l));
    }
  }

  lemma {:induction false} NothingDeferred(scopes: seq<Scope>, from: nat, failing: bool, name: string)
    requires !AnyDefers(scopes)
    ensures UnwindLoops(scopes, from, failing, name) == 0
    decreases |scopes|
  {
    if from < |scopes| {
      var outer := scopes[..|scopes| - 1];
      assert scopes[|scopes| - 1].defers == [];
      assert forall i :: 0 <= i < |outer| ==> outer[i] == scopes[i];
      NothingDeferred(outer, from, failing, name);
    }
  }

  lemma {:induction false} ErrorLabels(ctx: Ctx, e: Expr, n: nat, l: Label)
    requires Bounded(ctx)
    ensures StmtCounted(ctx, Error(e), n, l)
    decreases Pending(ctx) + StmtSize(Error(e)), 5, 0
  {
    hide InCode, CostsOf, LowerExpr, ExprLoops, ExprCost, FailureExit, CountOk;
    var t := Temp(ErrorTemp, n);
    var a := LowerExpr(ctx, e, n + 1);
    var leave := FailureExit(ctx, t, a.n);
    var first := SetTemp(t, true, a.e);
    var c := CostsOf(ctx, NameOf(l));
    var x := ExprLoops(e, NameOf(l)) + ExprCost(e, c);
    ExprLabels(ctx, e, n + 1, l);
    FailureLabels(ctx, t, a.n, l);
    InOne(first, l);
    InAppend([first], leave.code, l);
    CountWider(InExpr(a.e, l), l, x, n + 1, a.n, n, a.n);
    CountBoth(InExpr(a.e, l), InCode(leave.code, l), l, x, c.fail, n, a.n, leave.n);
  }

  lemma {:induction false} RecoverLabels(ctx: Ctx, e: Expr, n: nat, l: Label)
    requires Bounded(ctx)
    ensures StmtCounted(ctx, Recover(e), n, l)
    decreases Pending(ctx) + StmtSize(Recover(e)), 5, 0
  {
    hide InCode, UnwindCode, UnwindLoops, JumpsOf, LowerExpr, ExprLoops, ExprCost, CountOk;
    var a := LowerExpr(ctx, e, n);
    var x := ExprLoops(e, NameOf(l)) + ExprCost(e, CostsOf(ctx, NameOf(l)));
    ExprLabels(ctx, e, n, l);
    if ctx.catching.Some? {
      var first := SetTemp(Temp(CatchValue, ctx.catching.value), false, a.e);
      InOne(first, l);
      JumpLabels([first], x, ctx, ctx.catchScope, false, Goto(Done(ctx.catching.value)), n, a.n, l);
    } else {
      RecoverOutside(ctx, a.e, x, n, a.n, l);
    }
  }

  /** `recover` outside a handler returns; its expression is written after the cleanup. */
  lemma {:induction false} RecoverOutside(ctx: Ctx, e: CExpr, x: nat, n: nat, m: nat, l: Label)
    requires Bounded(ctx) && n <= m && CountOk(InExpr(e, l), l, x, n, m)
    ensures
      var u := UnwindCode(ctx, 0, false, m);
      CountOk(InCode(u.code + [ReturnOk(e)], l), l, x + UnwindLoops(ctx.scopes, Clip(ctx, 0), false, NameOf(l)), n, u.n)
    decreases Pending(ctx), 4, 0
  {
    hide InCode, UnwindFrom, UnwindLoops;
    var u := UnwindCode(ctx, 0, false, m);
    assert ctx.scopes[..|ctx.scopes|] == ctx.scopes;
    UnwindLabels(ctx, |ctx.scopes|, 0, false, m, l);
    InOne(ReturnOk(e), l);
    InAppend(u.code, [ReturnOk(e)], l);
  }

  lemma {:induction false} ListLabels(ctx: Ctx, ss: Stmts, n: nat, l: Label)
    requires ctx.base < |ctx.scopes| && ctx.failureScope < |ctx.scopes| && ctx.catchScope < |ctx.scopes|
    ensures ListCounted(ctx, ss, n, l)
    decreases Pending(ctx) + ListSize(ss), 5, 0
  {
    hide InCode, CostsOf, LowerStmt, StmtLoops, StmtCost, CountOk, ScopeCode, DefersLoops, StmtCounted;
    match ss
    case Nil => ScopeLabels(ctx, |ctx.scopes| - 1, false, n, l);
    case Cons(s, rest) =>
      if s.Defer? {
        assert StmtSize(s) == 1 + DeferSize(s.d);
        ListLabels(Registered(ctx, s.d), rest, n, l);
        DeferCounts(ctx, s, rest, NameOf(l));
        assert LowerList(ctx, ss, n) == LowerList(Registered(ctx, s.d), rest, n);
        hide ListLoops, ListCost, LowerList, Registered;
      } else {
        var a := LowerStmt(ctx, s, n);
        StmtLabels(ctx, s, n, l);
        ListLabels(ctx, rest, a.n, l);
        ListGoesOn(ctx, s, rest, n, l);
      }
  }

  /** The labels of a block's statements and of what it has deferred. */
  predicate ListCounted(ctx: Ctx, ss: Stmts, n: nat, l: Label)
    requires ctx.base < |ctx.scopes|
  {
    CountOk(InCode(LowerList(ctx, ss, n).code, l), l,
            ListLoops(ss, NameOf(l)) + ListCost(ss, CostsOf(ctx, NameOf(l)))
            + DefersLoops(ctx.scopes[|ctx.scopes| - 1].defers, false, NameOf(l)),
            n, LowerList(ctx, ss, n).n)
  }

  lemma ListGoesOn(ctx: Ctx, s: Stmt, rest: Stmts, n: nat, l: Label)
    requires ctx.base < |ctx.scopes| && !s.Defer? && StmtCounted(ctx, s, n, l)
    requires ListCounted(ctx, rest, LowerStmt(ctx, s, n).n, l)
    ensures ListCounted(ctx, Cons(s, rest), n, l)
  {
    hide InCode, CostsOf, LowerStmt, StmtLoops, StmtCost, CountOk, DefersLoops;
    var c, name := CostsOf(ctx, NameOf(l)), NameOf(l);
    var a := LowerStmt(ctx, s, n);
    var b := LowerList(ctx, rest, a.n);
    InAppend(a.code, b.code, l);
    CountBoth(InCode(a.code, l), InCode(b.code, l), l, StmtLoops(s, name) + StmtCost(s, c),
              ListLoops(rest, name) + ListCost(rest, c) + DefersLoops(ctx.scopes[|ctx.scopes| - 1].defers, false, name), n, a.n, b.n);
  }

  /** What is deferred is written at each exit from the rest of the block and at its end. */
  lemma DeferCounts(ctx: Ctx, s: Stmt, rest: Stmts, name: string)
    requires ctx.base < |ctx.scopes| && ctx.failureScope < |ctx.scopes| && ctx.catchScope < |ctx.scopes| && s.Defer?
    ensures
      var after, top := Registered(ctx, s.d), |ctx.scopes| - 1;
      ListLoops(rest, name) + ListCost(rest, CostsOf(after, name)) + DefersLoops(after.scopes[top].defers, false, name)
      == ListLoops(Cons(s, rest), name) + ListCost(Cons(s, rest), CostsOf(ctx, name))
         + DefersLoops(ctx.scopes[top].defers, false, name)
  {
    hide CostsOf, StmtLoops, ListExits, Raise, Copies, Registered;
    var d, more := s.d, DeferLoops(s.d, name);
    var c, x := CostsOf(ctx, name), Count(ListExits(rest, HERE), s.d.onFailure);
    CostsRegister(ctx, d, name);
    ListRaise(rest, c, HERE, d.onFailure, more);
    RegisteredLoops(ctx, d, name);
    Distributes(x, if d.onFailure then 0 else 1, more);
    hide DefersLoops, DeferLoops;
  }

  lemma RegisteredLoops(ctx: Ctx, d: Deferred, name: string)
    requires ctx.base < |ctx.scopes|
    ensures
      var top := |ctx.scopes| - 1;
      DefersLoops(Registered(ctx, d).scopes[top].defers, false, name)
      == DefersLoops(ctx.scopes[top].defers, false, name) + if d.onFailure then 0 else DeferLoops(d, name)
  {
    var ds := ctx.scopes[|ctx.scopes| - 1].defers;
    assert (ds + [d])[..|ds|] == ds;
  }

  lemma {:induction false} BlockLabels(ctx: Ctx, ss: Stmts, n: nat, l: Label)
    requires Bounded(ctx)
    ensures CountOk(InCode(LowerBlock(ctx, ss, n).code, l), l,
                    ListLoops(ss, NameOf(l)) + ListCost(ss, CostsOf(ctx, NameOf(l))), n, LowerBlock(ctx, ss, n).n)
    decreases Pending(ctx) + ListSize(ss), 6, 0
  {
    hide InCode, CostsOf, LowerList, ListLoops, ListCost;
    CostsPush(ctx, PLAIN, NameOf(l));
    ListLabels(Push(ctx, PLAIN), ss, n, l);
    assert DefersLoops([], false, NameOf(l)) == 0;
    InOne(Braces(LowerList(Push(ctx, PLAIN), ss, n).code), l);
  }

  // ----- the theorem -----

  /** No label of the function is written twice. */
  ghost predicate WellLabelled(code: seq<CStmt>) {
    forall l: Label :: InCode(code, l) <= 1
  }

  /** No loop label is called for twice, a loop in something deferred counting once for each
      exit that writes it. */
  ghost predicate LoopsWrittenOnce(body: Stmts) {
    forall name: string :: ListLoops(body, name) <= 1
  }

  lemma FunctionLabels(body: Stmts, unit: bool, n: nat, l: Label)
    ensures CountOk(InCode(LowerFunction(body, unit, n).code, l), l, ListLoops(body, NameOf(l)), n,
                    LowerFunction(body, unit, n).n)
  {
    hide InCode, LowerList, ListLoops, ListCost;
    var last := if unit then ReturnOk(CLit(0)) else TrapUnreachable;
    var ctx := Push(TOP, PLAIN);
    CostsPush(TOP, PLAIN, NameOf(l));
    ListLabels(ctx, body, n, l);
    assert Free(CostsOf(TOP, NameOf(l)));
    FreeList(body, CostsOf(ctx, NameOf(l)));
    assert DefersLoops([], false, NameOf(l)) == 0;
    InOne(last, l);
    InAppend(LowerList(ctx, body, n).code, [last], l);
  }

  /** The emitted function is well labelled exactly when no loop label is written twice. */
  lemma WellLabelledIffWrittenOnce(body: Stmts, unit: bool, n: nat)
    ensures WellLabelled(LowerFunction(body, unit, n).code) <==> LoopsWrittenOnce(body)
  {
    hide InCode, ListLoops, LowerFunction;
    var code := LowerFunction(body, unit, n).code;
    if WellLabelled(code) {
      forall name: string ensures ListLoops(body, name) <= 1 {
        FunctionLabels(body, unit, n, BreakOf(name));
        assert InCode(code, BreakOf(name)) <= 1;
      }
    }
    if LoopsWrittenOnce(body) {
      forall l: Label ensures InCode(code, l) <= 1 {
        FunctionLabels(body, unit, n, l);
        assert ListLoops(body, NameOf(l)) <= 1;
      }
    }
  }

  /** Two loops in a row may share a label as far as the checker goes; their C does not compile. */
  lemma CheckedYetDoublyLabelled()
    ensures
      var loop := While("outer", Lit(0), Nil);
      var body := Cons(loop, Cons(loop, Nil));
      StmtsOk(body, Body(true)) && StmtsOk(body, Body(false)) && !WellLabelled(LowerFunction(body, true, 0).code)
  {
    var loop := While("outer", Lit(0), Nil);
    var body := Cons(loop, Cons(loop, Nil));
    WellLabelledIffWrittenOnce(body, true, 0);
    assert StmtLoops(loop, "outer") == 1;
    assert ListLoops(body, "outer") == 2;
  }

  function OuterLoop(): Stmt { While("outer", Lit(1), Cons(Break("outer"), Nil)) }

  /** `defer:` with a labelled loop in it, and one early return. */
  function DeferredLoop(): Stmts {
    Cons(Defer(Deferred(Block(Cons(OuterLoop(), Nil)), false)), Cons(If(Name("c"), Cons(ReturnUnit, Nil), Nil), Nil))
  }

  lemma DeferredLoopChecked()
    ensures StmtsOk(DeferredLoop(), Body(true)) && StmtsOk(DeferredLoop(), Body(false))
  {
    var sealed := Place({}, false, false, false, false, false);
    assert StmtOk(OuterLoop(), SEALED) && StmtOk(OuterLoop(), sealed);
    assert StmtsOk(Cons(OuterLoop(), Nil), SEALED) && StmtsOk(Cons(OuterLoop(), Nil), sealed);
    var d := DeferredLoop().head.d;
    assert DeferOk(d, Body(true)) && DeferOk(d, Body(false));
  }

  lemma DeferredLoopInlined()
    ensures Inlined(DeferredLoop().head.d, DeferredLoop().tail) == 2
  {
    EarlyReturn(DeferredLoop().tail, HERE);
  }

  lemma EarlyReturn(ss: Stmts, k: Inside)
    requires ss.Cons? && ss.tail.Nil? && ss.head.If? && ss.head.cond.Name? && ss.head.els.Nil?
    requires ss.head.thn.Cons? && ss.head.thn.head.ReturnUnit? && ss.head.thn.tail.Nil?
    ensures ListExits(ss, k) == QUIET
  {
    hide ListExits, StmtExits, ExprExits;
    var s := ss.head;
    ExitsOfList(s.thn, k);
    ExitsOfList(s.thn.tail, k);
    ExitsOfReturn(s.thn.head, k);
    ExitsOfList(s.els, k);
    ExitsOfName(s.cond, k);
    ExitsOfIf(s, k);
    ExitsOfList(ss, k);
    ExitsOfList(ss.tail, k);
  }

  lemma {:induction false} ExitsOfList(ss: Stmts, k: Inside)
    ensures ListExits(ss, k) == if ss.Nil? then NONE else Both(StmtExits(ss.head, k), ListExits(ss.tail, k))
  {
  }

  lemma {:induction false} ExitsOfReturn(s: Stmt, k: Inside)
    requires s.ReturnUnit?
    ensures StmtExits(s, k) == QUIET
  {
  }

  lemma {:induction false} ExitsOfName(e: Expr, k: Inside)
    requires e.Name?
    ensures ExprExits(e, k) == NONE
  {
  }

  lemma {:induction false} ExitsOfIf(s: Stmt, k: Inside)
    requires s.If?
    ensures StmtExits(s, k) == Both(ExprExits(s.cond, k), Both(ListExits(s.thn, k), ListExits(s.els, k)))
  {
  }

  lemma DeferredLoopOnce()
    ensures DeferLoops(DeferredLoop().head.d, "outer") == 1 && ListLoops(DeferredLoop().tail, "outer") == 0
  {
    hide Inlined;
    assert ListLoops(Cons(Break("outer"), Nil), "outer") == 0;
    assert StmtLoops(OuterLoop(), "outer") == 1;
    assert ListLoops(Cons(OuterLoop(), Nil), "outer") == 1;
    assert ListLoops(Cons(ReturnUnit, Nil), "outer") == 0;
  }

  /** The loop's labels are written at the return and again at the end. */
  lemma DeferredLoopDoublyLabelled()
    ensures ListLoops(DeferredLoop(), "outer") == 2 && !WellLabelled(LowerFunction(DeferredLoop(), true, 0).code)
  {
    hide ListLoops, LowerFunction, WellLabelled, DeferredLoop;
    DeferredLoopTwice();
    WellLabelledIffWrittenOnce(DeferredLoop(), true, 0);
  }

  lemma DeferredLoopTwice()
    ensures ListLoops(DeferredLoop(), "outer") == 2
  {
    hide Inlined, DeferLoops;
    DeferredLoopInlined();
    DeferredLoopOnce();
  }
}
