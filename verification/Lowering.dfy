/** The code the emitter writes for each statement, as a function of the emitter's state: the
    open scopes, the handler that failures go to, the `catch` that `recover` leaves, and the
    number of temporaries used (src/emit/stmt.cpp, src/emit/expr.cpp).  What is deferred is
    written afresh, with new temporaries, at every exit that passes its scope.

    While something deferred is being written, its exits stay above the scopes that were open
    before it: `base` is their number.  It is no field of the emitter, which relies on nothing
    leaving what is deferred; EmitterModel.dfy proves that for checked programs the emitter, which
    has no such bound, writes exactly this code, and LoweringTheorem.dfy that the code means
    what the statement means. */
module Lowering {
  import opened Wrappers
  import opened LuceSource
  import opened CTarget

  /** One entry of `Emitter::scopes`. */
  datatype Scope = Scope(defers: seq<Deferred>, loop: bool, name: string, save: Option<Temp>)

  /** The fields of the emitter that decide what is written. */
  datatype Ctx = Ctx(
    scopes: seq<Scope>, base: nat, failure: Option<nat>, failureScope: nat, catching: Option<nat>, catchScope: nat)

  /** Code, and the temporaries counter after writing it. */
  datatype Low = Low(code: seq<CStmt>, n: nat)
  datatype LowExpr = LowExpr(e: CExpr, n: nat)

  const PLAIN := Scope([], false, "", None)

  function LoopScope(name: string): Scope { Scope([], true, name, None) }

  // ----- how much there is to write -----

  function ExprSize(e: Expr): (r: nat)
    ensures r > 0
  {
    match e
    case Lit(_) => 1
    case Name(_) => 1
    case Call(_, arg) => 1 + ExprSize(arg)
    case Try(_, arg) => 1 + ExprSize(arg)
    case Catch(operand, _, handler) => 1 + ExprSize(operand) + ListSize(handler)
  }

  function StmtSize(s: Stmt): (r: nat)
    ensures r > 0
  {
    match s
    case If(c, thn, els) => 1 + ExprSize(c) + ListSize(thn) + ListSize(els)
    case While(_, c, body) => 1 + ExprSize(c) + ListSize(body)
    case Block(body) => 1 + ListSize(body)
    case With(a, body) => 1 + ExprSize(a) + ListSize(body)
    case ReturnUnit => 1
    case Break(_) => 1
    case Continue(_) => 1
    case Defer(d) => 1 + DeferSize(d)
    case ExprStmt(e) => 1 + ExprSize(e)
    case Assign(_, e) => 1 + ExprSize(e)
    case SetAllocator(e) => 1 + ExprSize(e)
    case Return(e) => 1 + ExprSize(e)
    case Error(e) => 1 + ExprSize(e)
    case Recover(e) => 1 + ExprSize(e)
  }

  function DeferSize(d: Deferred): (r: nat)
    ensures r > StmtSize(d.what)
  {
    1 + StmtSize(d.what)
  }

  function ListSize(ss: Stmts): (r: nat)
    ensures r > 0
  {
    match ss
    case Nil => 1
    case Cons(s, rest) => 1 + StmtSize(s) + ListSize(rest)
  }

  function DefersSize(ds: seq<Deferred>): nat {
    if ds == [] then 0 else DefersSize(ds[..|ds| - 1]) + DeferSize(ds[|ds| - 1])
  }

  function ScopesSize(scopes: seq<Scope>, base: nat): nat
    decreases |scopes|
  {
    if |scopes| <= base then 0 else ScopesSize(scopes[..|scopes| - 1], base) + DefersSize(scopes[|scopes| - 1].defers)
  }

  /** What an exit may still have to write. */
  function Pending(ctx: Ctx): nat { ScopesSize(ctx.scopes, ctx.base) }

  // ----- contexts -----

  predicate Well(ctx: Ctx) { ctx.base <= |ctx.scopes| }

  function Push(ctx: Ctx, sc: Scope): (r: Ctx)
    requires Well(ctx)
    ensures Well(r) && |r.scopes| == |ctx.scopes| + 1
    ensures r.scopes[..|ctx.scopes|] == ctx.scopes && r.scopes[|ctx.scopes|] == sc
    ensures Pending(r) == Pending(ctx) + DefersSize(sc.defers)
  {
    var r := ctx.(scopes := ctx.scopes + [sc]);
    assert r.scopes[..|r.scopes| - 1] == ctx.scopes;
    r
  }

  /** `scopes.back().defers.push_back(d)` */
  function Register(scopes: seq<Scope>, d: Deferred): seq<Scope>
    requires scopes != []
  {
    scopes[|scopes| - 1 := scopes[|scopes| - 1].(defers := scopes[|scopes| - 1].defers + [d])]
  }

  function Registered(ctx: Ctx, d: Deferred): (r: Ctx)
    requires ctx.base < |ctx.scopes|
    ensures r.base < |r.scopes| && Pending(r) == Pending(ctx) + DeferSize(d)
  {
    var n := |ctx.scopes| - 1;
    var r := ctx.(scopes := Register(ctx.scopes, d));
    assert r.scopes[..n] == ctx.scopes[..n];
    var ds := ctx.scopes[n].defers;
    assert (ds + [d])[..|ds|] == ds;
    r
  }

  /** The emitter's state while something deferred is written. */
  function Sealed(ctx: Ctx): (r: Ctx)
    ensures Well(r) && Pending(r) == 0
  {
    ctx.(base := |ctx.scopes|)
  }

  lemma {:induction false} PartOfDefers(ds: seq<Deferred>, i: nat)
    requires i < |ds|
    ensures DeferSize(ds[i]) <= DefersSize(ds)
    decreases |ds|
  {
    if i < |ds| - 1 { PartOfDefers(ds[..|ds| - 1], i); }
  }

  lemma {:induction false} PartOfScopes(scopes: seq<Scope>, base: nat, at: nat, i: nat)
    requires base <= at < |scopes| && i < |scopes[at].defers|
    ensures DeferSize(scopes[at].defers[i]) <= ScopesSize(scopes, base)
    decreases |scopes|
  {
    if at < |scopes| - 1 { PartOfScopes(scopes[..|scopes| - 1], base, at, i); } else { PartOfDefers(scopes[at].defers, i); }
  }

  // ----- cleanup -----

  /** The first `i` deferred statements of the scope `at`, newest first. */
  function DefersCode(ctx: Ctx, at: nat, i: nat, failing: bool, n: nat): (r: Low)
    requires ctx.base <= at < |ctx.scopes| && i <= |ctx.scopes[at].defers|
    ensures n <= r.n
    decreases Pending(ctx), 0, i
  {
    if i == 0 then Low([], n)
    else
      var a := DeferCode(ctx, at, i - 1, failing, n);
      var b := DefersCode(ctx, at, i - 1, failing, a.n);
      Low(a.code + b.code, b.n)
  }

  function DeferCode(ctx: Ctx, at: nat, i: nat, failing: bool, n: nat): (r: Low)
    requires ctx.base <= at < |ctx.scopes| && i < |ctx.scopes[at].defers|
    ensures n <= r.n
    decreases Pending(ctx), 0, i
  {
    var d := ctx.scopes[at].defers[i];
    PartOfScopes(ctx.scopes, ctx.base, at, i);
    if d.onFailure && !failing then Low([], n) else LowerStmt(Sealed(ctx), d.what, n)
  }

  function ScopeCode(ctx: Ctx, at: nat, failing: bool, n: nat): (r: Low)
    requires ctx.base <= at < |ctx.scopes|
    ensures n <= r.n
    decreases Pending(ctx), 1, 0
  {
    var sc := ctx.scopes[at];
    var a := DefersCode(ctx, at, |sc.defers|, failing, n);
    Low(a.code + (if sc.save.Some? then [RestoreAlloc(sc.save.value)] else []), a.n)
  }

  /** The cleanup of the first `k` scopes from `from` inwards, innermost first. */
  function UnwindFrom(ctx: Ctx, k: nat, from: nat, failing: bool, n: nat): (r: Low)
    requires k <= |ctx.scopes|
    ensures n <= r.n
    decreases Pending(ctx), 2, k
  {
    if k <= from || k <= ctx.base then Low([], n)
    else
      var a := ScopeCode(ctx, k - 1, failing, n);
      var b := UnwindFrom(ctx, k - 1, from, failing, a.n);
      Low(a.code + b.code, b.n)
  }

  function UnwindCode(ctx: Ctx, from: nat, failing: bool, n: nat): (r: Low)
    ensures n <= r.n
    decreases Pending(ctx), 3, 0
  {
    UnwindFrom(ctx, |ctx.scopes|, from, failing, n)
  }

  predicate AnyDefers(scopes: seq<Scope>) {
    exists i :: 0 <= i < |scopes| && (scopes[i].defers != [] || scopes[i].save.Some?)
  }

  /** The scope of the loop a jump naming `name` stops at; zero when there is none. */
  function JumpScope(scopes: seq<Scope>, name: string): nat
    decreases |scopes|
  {
    if scopes == [] then 0
    else if scopes[|scopes| - 1].loop && Aims(name, scopes[|scopes| - 1].name) then |scopes| - 1
    else JumpScope(scopes[..|scopes| - 1], name)
  }

  /** A failure held in `t` leaves: to the active handler, or out of the function. */
  function FailureExit(ctx: Ctx, t: Temp, n: nat): (r: Low)
    ensures n <= r.n
    decreases Pending(ctx), 4, 0
  {
    match ctx.failure
    case Some(id) =>
      var u := UnwindCode(ctx, ctx.failureScope, true, n);
      Low([CopyTemp(Temp(CaughtError, id), t)] + u.code + [Goto(Handler(id))], u.n)
    case None =>
      var u := UnwindCode(ctx, 0, true, n);
      Low(u.code + [ReturnSlot(t)], u.n)
  }

  /** The statement expression of a `catch` numbered `id`. */
  function CatchCode(id: nat, operand: CExpr, name: string, handler: seq<CStmt>): seq<CStmt> {
    [ SetTemp(Temp(CatchValue, id), false, CLit(0)),
      SetTemp(Temp(CatchValue, id), false, operand),
      Goto(Done(id)),
      LabelHere(Handler(id)),
      Braces([VarFromTemp(name, Temp(CaughtError, id))] + handler),
      LabelHere(Done(id)) ]
  }

  function WhileCode(loopName: string, c: CExpr, body: seq<CStmt>): seq<CStmt> {
    if loopName == "" then [Loop([BreakUnless(c)] + body)]
    else [Loop([BreakUnless(c)] + body + [LabelHere(ContinueOf(loopName))]), LabelHere(BreakOf(loopName))]
  }

  /** The operand of a `catch` numbered `n`: its failures go to the handler. */
  function OperandCtx(ctx: Ctx, n: nat): Ctx { ctx.(failure := Some(n), failureScope := |ctx.scopes|) }

  function HandlerCtx(ctx: Ctx, n: nat): Ctx { ctx.(catching := Some(n), catchScope := |ctx.scopes|) }

  // ----- expressions and statements -----

  function LowerExpr(ctx: Ctx, e: Expr, n: nat): (r: LowExpr)
    requires Well(ctx)
    ensures n <= r.n
    decreases Pending(ctx) + ExprSize(e), 5, 0
  {
    match e
    case Lit(k) => LowExpr(CLit(k), n)
    case Name(x) => LowExpr(CVar(x), n)
    case Call(f, arg) =>
      var a := LowerExpr(ctx, arg, n);
      LowExpr(CCall(f, a.e), a.n)
    case Try(f, arg) =>
      var t := Temp(ResultTemp, n);
      var a := LowerExpr(ctx, arg, n + 1);
      var x := FailureExit(ctx, t, a.n);
      LowExpr(StmtExpr([CallInto(t, f, a.e), IfFailed(t, x.code)], t), x.n)
    case Catch(operand, x, handler) =>
      var o := LowerExpr(OperandCtx(ctx, n), operand, n + 1);
      var h := LowerBlock(HandlerCtx(ctx, n), handler, o.n);
      LowExpr(StmtExpr(CatchCode(n, o.e, x, h.code), Temp(CatchValue, n)), h.n)
  }

  function LowerStmt(ctx: Ctx, s: Stmt, n: nat): (r: Low)
    requires Well(ctx)
    ensures n <= r.n
    decreases Pending(ctx) + StmtSize(s), 5, 0
  {
    match s
    case ExprStmt(e) => var a := LowerExpr(ctx, e, n); Low([Eval(a.e)], a.n)
    case Assign(x, e) => var a := LowerExpr(ctx, e, n); Low([SetVar(x, a.e)], a.n)
    case SetAllocator(e) => var a := LowerExpr(ctx, e, n); Low([SetAlloc(a.e)], a.n)
    case If(c, thn, els) =>
      var i := LowerExpr(ctx, c, n);
      var a := LowerBlock(ctx, thn, i.n);
      var b := LowerBlock(ctx, els, a.n);
      Low([CIf(i.e, a.code, b.code)], b.n)
    case While(name, c, body) =>
      var inner := Push(ctx, LoopScope(name));
      var i := LowerExpr(inner, c, n);
      var b := LowerBlock(inner, body, i.n);
      Low(WhileCode(name, i.e, b.code), b.n)
    case Block(body) => LowerBlock(ctx, body, n)
    case With(allocator, body) =>
      var save := Temp(SavedAlloc, n);
      var a := LowerExpr(ctx, allocator, n + 1);
      var b := LowerBlock(Push(ctx, PLAIN.(save := Some(save))), body, a.n);
      Low([Braces([SaveAlloc(save), SetAlloc(a.e)] + b.code + [RestoreAlloc(save)])], b.n)
    case Return(e) =>
      var a := LowerExpr(ctx, e, n);
      if AnyDefers(ctx.scopes) then
        var t := Temp(ReturnTemp, a.n);
        var u := UnwindCode(ctx, 0, false, a.n + 1);
        Low([SetTemp(t, false, a.e)] + u.code + [ReturnSlot(t)], u.n)
      else Low([ReturnOk(a.e)], a.n)
    case ReturnUnit =>
      var u := UnwindCode(ctx, 0, false, n);
      Low(u.code + [ReturnOk(CLit(0))], u.n)
    case Error(e) =>
      var t := Temp(ErrorTemp, n);
      var a := LowerExpr(ctx, e, n + 1);
      var x := FailureExit(ctx, t, a.n);
      Low([SetTemp(t, true, a.e)] + x.code, x.n)
    case Break(name) =>
      var u := UnwindCode(ctx, JumpScope(ctx.scopes, name), false, n);
      Low(u.code + [if name == "" then CBreak else Goto(BreakOf(name))], u.n)
    case Continue(name) =>
      var u := UnwindCode(ctx, JumpScope(ctx.scopes, name), false, n);
      Low(u.code + [if name == "" then CContinue else Goto(ContinueOf(name))], u.n)
    case Recover(e) =>
      var a := LowerExpr(ctx, e, n);
      if ctx.catching.Some? then
        var id := ctx.catching.value;
        var u := UnwindCode(ctx, ctx.catchScope, false, a.n);
        Low([SetTemp(Temp(CatchValue, id), false, a.e)] + u.code + [Goto(Done(id))], u.n)
      else
        var u := UnwindCode(ctx, 0, false, a.n);
        Low(u.code + [ReturnOk(a.e)], u.n)
    case Defer(_) => Low([], n)
  }

  /** The statements of a block whose scope is the innermost of `ctx`, and the cleanup of that
      scope when the end is reached. */
  function LowerList(ctx: Ctx, ss: Stmts, n: nat): (r: Low)
    requires ctx.base < |ctx.scopes|
    ensures n <= r.n
    decreases Pending(ctx) + ListSize(ss), 5, 0
  {
    match ss
    case Nil => ScopeCode(ctx, |ctx.scopes| - 1, false, n)
    case Cons(s, rest) =>
      if s.Defer? then
        assert StmtSize(s) == 1 + DeferSize(s.d);
        LowerList(Registered(ctx, s.d), rest, n)
      else
        var a := LowerStmt(ctx, s, n);
        var b := LowerList(ctx, rest, a.n);
        Low(a.code + b.code, b.n)
  }

  function LowerBlock(ctx: Ctx, ss: Stmts, n: nat): (r: Low)
    requires Well(ctx)
    ensures n <= r.n
    decreases Pending(ctx) + ListSize(ss), 6, 0
  {
    var l := LowerList(Push(ctx, PLAIN), ss, n);
    Low([Braces(l.code)], l.n)
  }

  const TOP := Ctx([], 0, None, 0, None, 0)

  /** A whole function: the body in one scope, then the end it may fall off. */
  function LowerFunction(body: Stmts, unit: bool, n: nat): Low {
    var l := LowerList(Push(TOP, PLAIN), body, n);
    Low(l.code + [if unit then ReturnOk(CLit(0)) else TrapUnreachable], l.n)
  }
}
