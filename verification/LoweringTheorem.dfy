/** The simulation behind "lowering cleanup preserves meaning", statement by statement, and the
    theorem for whole functions. */
module LoweringTheorem {
  import opened Wrappers
  import opened LuceSource
  import opened CTarget
  import opened Lowering
  import opened LoweringProof

  /** A checked place in the program, and an emitter state that fits it. */
  predicate Fits(p: Place, ctx: Ctx, n: nat) {
    CtxOk(ctx, n) && p.strict && (p.inCatch ==> ctx.catching.Some?)
  }

  // ----- single statements, given the run of their expression -----

  /** The run of expression code `c` matches evaluating to `a`. */
  ghost predicate Evaluates(w: World, ctx: Ctx, n: nat, c: CExpr, cs: CState, a: Value) {
    var r := CEval(w, c, cs);
    Matches(w, ctx, n, cs.temps, a.out, a.st, CRun(r.out, r.cs)) && (a.out == Normal ==> r.v == a.v)
  }

  /** The run of a statement's code matches the run of the statement. */
  ghost predicate Simulates(w: World, ctx: Ctx, n: nat, s: Stmt, cs: CState)
    requires Well(ctx)
  {
    var r := ExecStmt(w, s, cs.st);
    Matches(w, ctx, n, cs.temps, r.out, r.st, CExec(w, LowerStmt(ctx, s, n).code, cs))
  }

  /** An expression that leaves, leaves C by something else than its normal end. */
  lemma LeavesNotNormal(w: World, ctx: Ctx, n: nat, c: CExpr, cs: CState, a: Value)
    requires Evaluates(w, ctx, n, c, cs, a)
    ensures a.out == Normal <==> CEval(w, c, cs).out == CNormal
  {
    hide Clean, CEval;
    if a.out != Normal { LeaveIsNotNormal(ctx, a.out); }
  }

  /** Code that leaves in its first statement never reaches the rest. */
  lemma LeavesAtOnce(w: World, first: CStmt, rest: seq<CStmt>, cs: CState)
    requires var r := CStep(w, first, cs); r.out != CNormal && (r.out.Jumping? ==> !HasLabel(rest, r.out.to))
    ensures CExec(w, [first] + rest, cs) == CStep(w, first, cs)
  {
    hide CExec, CStep, HasLabel;
    ExecOne(w, first, rest, cs);
  }

  lemma {:induction false} CleanNothing(
    w: World, scopes: seq<Scope>, from: nat, failing: bool, temps: Temps, st: State)
    requires !AnyDefers(scopes)
    ensures Clean(w, scopes, from, failing, temps, st) == Run(Normal, st)
    decreases |scopes|
  {
    if from < |scopes| {
      var outer := scopes[..|scopes| - 1];
      assert scopes[|scopes| - 1].defers == [] && scopes[|scopes| - 1].save.None?;
      assert forall i :: 0 <= i < |outer| ==> outer[i] == scopes[i];
      CleanNothing(w, outer, from, failing, temps, st);
    }
  }

  lemma NothingToClean(w: World, scopes: seq<Scope>, failing: bool, temps: Temps, st: State)
    ensures Clean(w, scopes, |scopes|, failing, temps, st) == Run(Normal, st)
  {
  }

  /** Setting a temporary that is not yet in use or is handed over, then cleanup that keeps it. */
  lemma KeptFrame(ctx: Ctx, o: Outcome, n: nat, m: nat, t: Temp, v: Slot, t0: Temps, t1: Temps, u: CRun)
    requires n <= m && Frame(ctx, Normal, n, t0, t1) && t.id < m
    requires n <= t.id || (HandedOver(ctx, o, t) && HandedOver(ctx, OutOfFuel, t))
    requires Frame(ctx, if u.out == CNormal then Normal else OutOfFuel, m, t1[t := v], u.cs.temps)
    ensures Frame(ctx, if u.out == CNormal then o else OutOfFuel, n, t0, u.cs.temps)
    ensures u.out == CNormal ==> Get(u.cs.temps, t) == v
  {
    var o' := if u.out == CNormal then o else OutOfFuel;
    forall x: Temp | x.id < n && !HandedOver(ctx, o', x) ensures Get(u.cs.temps, x) == Get(t0, x) {
      assert Get(t1, x) == Get(t0, x);
      assert Get(u.cs.temps, x) == Get(t1[t := v], x);
    }
    assert u.out == CNormal ==> Get(u.cs.temps, t) == Get(t1[t := v], t);
  }

  lemma SimReturn(w: World, ctx: Ctx, e: Expr, n: nat, cs: CState)
    requires CtxOk(ctx, n) && Cleans(w, ctx, n, cs.st.turns)
    requires Evaluates(w, ctx, n, LowerExpr(ctx, e, n).e, cs, EvalExpr(w, e, cs.st))
    ensures Simulates(w, ctx, n, Return(e), cs)
  {
    hide Evaluates, Simulates, Cleans, CtxOk, LowerExpr, EvalExpr;
    CtxIsWell(ctx, n);
    if AnyDefers(ctx.scopes) {
      SimReturnKept(w, ctx, e, n, cs);
    } else {
      SimReturnBare(w, ctx, e, n, cs);
    }
  }

  lemma SimReturnKept(w: World, ctx: Ctx, e: Expr, n: nat, cs: CState)
    requires CtxOk(ctx, n) && Cleans(w, ctx, n, cs.st.turns) && AnyDefers(ctx.scopes)
    requires Evaluates(w, ctx, n, LowerExpr(ctx, e, n).e, cs, EvalExpr(w, e, cs.st))
    ensures Simulates(w, ctx, n, Return(e), cs)
  {
    hide CExec, CEval, Clean, UnwindCode, EvalExpr, LowerExpr, Cleans, SavesOk, DefersOk, Frame, AnyDefers, ScopesSize;
    var a := EvalExpr(w, e, cs.st);
    var c := LowerExpr(ctx, e, n);
    var r := CEval(w, c.e, cs);
    LeavesNotNormal(w, ctx, n, c.e, cs, a);
    var t := Temp(ReturnTemp, c.n);
    var first := SetTemp(t, false, c.e);
    if a.out == Normal {
      var cs1 := r.cs.(temps := r.cs.temps[t := Slot(false, r.v)]);
      var u := StepUnwindThen(w, first, ctx, 0, false, ReturnSlot(t), n, c.n + 1, cs, cs1, cs.st.turns);
      KeptFrame(ctx, Returning(a.v), n, c.n + 1, t, Slot(false, r.v), cs.temps, r.cs.temps, u);
    } else {
      LeavesBeforeCleanup(w, first, ctx, 0, ReturnSlot(t), c.n + 1, cs);
    }
  }

  /** An expression that leaves on its own: the cleanup after it is not reached. */
  lemma LeavesBeforeCleanup(w: World, first: CStmt, ctx: Ctx, from: nat, jump: CStmt, m: nat, cs: CState)
    requires DefersOk(ctx.scopes) && !jump.LabelHere? && CStep(w, first, cs).out != CNormal
    ensures CExec(w, [first] + UnwindCode(ctx, from, false, m).code + [jump], cs) == CStep(w, first, cs)
  {
    hide CExec, CStep, UnwindCode, DefersOk, HasLabel;
    var rest := UnwindCode(ctx, from, false, m).code + [jump];
    NothingJumps(CStep(w, first, cs).out, ctx, from, m, jump);
    LeavesAtOnce(w, first, rest, cs);
    assert [first] + UnwindCode(ctx, from, false, m).code + [jump] == [first] + rest;
  }

  lemma SimReturnBare(w: World, ctx: Ctx, e: Expr, n: nat, cs: CState)
    requires Well(ctx) && !AnyDefers(ctx.scopes)
    requires Evaluates(w, ctx, n, LowerExpr(ctx, e, n).e, cs, EvalExpr(w, e, cs.st))
    ensures Simulates(w, ctx, n, Return(e), cs)
  {
    hide CExec, Clean, UnwindCode, EvalExpr, LowerExpr, Frame, AnyDefers;
    var a := EvalExpr(w, e, cs.st);
    var c := LowerExpr(ctx, e, n);
    var r := CEval(w, c.e, cs);
    LeavesNotNormal(w, ctx, n, c.e, cs, a);
    ExecOne(w, ReturnOk(c.e), [], cs);
    CleanNothing(w, ctx.scopes, ctx.base, false, r.cs.temps, r.cs.st);
    if a.out == Normal { FrameAny(ctx, Returning(a.v), n, cs.temps, r.cs.temps); }
  }

  /** No label follows in cleanup and a jump. */
  lemma NothingJumps(o: COutcome, ctx: Ctx, from: nat, m: nat, last: CStmt)
    requires DefersOk(ctx.scopes) && !last.LabelHere?
    ensures o.Jumping? ==> !HasLabel(UnwindCode(ctx, from, false, m).code + [last], o.to)
  {
    hide HasLabel, UnwindCode;
    if o.Jumping? {
      NothingHasNoLabels(o.to);
      JumpHasNoLabels([], ctx, from, false, m, last, o.to);
    }
  }

  lemma SimError(w: World, ctx: Ctx, e: Expr, n: nat, cs: CState)
    requires CtxOk(ctx, n) && Cleans(w, ctx, n, cs.st.turns)
    requires Evaluates(w, ctx, n + 1, LowerExpr(ctx, e, n + 1).e, cs, EvalExpr(w, e, cs.st))
    ensures Simulates(w, ctx, n, Error(e), cs)
  {
    hide CExec, CEval, Clean, EvalExpr, LowerExpr, FailureExit, Cleans, SavesOk, DefersOk, HasLabel, ScopesSize;
    var a := EvalExpr(w, e, cs.st);
    var c := LowerExpr(ctx, e, n + 1);
    var r := CEval(w, c.e, cs);
    var t := Temp(ErrorTemp, n);
    var first := SetTemp(t, true, c.e);
    var leave := FailureExit(ctx, t, c.n).code;
    LeavesNotNormal(w, ctx, n + 1, c.e, cs, a);
    if a.out == Normal {
      var cs1 := r.cs.(temps := r.cs.temps[t := Slot(true, r.v)]);
      ExecOne(w, first, leave, cs);
      FailureRuns(w, ctx, t, n, c.n, cs.temps, cs1, cs.st.turns);
    } else {
      if r.out.Jumping? {
        FailureHasNoLabels(ctx, t, c.n, r.out.to);
      }
      LeavesAtOnce(w, first, leave, cs);
    }
  }

  lemma SimRecover(w: World, ctx: Ctx, e: Expr, n: nat, cs: CState)
    requires CtxOk(ctx, n) && Cleans(w, ctx, n, cs.st.turns) && ctx.catching.Some?
    requires Evaluates(w, ctx, n, LowerExpr(ctx, e, n).e, cs, EvalExpr(w, e, cs.st))
    requires !EvalExpr(w, e, cs.st).out.Recovering?
    ensures Simulates(w, ctx, n, Recover(e), cs)
  {
    hide CExec, CEval, Clean, UnwindCode, EvalExpr, LowerExpr, Cleans, SavesOk, DefersOk, Frame, ScopesSize;
    var a := EvalExpr(w, e, cs.st);
    var c := LowerExpr(ctx, e, n);
    var r := CEval(w, c.e, cs);
    var id := ctx.catching.value;
    LeavesNotNormal(w, ctx, n, c.e, cs, a);
    if a.out == Normal {
      SimRecovered(w, ctx, e, n, cs);
    } else {
      LeavesBeforeCleanup(w, SetTemp(Temp(CatchValue, id), false, c.e), ctx, ctx.catchScope, Goto(Done(id)), c.n, cs);
    }
  }

  /** The value is kept for the `catch` while the cleanup runs. */
  lemma SimRecovered(w: World, ctx: Ctx, e: Expr, n: nat, cs: CState)
    requires CtxOk(ctx, n) && Cleans(w, ctx, n, cs.st.turns) && ctx.catching.Some?
    requires Evaluates(w, ctx, n, LowerExpr(ctx, e, n).e, cs, EvalExpr(w, e, cs.st))
    requires EvalExpr(w, e, cs.st).out == Normal
    ensures Simulates(w, ctx, n, Recover(e), cs)
  {
    hide CExec, CEval, Clean, UnwindCode, EvalExpr, LowerExpr, Cleans, SavesOk, DefersOk, Frame, ScopesSize;
    var a, c, id := EvalExpr(w, e, cs.st), LowerExpr(ctx, e, n), ctx.catching.value;
    var r, t := CEval(w, c.e, cs), Temp(CatchValue, id);
    var cs1 := r.cs.(temps := r.cs.temps[t := Slot(false, r.v)]);
    var u := StepUnwindThen(
      w, SetTemp(t, false, c.e), ctx, ctx.catchScope, false, Goto(Done(id)), n, c.n, cs, cs1, cs.st.turns);
    KeptFrame(ctx, Recovering(a.v), n, c.n, t, Slot(false, r.v), cs.temps, r.cs.temps, u);
  }

  /** `return` of nothing, `break` and `continue`: cleanup, then the jump. */
  lemma SimJump(w: World, ctx: Ctx, s: Stmt, n: nat, cs: CState)
    requires s.ReturnUnit? || s.Break? || s.Continue?
    requires CtxOk(ctx, n) && Cleans(w, ctx, n, cs.st.turns)
    ensures Simulates(w, ctx, n, s, cs)
  {
    if s.ReturnUnit? {
      SimReturnUnit(w, ctx, n, cs);
    } else {
      SimLoopJump(w, ctx, s, n, cs);
    }
  }

  lemma SimReturnUnit(w: World, ctx: Ctx, n: nat, cs: CState)
    requires CtxOk(ctx, n) && Cleans(w, ctx, n, cs.st.turns)
    ensures Simulates(w, ctx, n, ReturnUnit, cs)
  {
    hide CExec, Clean, UnwindCode, Cleans, SavesOk, DefersOk, Frame, ScopesSize;
    var o := ExecStmt(w, ReturnUnit, cs.st).out;
    var u := UnwindThen(w, ctx, 0, false, ReturnOk(CLit(0)), n, n, cs, cs.st.turns);
    if u.out == CNormal { FrameAny(ctx, o, n, cs.temps, u.cs.temps); }
  }

  lemma SimLoopJump(w: World, ctx: Ctx, s: Stmt, n: nat, cs: CState)
    requires s.Break? || s.Continue?
    requires CtxOk(ctx, n) && Cleans(w, ctx, n, cs.st.turns)
    ensures Simulates(w, ctx, n, s, cs)
  {
    hide CExec, Clean, UnwindCode, Cleans, SavesOk, DefersOk, Frame, ScopesSize, JumpScope;
    var o := ExecStmt(w, s, cs.st).out;
    var jump :=
      if s.Break? then (if s.loopName == "" then CBreak else Goto(BreakOf(s.loopName)))
      else (if s.loopName == "" then CContinue else Goto(ContinueOf(s.loopName)));
    var u := UnwindThen(w, ctx, JumpScope(ctx.scopes, s.loopName), false, jump, n, n, cs, cs.st.turns);
    if u.out == CNormal { FrameAny(ctx, o, n, cs.temps, u.cs.temps); }
  }

  /** Expression statements and assignments: one C statement around the expression. */
  lemma SimPlain(w: World, ctx: Ctx, s: Stmt, n: nat, cs: CState)
    requires Well(ctx) && (s.ExprStmt? || s.Assign? || s.SetAllocator?)
    requires Evaluates(w, ctx, n, LowerExpr(ctx, s.e, n).e, cs, EvalExpr(w, s.e, cs.st))
    ensures Simulates(w, ctx, n, s, cs)
  {
    hide CExec, Clean, EvalExpr, LowerExpr;
    LeavesNotNormal(w, ctx, n, LowerExpr(ctx, s.e, n).e, cs, EvalExpr(w, s.e, cs.st));
    ExecOne(w, LowerStmt(ctx, s, n).code[0], [], cs);
  }

  /** A `catch` whose operand did not fail: its value, or the way out it took. */
  lemma CatchPassed(w: World, ctx: Ctx, n: nat, cs: CState, a: Value, ca: CValue)
    requires CtxOk(ctx, n) && !a.out.Failing? && !a.out.Recovering?
    requires Matches(w, OperandCtx(ctx, n), n + 1, cs.temps[Temp(CatchValue, n) := Slot(false, 0)], a.out, a.st,
                     CRun(ca.out, ca.cs))
    requires a.out == Normal ==> ca.v == a.v
    ensures ca.out != Jumping(Handler(n)) && ca.out != Jumping(Done(n))
    ensures ca.out == CNormal <==> a.out == Normal
    ensures
      var t := Temp(CatchValue, n);
      var r := if ca.out == CNormal then CRun(CNormal, ca.cs.(temps := ca.cs.temps[t := Slot(false, ca.v)])) else CRun(ca.out, ca.cs);
      Matches(w, ctx, n, cs.temps, a.out, a.st, r)
  {
    hide Clean, SavesOk, DefersOk;
  }

  /** A `catch` whose handler ran: recovered, fell through, or left. */
  lemma CatchFailed(
    w: World, ctx: Ctx, n: nat, m: nat, cs: CState, t1: Temps, err: nat, h: Run, r: CRun)
    requires CtxOk(ctx, n) && n + 1 <= m
    requires Frame(OperandCtx(ctx, n), Failing(err), n + 1, cs.temps[Temp(CatchValue, n) := Slot(false, 0)], t1)
    requires Matches(w, HandlerCtx(ctx, n), m, t1, h.out, h.st, r)
    ensures
      var out := if h.out.Recovering? then Normal else h.out;
      && Matches(w, ctx, n, cs.temps, out, h.st, Settle(n, r))
      && (h.out == Normal ==> Get(r.cs.temps, Temp(CatchValue, n)).v == 0)
      && (h.out.Recovering? ==> Get(r.cs.temps, Temp(CatchValue, n)).v == h.out.v)
  {
    hide Clean, SavesOk, DefersOk;
    var value := Temp(CatchValue, n);
    var t0 := cs.temps[value := Slot(false, 0)];
    var hctx := HandlerCtx(ctx, n);
    var f := Finish(w, hctx, h.out, r.cs.temps, h.st);
    var out := if h.out.Recovering? then Normal else f.out;
    if h.out.Recovering? { NothingToClean(w, ctx.scopes, false, r.cs.temps, h.st); }
    forall t: Temp | t.id < n && !HandedOver(ctx, out, t)
      ensures Get(r.cs.temps, t) == Get(cs.temps, t)
    {
      assert Get(t1, t) == Get(t0, t);
      assert !HandedOver(hctx, f.out, t);
    }
    if h.out == Normal {
      assert Get(t1, value) == Get(t0, value);
      assert Get(r.cs.temps, value) == Get(t1, value);
    }
  }

  // ----- the whole simulation -----

  /** Everything the open scopes have deferred does what it means, wherever it is written. */
  lemma {:induction false} CleansAll(w: World, ctx: Ctx, n: nat, limit: nat)
    requires CtxOk(ctx, n)
    ensures Cleans(w, ctx, n, limit)
    decreases limit, Pending(ctx), 9
  {
    hide Matches, CExec, ExecStmt, LowerStmt, StmtOk;
    forall at: nat, i: nat, m: nat, cs: CState |
      ctx.base <= at < |ctx.scopes| && i < |ctx.scopes[at].defers| && n <= m && cs.st.turns <= limit
      ensures DeferSim(w, ctx, at, i, m, cs)
    {
      var d := ctx.scopes[at].defers[i];
      assert DeferOk(d, SEALED);
      PartOfScopes(ctx.scopes, ctx.base, at, i);
      SimStmt(w, Sealed(ctx), d.what, m, SEALED, cs);
      StmtLeavesAllowed(w, d.what, cs.st, SEALED);
    }
  }

  lemma {:induction false} SimExpr(w: World, ctx: Ctx, e: Expr, n: nat, p: Place, cs: CState)
    requires ExprOk(e, p) && CtxOk(ctx, n) && p.strict
    ensures Evaluates(w, ctx, n, LowerExpr(ctx, e, n).e, cs, EvalExpr(w, e, cs.st))
    decreases cs.st.turns, Pending(ctx) + ExprSize(e), 1
  {
    hide Clean, CtxOk, CExec;
    assert Well(ctx) by { CtxIsWell(ctx, n); }
    match e
    case Lit(_) =>
    case Name(_) =>
    case Call(f, arg) =>
      SimExpr(w, ctx, arg, n, p, cs);
      LeavesNotNormal(w, ctx, n, LowerExpr(ctx, arg, n).e, cs, EvalExpr(w, arg, cs.st));
    case Try(f, arg) =>
      CtxNext(ctx, n);
      SimExpr(w, ctx, arg, n + 1, p, cs);
      CleansAll(w, ctx, n, cs.st.turns);
      var a := EvalExpr(w, arg, cs.st);
      var c := LowerExpr(ctx, arg, n + 1);
      TryRuns(w, ctx, f, c.e, n, c.n, cs, a.out, a.v, a.st, cs.st.turns);
    case Catch(operand, x, handler) =>
      SimCatch(w, ctx, e, n, p, cs);
  }

  lemma CtxIsWell(ctx: Ctx, n: nat)
    requires CtxOk(ctx, n)
    ensures Well(ctx)
  {
  }

  lemma CtxNext(ctx: Ctx, n: nat)
    requires CtxOk(ctx, n)
    ensures CtxOk(ctx, n + 1)
  {
  }

  lemma CtxLater(ctx: Ctx, n: nat, m: nat)
    requires CtxOk(ctx, n) && n <= m
    ensures CtxOk(ctx, m)
  {
  }

  lemma CtxCatch(ctx: Ctx, n: nat, m: nat)
    requires CtxOk(ctx, n) && n < m
    ensures CtxOk(OperandCtx(ctx, n), m) && CtxOk(HandlerCtx(ctx, n), m)
    ensures Pending(OperandCtx(ctx, n)) == Pending(ctx) && Pending(HandlerCtx(ctx, n)) == Pending(ctx)
  {
  }

  lemma CtxPush(ctx: Ctx, sc: Scope, n: nat)
    requires CtxOk(ctx, n) && sc.defers == [] && (sc.save.Some? ==> sc.save.value.kind == SavedAlloc && sc.save.value.id < n)
    ensures CtxOk(Push(ctx, sc), n)
  {
    var after := Push(ctx, sc).scopes;
    assert forall i :: 0 <= i < |after| ==> after[i] == if i < |ctx.scopes| then ctx.scopes[i] else sc;
    hide DeferOk;
  }

  lemma {:induction false} SimCatch(w: World, ctx: Ctx, e: Expr, n: nat, p: Place, cs: CState)
    requires e.Catch? && ExprOk(e, p) && CtxOk(ctx, n) && p.strict
    ensures Evaluates(w, ctx, n, LowerExpr(ctx, e, n).e, cs, EvalExpr(w, e, cs.st))
    decreases cs.st.turns, Pending(ctx) + ExprSize(e), 0
  {
    hide CExec, CStep, Clean, ExecBlock, LowerBlock, CatchCode, Frame, SavesOk, DefersOk, StmtsOk;
    var value := Temp(CatchValue, n);
    var octx, hctx := OperandCtx(ctx, n), HandlerCtx(ctx, n);
    CtxCatch(ctx, n, n + 1);
    var o := LowerExpr(octx, e.operand, n + 1);
    CtxCatch(ctx, n, o.n);
    var h := LowerBlock(hctx, e.handler, o.n);
    var cs1 := cs.(temps := cs.temps[value := Slot(false, 0)]);
    var a := EvalExpr(w, e.operand, cs.st);
    var ca := CEval(w, o.e, cs1);
    SimExpr(w, octx, e.operand, n + 1, p.(mayFail := true), cs1);
    ExprLeavesAllowed(w, e.operand, cs.st, p.(mayFail := true));
    CatchRuns(w, n, o.e, e.name, h.code, cs);
    if a.out.Failing? {
      NothingToClean(w, ctx.scopes, true, ca.cs.temps, a.st);
      var st1 := a.st.(vars := a.st.vars[e.name := a.out.err]);
      var cs2 := ca.cs.(st := st1);
      SimBlock(w, hctx, e.handler, o.n, p.(inCatch := true), cs2);
      CatchFailed(w, ctx, n, o.n, cs, ca.cs.temps, a.out.err, ExecBlock(w, e.handler, st1), CExec(w, h.code, cs2));
    } else {
      CatchPassed(w, ctx, n, cs, a, ca);
    }
  }

  lemma {:induction false} SimStmt(w: World, ctx: Ctx, s: Stmt, n: nat, p: Place, cs: CState)
    requires StmtOk(s, p) && Fits(p, ctx, n) && !s.Defer?
    ensures Simulates(w, ctx, n, s, cs)
    decreases cs.st.turns, Pending(ctx) + StmtSize(s), 2
  {
    hide CExec, Clean, Simulates, Evaluates, CtxOk, Cleans;
    match s
    case ExprStmt(e) =>
      SimExpr(w, ctx, e, n, p, cs);
      CtxIsWell(ctx, n);
      SimPlain(w, ctx, s, n, cs);
    case Assign(_, e) =>
      SimExpr(w, ctx, e, n, p, cs);
      CtxIsWell(ctx, n);
      SimPlain(w, ctx, s, n, cs);
    case SetAllocator(e) =>
      SimExpr(w, ctx, e, n, p, cs);
      CtxIsWell(ctx, n);
      SimPlain(w, ctx, s, n, cs);
    case Return(e) =>
      SimExpr(w, ctx, e, n, p, cs);
      CleansAll(w, ctx, n, cs.st.turns);
      SimReturn(w, ctx, e, n, cs);
    case Error(e) =>
      CtxNext(ctx, n);
      SimExpr(w, ctx, e, n + 1, p, cs);
      CleansAll(w, ctx, n, cs.st.turns);
      SimError(w, ctx, e, n, cs);
    case Recover(e) =>
      SimExpr(w, ctx, e, n, p, cs);
      ExprLeavesAllowed(w, e, cs.st, p);
      CleansAll(w, ctx, n, cs.st.turns);
      SimRecover(w, ctx, e, n, cs);
    case If(_, _, _) => SimIf(w, ctx, s, n, p, cs);
    case While(_, _, _) => SimWhile(w, ctx, s, n, p, cs);
    case Block(body) =>
      CtxIsWell(ctx, n);
      SimBlock(w, ctx, body, n, p, cs);
      BlockIsStmt(w, ctx, body, n, cs);
    case With(_, _) => SimWith(w, ctx, s, n, p, cs);
    case ReturnUnit =>
      CleansAll(w, ctx, n, cs.st.turns);
      SimJump(w, ctx, s, n, cs);
    case Break(_) =>
      CleansAll(w, ctx, n, cs.st.turns);
      SimJump(w, ctx, s, n, cs);
    case Continue(_) =>
      CleansAll(w, ctx, n, cs.st.turns);
      SimJump(w, ctx, s, n, cs);
  }

  /** The run of a block's code matches the run of the block. */
  ghost predicate BlockSimulates(w: World, ctx: Ctx, n: nat, ss: Stmts, cs: CState)
    requires Well(ctx)
  {
    var r := ExecBlock(w, ss, cs.st);
    Matches(w, ctx, n, cs.temps, r.out, r.st, CExec(w, LowerBlock(ctx, ss, n).code, cs))
  }

  lemma BlockIsStmt(w: World, ctx: Ctx, ss: Stmts, n: nat, cs: CState)
    requires Well(ctx) && BlockSimulates(w, ctx, n, ss, cs)
    ensures Simulates(w, ctx, n, Block(ss), cs)
  {
    hide CExec, Clean, LowerBlock, ExecBlock;
  }

  lemma {:induction false} SimIf(w: World, ctx: Ctx, s: Stmt, n: nat, p: Place, cs: CState)
    requires s.If? && StmtOk(s, p) && Fits(p, ctx, n)
    ensures Simulates(w, ctx, n, s, cs)
    decreases cs.st.turns, Pending(ctx) + StmtSize(s), 1
  {
    hide CExec, Clean, LowerBlock, ExecBlock, LowerExpr, EvalExpr, SavesOk, DefersOk, StmtsOk, ExprOk;
    var i := LowerExpr(ctx, s.cond, n);
    var a := LowerBlock(ctx, s.thn, i.n);
    var b := LowerBlock(ctx, s.els, a.n);
    var v, cv := EvalExpr(w, s.cond, cs.st), CEval(w, i.e, cs);
    SimExpr(w, ctx, s.cond, n, p, cs);
    LeavesNotNormal(w, ctx, n, i.e, cs, v);
    ExecOne(w, CIf(i.e, a.code, b.code), [], cs);
    if v.out == Normal {
      var branch, m := if v.v != 0 then s.thn else s.els, if v.v != 0 then i.n else a.n;
      CtxLater(ctx, n, m);
      SimBlock(w, ctx, branch, m, p, cv.cs);
      var r := ExecBlock(w, branch, v.st);
      MatchesAfter(w, ctx, n, m, cs.temps, cv.cs.temps, r.out, r.st, CExec(w, LowerBlock(ctx, branch, m).code, cv.cs));
    }
  }

  lemma {:induction false} SimBlock(w: World, ctx: Ctx, ss: Stmts, n: nat, p: Place, cs: CState)
    requires StmtsOk(ss, p) && Fits(p, ctx, n)
    ensures BlockSimulates(w, ctx, n, ss, cs)
    decreases cs.st.turns, Pending(ctx) + ListSize(ss), 1
  {
    hide CExec, Clean, LowerList, ExecBlock, SavesOk, DefersOk;
    SimList(w, ctx, [], ss, n, p, cs);
    LeavingNothing(w, ExecBlock(w, ss, cs.st));
    assert PLAIN.(defers := []) == PLAIN;
    ExecOne(w, Braces(LowerList(Push(ctx, PLAIN), ss, n).code), [], cs);
  }

  /** The rest of a block whose scope has deferred `reached`. */
  ghost predicate ListSimulates(
    w: World, ctx: Ctx, reached: seq<Deferred>, ss: Stmts, n: nat, cs: CState)
    requires Well(ctx)
  {
    var r := Leaving(w, reached, ExecBlock(w, ss, cs.st));
    Matches(w, ctx, n, cs.temps, r.out, r.st,
            CExec(w, LowerList(Push(ctx, PLAIN.(defers := reached)), ss, n).code, cs))
  }

  lemma {:induction false} SimList(
    w: World, ctx: Ctx, reached: seq<Deferred>, ss: Stmts, n: nat, p: Place, cs: CState)
    requires StmtsOk(ss, p) && Fits(p, ctx, n)
    requires forall i :: 0 <= i < |reached| ==> DeferOk(reached[i], SEALED)
    ensures ListSimulates(w, ctx, reached, ss, n, cs)
    decreases cs.st.turns, Pending(ctx) + DefersSize(reached) + ListSize(ss), 0
  {
    hide ListSimulates, CExec, Clean, LowerStmt, LowerList, ExecStmt, ExecBlock, DeferOk, StmtOk;
    var inner := Push(ctx, PLAIN.(defers := reached));
    ReachedCtx(ctx, reached, n);
    match ss
    case Nil => EndOfList(w, ctx, reached, n, cs);
    case Cons(s, rest) =>
      if s.Defer? {
        StrictDefer(s, p);
        assert (reached + [s.d])[..|reached|] == reached;
        assert StmtSize(s) == 1 + DeferSize(s.d);
        SimList(w, ctx, reached + [s.d], rest, n, p, cs);
        ListDefers(w, ctx, reached, s, rest, n, cs);
      } else {
        SimStmt(w, inner, s, n, p, cs);
        var a := LowerStmt(inner, s, n);
        var cr := CExec(w, a.code, cs);
        if ExecStmt(w, s, cs.st).out == Normal {
          CtxLater(ctx, n, a.n);
          SimList(w, ctx, reached, rest, a.n, p, cr.cs);
          ListGoesOn(w, ctx, reached, s, rest, n, cs);
        } else {
          StmtLeavesAllowed(w, s, cs.st, p);
          if cr.out.Jumping? { ListHasNoLabels(inner, rest, a.n, p, cr.out.to); }
          ListLeaves(w, ctx, reached, s, rest, n, p, cs);
        }
      }
  }

  lemma ReachedCtx(ctx: Ctx, reached: seq<Deferred>, n: nat)
    requires CtxOk(ctx, n) && forall i :: 0 <= i < |reached| ==> DeferOk(reached[i], SEALED)
    ensures CtxOk(Push(ctx, PLAIN.(defers := reached)), n)
  {
    hide DeferOk;
    var sc := PLAIN.(defers := reached);
    var after := Push(ctx, sc).scopes;
    assert forall i :: 0 <= i < |after| ==> after[i] == if i < |ctx.scopes| then ctx.scopes[i] else sc;
  }

  lemma RegisterReached(ctx: Ctx, reached: seq<Deferred>, d: Deferred)
    requires Well(ctx)
    ensures Registered(Push(ctx, PLAIN.(defers := reached)), d) == Push(ctx, PLAIN.(defers := reached + [d]))
  {
    hide ScopesSize;
    assert Register(Push(ctx, PLAIN.(defers := reached)).scopes, d) == Push(ctx, PLAIN.(defers := reached + [d])).scopes;
  }

  /** The end of a block: what it has deferred runs. */
  lemma {:induction false} EndOfList(w: World, ctx: Ctx, reached: seq<Deferred>, n: nat, cs: CState)
    requires Well(ctx) && CtxOk(Push(ctx, PLAIN.(defers := reached)), n)
    ensures ListSimulates(w, ctx, reached, Nil, n, cs)
    decreases cs.st.turns, Pending(ctx) + DefersSize(reached), 10
  {
    hide CExec, Clean, RunDefers, ScopeCode, Cleans, SavesOk, DefersOk;
    var inner := Push(ctx, PLAIN.(defers := reached));
    CleansAll(w, inner, n, cs.st.turns);
    ScopeRun(w, inner, |ctx.scopes|, false, n, n, cs, cs.st.turns);
    SameHandedOver(ctx, PLAIN.(defers := reached));
  }

  lemma SameHandedOver(ctx: Ctx, sc: Scope)
    requires Well(ctx)
    ensures forall o: Outcome, t: Temp :: HandedOver(Push(ctx, sc), o, t) == HandedOver(ctx, o, t)
  {
  }

  /** A statement that ended, then the rest of the block. */
  lemma ListGoesOn(w: World, ctx: Ctx, reached: seq<Deferred>, s: Stmt, rest: Stmts, n: nat, cs: CState)
    requires Well(ctx) && !s.Defer?
    requires
      var inner := Push(ctx, PLAIN.(defers := reached));
      var a := LowerStmt(inner, s, n);
      && Simulates(w, inner, n, s, cs) && ExecStmt(w, s, cs.st).out == Normal
      && ListSimulates(w, ctx, reached, rest, a.n, CExec(w, a.code, cs).cs)
    ensures ListSimulates(w, ctx, reached, Cons(s, rest), n, cs)
  {
    hide CExec, Clean, RunDefers, LowerStmt, ExecStmt, ScopesSize, Leaving;
    var inner := Push(ctx, PLAIN.(defers := reached));
    var a := LowerStmt(inner, s, n);
    var b := LowerList(inner, rest, a.n);
    var cr := CExec(w, a.code, cs);
    var q := Leaving(w, reached, ExecBlock(w, rest, cr.cs.st));
    ExecAppend(w, a.code, b.code, cs);
    assert Frame(ctx, Normal, n, cs.temps, cr.cs.temps);
    MatchesAfter(w, ctx, n, a.n, cs.temps, cr.cs.temps, q.out, q.st, CExec(w, b.code, cr.cs));
  }

  /** `defer`: nothing runs yet, and one more is reached. */
  lemma ListDefers(w: World, ctx: Ctx, reached: seq<Deferred>, s: Stmt, rest: Stmts, n: nat, cs: CState)
    requires Well(ctx) && s.Defer? && ListSimulates(w, ctx, reached + [s.d], rest, n, cs)
    ensures ListSimulates(w, ctx, reached, Cons(s, rest), n, cs)
  {
    hide CExec, Clean, RunDefers, LowerStmt, ExecStmt, ScopeCode, CleanScope, Leaving;
    RegisterReached(ctx, reached, s.d);
    LeavingMore(w, reached, s.d, ExecBlock(w, rest, cs.st));
  }

  /** A statement that left the block: its code has cleaned up already. */
  lemma ListLeaves(
    w: World, ctx: Ctx, reached: seq<Deferred>, s: Stmt, rest: Stmts, n: nat, p: Place, cs: CState)
    requires CtxOk(ctx, n) && !s.Defer?
    requires
      var inner := Push(ctx, PLAIN.(defers := reached));
      var a := LowerStmt(inner, s, n);
      var cr := CExec(w, a.code, cs);
      && Simulates(w, inner, n, s, cs) && ExecStmt(w, s, cs.st).out != Normal
      && (cr.out.Jumping? ==> !HasLabel(LowerList(inner, rest, a.n).code, cr.out.to))
    ensures ListSimulates(w, ctx, reached, Cons(s, rest), n, cs)
  {
    hide CExec, Clean, RunDefers, LowerStmt, ExecStmt, ScopesSize, HasLabel, SavesOk, DefersOk;
    var sc := PLAIN.(defers := reached);
    var inner := Push(ctx, sc);
    var a := LowerStmt(inner, s, n);
    var r := ExecStmt(w, s, cs.st);
    var cr := CExec(w, a.code, cs);
    ExecAppend(w, a.code, LowerList(inner, rest, a.n).code, cs);
    LeaveIsNotNormal(inner, r.out);
    if r.out != OutOfFuel {
      PopScope(w, ctx, sc, n, cs.temps, r.out, r.st, cr);
    } else {
      SameHandedOver(ctx, sc);
    }
  }

  // ----- with -----

  lemma {:induction false} SimWith(w: World, ctx: Ctx, s: Stmt, n: nat, p: Place, cs: CState)
    requires s.With? && StmtOk(s, p) && Fits(p, ctx, n)
    ensures Simulates(w, ctx, n, s, cs)
    decreases cs.st.turns, Pending(ctx) + StmtSize(s), 1
  {
    hide CExec, Clean, LowerBlock, LowerExpr, EvalExpr, ExecBlock, HasLabel, SavesOk, DefersOk, StmtsOk, ExprOk, Frame;
    var save := Temp(SavedAlloc, n);
    var sc := PLAIN.(save := Some(save));
    var a := LowerExpr(ctx, s.allocator, n + 1);
    var b := LowerBlock(Push(ctx, sc), s.body, a.n);
    var cs1 := cs.(temps := cs.temps[save := Slot(false, cs.st.alloc)]);
    var v := EvalExpr(w, s.allocator, cs.st);
    var cv := CEval(w, a.e, cs1);
    WithStarts(w, save, a.e, b.code, cs);
    CtxNext(ctx, n);
    SimExpr(w, ctx, s.allocator, n + 1, p, cs1);
    LeavesNotNormal(w, ctx, n + 1, a.e, cs1, v);
    FrameSame(ctx, Normal, n, cs.temps);
    NewTemp(ctx, n, save, Slot(false, cs.st.alloc), cs.temps, cs.temps);
    if v.out != Normal {
      if cv.out.Jumping? {
        BracesThenOneNoLabels(Push(ctx, sc), s.body, a.n, RestoreAlloc(save), cv.out.to);
      }
      MatchesAfter(w, ctx, n, n + 1, cs.temps, cs1.temps, v.out, v.st, CRun(cv.out, cv.cs));
    } else {
      CtxLater(ctx, n, a.n);
      CtxPush(ctx, sc, a.n);
      var cs2 := cv.cs.(st := cv.cs.st.(alloc := cv.v));
      var br := CExec(w, b.code, cs2);
      var body := ExecBlock(w, s.body, cs2.st);
      SimBlock(w, Push(ctx, sc), s.body, a.n, p, cs2);
      ExecAppend(w, b.code, [RestoreAlloc(save)], cs2);
      FrameThen(ctx, Normal, n, n + 1, cs.temps, cs1.temps, cs2.temps);
      KeepsSave(ctx, n, a.n, sc, Finish(w, Push(ctx, sc), body.out, br.cs.temps, body.st).out,
                cs1.temps, cs2.temps, br.cs.temps);
      ExecOne(w, RestoreAlloc(save), [], br.cs);
      WithEnds(w, ctx, save, n, a.n, cs, cs2, body, br);
      if br.out.Jumping? {
        OneHasNoLabels(RestoreAlloc(save), br.out.to);
      }
    }
  }

  /** The allocator saved at the start of a `with` is still there at its end. */
  lemma KeepsSave(ctx: Ctx, n: nat, m: nat, sc: Scope, o: Outcome, t1: Temps, t2: Temps, t3: Temps)
    requires Well(ctx) && n < m && sc.save == Some(Temp(SavedAlloc, n))
    requires Frame(ctx, Normal, n + 1, t1, t2) && Frame(Push(ctx, sc), o, m, t2, t3)
    ensures Get(t3, Temp(SavedAlloc, n)) == Get(t1, Temp(SavedAlloc, n))
  {
    var save := Temp(SavedAlloc, n);
    assert Get(t2, save) == Get(t1, save) && Get(t3, save) == Get(t2, save);
  }

  lemma WithStarts(w: World, save: Temp, allocator: CExpr, body: seq<CStmt>, cs: CState)
    ensures
      var cs1 := cs.(temps := cs.temps[save := Slot(false, cs.st.alloc)]);
      CExec(w, [Braces([SaveAlloc(save), SetAlloc(allocator)] + body + [RestoreAlloc(save)])], cs)
      == GoOn(w, CStep(w, SetAlloc(allocator), cs1), body + [RestoreAlloc(save)])
  {
    hide CExec, CEval;
    var cs1 := cs.(temps := cs.temps[save := Slot(false, cs.st.alloc)]);
    var rest := body + [RestoreAlloc(save)];
    var all := [SaveAlloc(save), SetAlloc(allocator)] + body + [RestoreAlloc(save)];
    assert all == [SaveAlloc(save)] + ([SetAlloc(allocator)] + rest);
    ExecOne(w, Braces(all), [], cs);
    ExecOne(w, SaveAlloc(save), [SetAlloc(allocator)] + rest, cs);
    ExecOne(w, SetAlloc(allocator), rest, cs1);
  }

  lemma BracesThenOneNoLabels(ctx: Ctx, ss: Stmts, n: nat, last: CStmt, l: Label)
    requires Well(ctx) && last != LabelHere(l)
    ensures !HasLabel(LowerBlock(ctx, ss, n).code + [last], l)
  {
    hide HasLabel, LowerList;
    var code := LowerBlock(ctx, ss, n).code;
    OneHasNoLabels(code[0], l);
    OneHasNoLabels(last, l);
    assert code == [code[0]];
    LabelsOfAppend(code, [last], l);
  }

  /** Leaving a `with`: the saved allocator is back, by the last line or by the way out. */
  lemma WithEnds(
    w: World, ctx: Ctx, save: Temp, n: nat, m: nat, cs: CState, cs2: CState, body: Run, br: CRun)
    requires n <= m && CtxOk(ctx, m)
    requires Frame(ctx, Normal, n, cs.temps, cs2.temps)
    requires Matches(w, Push(ctx, PLAIN.(save := Some(save))), m, cs2.temps, body.out, body.st, br)
    requires Get(br.cs.temps, save).v == cs.st.alloc
    ensures
      var st := if body.out == OutOfFuel then body.st else body.st.(alloc := cs.st.alloc);
      var r := if br.out == CNormal then CRun(CNormal, br.cs.(st := br.cs.st.(alloc := Get(br.cs.temps, save).v))) else br;
      Matches(w, ctx, n, cs.temps, body.out, st, r)
  {
    hide Clean, SavesOk, DefersOk, Frame;
    var sc := PLAIN.(save := Some(save));
    var st := if body.out == OutOfFuel then body.st else body.st.(alloc := cs.st.alloc);
    var r := if br.out == CNormal then CRun(CNormal, br.cs.(st := br.cs.st.(alloc := Get(br.cs.temps, save).v))) else br;
    if body.out != Normal && body.out != OutOfFuel {
      PopScope(w, ctx, sc, m, cs2.temps, body.out, body.st, br);
      assert CleanScope(w, sc, body.out.Failing?, br.cs.temps, body.st) == Run(Normal, st);
    } else {
      FramePushed(ctx, sc, body.out, m, cs2.temps, br.cs.temps);
    }
    assert Matches(w, ctx, m, cs2.temps, body.out, st, r);
    MatchesAfter(w, ctx, n, m, cs.temps, cs2.temps, body.out, st, r);
  }

  lemma FramePushed(ctx: Ctx, sc: Scope, o: Outcome, n: nat, t0: Temps, t1: Temps)
    requires Well(ctx)
    ensures Frame(Push(ctx, sc), o, n, t0, t1) <==> Frame(ctx, o, n, t0, t1)
  {
    SameHandedOver(ctx, sc);
  }

  // ----- loops -----

  function LoopBody(name: string, c: CExpr, body: seq<CStmt>): seq<CStmt> {
    if name == "" then [BreakUnless(c)] + body else [BreakUnless(c)] + body + [LabelHere(ContinueOf(name))]
  }

  /** A jump to the loop's own continue label ends its body. */
  function EndBody(name: string, r: CRun): CRun {
    if name != "" && r.out == Jumping(ContinueOf(name)) then CRun(CNormal, r.cs) else r
  }

  /** A jump to the loop's own break label ends the loop. */
  function EndLoop(name: string, r: CRun): CRun {
    if name != "" && r.out == Jumping(BreakOf(name)) then CRun(CNormal, r.cs) else r
  }

  /** The body's code is one block: nothing in front of it lands in it. */
  lemma LoopBodyRuns(w: World, name: string, c: CExpr, body: seq<CStmt>, cs: CState)
    requires |body| == 1 && !body[0].LabelHere?
    ensures
      var a := CEval(w, c, cs);
      CExec(w, LoopBody(name, c, body), cs)
      == if a.out != CNormal then EndBody(name, CRun(a.out, a.cs))
         else if a.v == 0 then CRun(CBreaking, a.cs)
         else EndBody(name, CExec(w, body, a.cs))
  {
    hide CExec, HasLabel;
    var a := CEval(w, c, cs);
    var r := CStep(w, BreakUnless(c), cs);
    assert body == [body[0]];
    if a.out.Jumping? { OneHasNoLabels(body[0], a.out.to); }
    if name == "" {
      ExecOne(w, BreakUnless(c), body, cs);
    } else {
      var last := LabelHere(ContinueOf(name));
      assert LoopBody(name, c, body) == [BreakUnless(c)] + (body + [last]);
      ExecOne(w, BreakUnless(c), body + [last], cs);
      if a.out == CNormal {
        ExecAppend(w, body, [last], a.cs);
        OneLabelRuns(w, ContinueOf(name), CExec(w, body, a.cs));
      } else {
        if a.out.Jumping? { LabelsOfAppend(body, [last], a.out.to); }
        OneLabelRuns(w, ContinueOf(name), CRun(a.out, a.cs));
      }
    }
  }

  lemma BlockIsOne(ctx: Ctx, ss: Stmts, n: nat)
    requires Well(ctx)
    ensures |LowerBlock(ctx, ss, n).code| == 1 && !LowerBlock(ctx, ss, n).code[0].LabelHere?
  {
    hide LowerList;
  }

  /** Code that ends in one label: jumps to it end there, others pass. */
  lemma OneLabelRuns(w: World, l: Label, r: CRun)
    ensures GoOn(w, r, [LabelHere(l)]) == if r.out == Jumping(l) then CRun(CNormal, r.cs) else r
    ensures HasLabel([LabelHere(l)], l) && After([LabelHere(l)], l) == []
    ensures forall k: Label :: k != l ==> !HasLabel([LabelHere(l)], k)
  {
    hide CExec;
    assert [LabelHere(l)][1..] == [];
    ExecNothing(w, r.cs);
    ExecOne(w, LabelHere(l), [], r.cs);
    forall k: Label | k != l ensures !HasLabel([LabelHere(l)], k) {
      OneHasNoLabels(LabelHere(l), k);
    }
  }

  lemma WhileRuns(w: World, name: string, c: CExpr, body: seq<CStmt>, cs: CState)
    ensures CExec(w, WhileCode(name, c, body), cs)
         == EndLoop(name, CStep(w, Loop(LoopBody(name, c, body)), cs))
  {
    hide CExec, CStep;
    var loop := Loop(LoopBody(name, c, body));
    if name == "" {
      ExecOne(w, loop, [], cs);
    } else {
      var last := LabelHere(BreakOf(name));
      assert WhileCode(name, c, body) == [loop] + [last];
      ExecOne(w, loop, [last], cs);
      OneLabelRuns(w, BreakOf(name), CStep(w, loop, cs));
    }
  }

  /** The condition and the body of a loop, lowered in the loop's own scope. */
  function LoopParts(ctx: Ctx, s: Stmt, n: nat): (CExpr, nat, seq<CStmt>)
    requires Well(ctx) && s.While?
  {
    var inner := Push(ctx, LoopScope(s.loopName));
    var i := LowerExpr(inner, s.cond, n);
    (i.e, i.n, LowerBlock(inner, s.body, i.n).code)
  }

  lemma {:induction false} SimWhile(w: World, ctx: Ctx, s: Stmt, n: nat, p: Place, cs: CState)
    requires s.While? && StmtOk(s, p) && Fits(p, ctx, n)
    ensures Simulates(w, ctx, n, s, cs)
    decreases cs.st.turns, Pending(ctx) + StmtSize(s), 1
  {
    hide CExec, CStep, Clean, ExecStmt, LowerBlock, LowerExpr, SavesOk, DefersOk, StmtOk;
    var parts := LoopParts(ctx, s, n);
    SimLoop(w, ctx, s, n, p, cs);
    WhileRuns(w, s.loopName, parts.0, parts.2, cs);
  }

  ghost predicate LoopSimulates(w: World, ctx: Ctx, s: Stmt, n: nat, cs: CState)
    requires Well(ctx) && s.While?
  {
    var parts := LoopParts(ctx, s, n);
    var r := ExecStmt(w, s, cs.st);
    Matches(w, ctx, n, cs.temps, r.out, r.st,
            EndLoop(s.loopName, CStep(w, Loop(LoopBody(s.loopName, parts.0, parts.2)), cs)))
  }

  /** The loop statement itself, turn by turn. */
  lemma {:induction false} SimLoop(w: World, ctx: Ctx, s: Stmt, n: nat, p: Place, cs: CState)
    requires s.While? && StmtOk(s, p) && Fits(p, ctx, n)
    ensures LoopSimulates(w, ctx, s, n, cs)
    decreases cs.st.turns, Pending(ctx) + StmtSize(s), 0
  {
    hide CExec, Clean, LowerBlock, LowerExpr, EvalExpr, ExecBlock, SavesOk, DefersOk, StmtsOk, ExprOk, Frame;
    var name := s.loopName;
    var sc := LoopScope(name);
    var parts := LoopParts(ctx, s, n);
    CtxPush(ctx, sc, n);
    if cs.st.turns == 0 {
      FrameSame(ctx, OutOfFuel, n, cs.temps);
    } else {
      var cs0 := Turn(cs);
      var v, cv := EvalExpr(w, s.cond, cs0.st), CEval(w, parts.0, cs0);
      var q := p.(inLoop := false);
      SimExpr(w, Push(ctx, sc), s.cond, n, q, cs0);
      ExprLeavesAllowed(w, s.cond, cs0.st, q);
      LeavesNotNormal(w, Push(ctx, sc), n, parts.0, cs0, v);
      BlockIsOne(Push(ctx, sc), s.body, parts.1);
      LoopBodyRuns(w, name, parts.0, parts.2, cs0);
      if v.out != Normal {
        ConditionLeaves(w, ctx, name, n, p, cs.temps, v, CRun(cv.out, cv.cs));
      } else {
        FramePushed(ctx, sc, Normal, n, cs.temps, cv.cs.temps);
        if v.v != 0 {
          SimTurn(w, ctx, s, n, p, cs);
        }
      }
    }
  }

  /** A condition that leaves: by a labelled jump past the loop, a failure or a return. */
  lemma ConditionLeaves(w: World, ctx: Ctx, name: string, n: nat, p: Place, t0: Temps, v: Value, r: CRun)
    requires CtxOk(ctx, n) && Matches(w, Push(ctx, LoopScope(name)), n, t0, v.out, v.st, r) && v.out != Normal
    requires Allowed(v.out, p.(inLoop := false)) && !v.out.Recovering? && (name != "" ==> name !in p.open)
    ensures EndBody(name, r) == r && EndLoop(name, r) == r && r.out != CNormal && r.out != CContinuing && r.out != CBreaking
    ensures Matches(w, ctx, n, t0, v.out, v.st, r)
  {
    hide Clean, SavesOk, DefersOk, Frame;
    var sc := LoopScope(name);
    LeaveIsNotNormal(ctx, v.out);
    if v.out == OutOfFuel {
      FramePushed(ctx, sc, OutOfFuel, n, t0, r.cs.temps);
    } else {
      PopScope(w, ctx, sc, n, t0, v.out, v.st, r);
      assert CleanScope(w, sc, v.out.Failing?, r.cs.temps, v.st) == Run(Normal, v.st);
    }
  }

  /** The condition held, and C goes on with the body. */
  ghost predicate TurnBegins(w: World, ctx: Ctx, s: Stmt, n: nat, cs: CState)
    requires Well(ctx) && s.While? && cs.st.turns > 0
  {
    var parts, v := LoopParts(ctx, s, n), EvalExpr(w, s.cond, Turn(cs).st);
    var cv := CEval(w, parts.0, Turn(cs));
    && v.out == Normal && v.v != 0 && cv.cs.st == v.st && Frame(ctx, Normal, n, cs.temps, cv.cs.temps)
    && CExec(w, LoopBody(s.loopName, parts.0, parts.2), Turn(cs)) == EndBody(s.loopName, CExec(w, parts.2, cv.cs))
  }

  /** One turn of a loop whose condition held, and the turns after it. */
  lemma {:induction false} SimTurn(w: World, ctx: Ctx, s: Stmt, n: nat, p: Place, cs: CState)
    requires s.While? && StmtOk(s, p) && Fits(p, ctx, n) && cs.st.turns > 0
    requires TurnBegins(w, ctx, s, n, cs)
    ensures LoopSimulates(w, ctx, s, n, cs)
    decreases cs.st.turns, Pending(ctx) + StmtSize(s) - 1, 9
  {
    hide CExec, CEval, Clean, LowerBlock, LowerExpr, EvalExpr, ExecBlock, SavesOk, DefersOk, StmtsOk, ExprOk, Frame, ScopesSize;
    var name := s.loopName;
    var lctx := Push(ctx, LoopScope(name));
    var parts, v := LoopParts(ctx, s, n), EvalExpr(w, s.cond, Turn(cs).st);
    var cv := CEval(w, parts.0, Turn(cs));
    CtxLater(ctx, n, parts.1);
    CtxPush(ctx, LoopScope(name), parts.1);
    SimBlock(w, lctx, s.body, parts.1, InLoop(p, name), cv.cs);
    var b := ExecBlock(w, s.body, v.st);
    var br := CExec(w, parts.2, cv.cs);
    LoopTurn(w, ctx, name, parts.1, cv.cs.temps, b, br);
    if b.out == Normal || (b.out.Continuing? && Aims(b.out.name, name)) {
      FrameThen(ctx, Normal, n, parts.1, cs.temps, cv.cs.temps, br.cs.temps);
      SimLoop(w, ctx, s, n, p, br.cs);
      TurnAgain(w, ctx, s, n, cs, br);
    } else {
      var o := if b.out.Breaking? && Aims(b.out.name, name) then Normal else b.out;
      var r := if o == Normal then CRun(CNormal, br.cs) else br;
      MatchesAfter(w, ctx, n, parts.1, cs.temps, cv.cs.temps, o, b.st, r);
    }
  }

  /** The turns after one that went on. */
  lemma TurnAgain(w: World, ctx: Ctx, s: Stmt, n: nat, cs: CState, br: CRun)
    requires Well(ctx) && s.While? && cs.st.turns > 0
    requires
      var parts := LoopParts(ctx, s, n);
      var e := EndBody(s.loopName, br);
      && CExec(w, LoopBody(s.loopName, parts.0, parts.2), Turn(cs)) == e && e.out in {CNormal, CContinuing} && e.cs == br.cs
      && Frame(ctx, Normal, n, cs.temps, br.cs.temps)
    requires ExecStmt(w, s, cs.st) == ExecStmt(w, s, br.cs.st)
    requires LoopSimulates(w, ctx, s, n, br.cs)
    ensures LoopSimulates(w, ctx, s, n, cs)
  {
    hide CExec, Clean, LowerBlock, LowerExpr, ExecStmt, Frame;
    var parts, r := LoopParts(ctx, s, n), ExecStmt(w, s, br.cs.st);
    var loop := Loop(LoopBody(s.loopName, parts.0, parts.2));
    var cr := EndLoop(s.loopName, CStep(w, loop, br.cs));
    assert cr == EndLoop(s.loopName, CStep(w, loop, cs));
    MatchesAfter(w, ctx, n, n, cs.temps, br.cs.temps, r.out, r.st, cr);
  }

  /** How one turn of a loop ends, in the source and in C. */
  lemma LoopTurn(w: World, ctx: Ctx, name: string, n: nat, t0: Temps, b: Run, br: CRun)
    requires CtxOk(ctx, n) && Matches(w, Push(ctx, LoopScope(name)), n, t0, b.out, b.st, br)
    ensures b.out == Normal || (b.out.Continuing? && Aims(b.out.name, name)) ==>
              && EndBody(name, br).out in {CNormal, CContinuing} && EndBody(name, br).cs == br.cs
              && br.cs.st == b.st && Frame(ctx, Normal, n, t0, br.cs.temps)
    ensures b.out.Breaking? && Aims(b.out.name, name) ==>
              && (EndBody(name, br).out == CBreaking
                  || (name != "" && EndBody(name, br) == br && br.out == Jumping(BreakOf(name))))
              && EndBody(name, br).cs == br.cs
              && Matches(w, ctx, n, t0, Normal, b.st, CRun(CNormal, br.cs))
    ensures b.out != Normal && !((b.out.Continuing? || b.out.Breaking?) && Aims(b.out.name, name)) ==>
              && EndBody(name, br) == br && EndLoop(name, br) == br
              && br.out != CNormal && br.out != CContinuing && br.out != CBreaking
              && Matches(w, ctx, n, t0, b.out, b.st, br)
  {
    hide SavesOk, DefersOk;
    var sc := LoopScope(name);
    SameHandedOver(ctx, sc);
    var lctx := Push(ctx, sc);
    if b.out == Normal || b.out == OutOfFuel {
    } else if (b.out.Continuing? || b.out.Breaking?) && Aims(b.out.name, name) {
      assert JumpScope(lctx.scopes, b.out.name) == |ctx.scopes|;
      assert lctx.scopes[..|ctx.scopes|] == ctx.scopes;
      assert Clean(w, ctx.scopes, |ctx.scopes|, false, br.cs.temps, b.st) == Run(Normal, b.st);
      assert CleanScope(w, sc, false, br.cs.temps, b.st) == Run(Normal, b.st);
      assert Clean(w, lctx.scopes, |ctx.scopes|, false, br.cs.temps, b.st) == Run(Normal, b.st);
    } else {
      LeaveIsNotNormal(ctx, b.out);
      PopScope(w, ctx, sc, n, t0, b.out, b.st, br);
      assert CleanScope(w, sc, b.out.Failing?, br.cs.temps, b.st) == Run(Normal, b.st);
      NotThisLoop(w, ctx, name, n, t0, b, br);
    }
  }

  lemma NotThisLoop(w: World, ctx: Ctx, name: string, n: nat, t0: Temps, b: Run, br: CRun)
    requires Matches(w, ctx, n, t0, b.out, b.st, br) && b.out != Normal
    requires !((b.out.Continuing? || b.out.Breaking?) && Aims(b.out.name, name))
    ensures EndBody(name, br) == br && EndLoop(name, br) == br && br.out != CNormal && br.out != CContinuing && br.out != CBreaking
  {
    hide Clean, Frame;
  }

  // ----- whole functions -----

  /** Lowering cleanup preserves meaning.  For every function body that nothing deferred leaves,
      every world and every starting state, the emitted code gives the same result, the same
      events in the same order, the same variables and the same current allocator, and takes
      the same number of turns through loops. */
  lemma LoweringPreservesMeaning(w: World, body: Stmts, unit: bool, n: nat, st: State)
    requires StmtsOk(body, Body(true))
    ensures RunCode(w, LowerFunction(body, unit, n).code, st) == RunFunction(w, body, unit, st)
  {
    hide CExec, Clean, LowerList, ExecBlock, StmtsOk, Leaving, Matches;
    var cs := CState(st, map[]);
    assert PLAIN.(defers := []) == PLAIN;
    SimList(w, TOP, [], body, n, Body(true), cs);
    LeavingNothing(w, ExecBlock(w, body, st));
    BlockLeavesAllowed(w, body, st, Body(true));
    FunctionEnds(w, LowerList(Push(TOP, PLAIN), body, n).code, unit, n, cs, ExecBlock(w, body, st));
  }

  /** A body's code in the function's own scope, and the end it may fall off. */
  lemma FunctionEnds(w: World, code: seq<CStmt>, unit: bool, n: nat, cs: CState, r: Run)
    requires Matches(w, TOP, n, cs.temps, r.out, r.st, CExec(w, code, cs)) && Allowed(r.out, Body(true))
    ensures
      var last := if unit then ReturnOk(CLit(0)) else TrapUnreachable;
      var c := CExec(w, code + [last], cs);
      && c.cs.st == r.st
      && c.out == match r.out
                  case Returning(v) => CReturning(Slot(false, v))
                  case Failing(e) => CReturning(Slot(true, e))
                  case OutOfFuel => COutOfFuel
                  case _ => if unit then CReturning(Slot(false, 0)) else CTrapped
  {
    hide CExec, Clean, Frame;
    var last := if unit then ReturnOk(CLit(0)) else TrapUnreachable;
    var cr := CExec(w, code, cs);
    NothingToClean(w, [], r.out.Failing?, cr.cs.temps, r.st);
    ExecAppend(w, code, [last], cs);
    ExecOne(w, last, [], cr.cs);
  }
}
