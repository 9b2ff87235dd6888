/** Where lowering stops short of the programs the checker accepts.  Two things the theorem
    asks for are more than the checker checks: that no unnamed jump leaves the condition of a
    loop, and that nothing leaves what is deferred.  Each is needed.  An unnamed jump out of a
    condition stops at the wrong loop in C.  Of something deferred that can leave the emitter
    either never finishes writing (EmitterTermination says exactly when), or it is an `errdefer`
    that leaves otherwise than by failing, and then the failure in flight is lost. */
module LoweringLimits {
  import opened Wrappers
  import opened LuceSource
  import opened CTarget
  import opened Lowering
  import opened LoweringProof
  import opened LoweringTheorem
  import opened EmitterTermination

  // ----- jumps out of a condition -----

  /** Whenever the condition of a loop leaves by an unnamed `break`, the source leaves the loop
      around it, and the emitted code ends this loop and goes on after it. */
  lemma ConditionBreaksThisLoop(w: World, ctx: Ctx, s: Stmt, n: nat, p: Place, cs: CState)
    requires s.While? && Fits(p, ctx, n) && ExprOk(s.cond, p.(inLoop := true)) && cs.st.turns > 0
    requires EvalExpr(w, s.cond, Turn(cs).st).out == Breaking("")
    ensures ExecStmt(w, s, cs.st).out == Breaking("")
    ensures CExec(w, LowerStmt(ctx, s, n).code, cs).out == CNormal
    ensures !Simulates(w, ctx, n, s, cs)
  {
    hide CExec, LowerBlock, LowerExpr, EvalExpr, SavesOk, DefersOk, Frame, Clean;
    var name, parts := s.loopName, LoopParts(ctx, s, n);
    var lctx := Push(ctx, LoopScope(name));
    var v := EvalExpr(w, s.cond, Turn(cs).st);
    var cv := CEval(w, parts.0, Turn(cs));
    CtxPush(ctx, LoopScope(name), n);
    SimExpr(w, lctx, s.cond, n, p.(inLoop := true), Turn(cs));
    StopsHere(w, ctx, name, n, cs.temps, v, CRun(cv.out, cv.cs));
    BlockIsOne(lctx, s.body, parts.1);
    LoopBodyRuns(w, name, parts.0, parts.2, Turn(cs));
    WhileRuns(w, name, parts.0, parts.2, cs);
  }

  /** Whenever it leaves by an unnamed `continue`, the source goes on with the loop around it, and
      the emitted code tests the condition of this loop again. */
  lemma ConditionContinuesThisLoop(w: World, ctx: Ctx, s: Stmt, n: nat, p: Place, cs: CState) returns (again: CState)
    requires s.While? && Fits(p, ctx, n) && ExprOk(s.cond, p.(inLoop := true)) && cs.st.turns > 0
    requires EvalExpr(w, s.cond, Turn(cs).st).out == Continuing("")
    ensures ExecStmt(w, s, cs.st).out == Continuing("")
    ensures again.st == EvalExpr(w, s.cond, Turn(cs).st).st
    ensures CExec(w, LowerStmt(ctx, s, n).code, cs) == CExec(w, LowerStmt(ctx, s, n).code, again)
  {
    hide CExec, LowerBlock, LowerExpr, EvalExpr, SavesOk, DefersOk, Frame, Clean;
    var name, parts := s.loopName, LoopParts(ctx, s, n);
    var lctx := Push(ctx, LoopScope(name));
    var v := EvalExpr(w, s.cond, Turn(cs).st);
    var cv := CEval(w, parts.0, Turn(cs));
    CtxPush(ctx, LoopScope(name), n);
    SimExpr(w, lctx, s.cond, n, p.(inLoop := true), Turn(cs));
    StopsHere(w, ctx, name, n, cs.temps, v, CRun(cv.out, cv.cs));
    BlockIsOne(lctx, s.body, parts.1);
    LoopBodyRuns(w, name, parts.0, parts.2, Turn(cs));
    again := cv.cs;
    WhileRuns(w, name, parts.0, parts.2, cs);
    WhileRuns(w, name, parts.0, parts.2, again);
  }

  /** An unnamed jump under the loop's own scope is the loop's own, in C. */
  lemma StopsHere(w: World, ctx: Ctx, name: string, n: nat, t0: Temps, v: Value, r: CRun)
    requires CtxOk(ctx, n) && (v.out == Breaking("") || v.out == Continuing(""))
    requires Matches(w, Push(ctx, LoopScope(name)), n, t0, v.out, v.st, r)
    ensures r.out == (if v.out.Breaking? then CBreaking else CContinuing) && r.cs.st == v.st
  {
    hide SavesOk, DefersOk;
    var sc := LoopScope(name);
    var lctx := Push(ctx, sc);
    assert JumpScope(lctx.scopes, "") == |ctx.scopes|;
    assert CleanScope(w, sc, false, r.cs.temps, v.st) == Run(Normal, v.st);
    assert Clean(w, lctx.scopes, |ctx.scopes|, false, r.cs.temps, v.st) == Run(Normal, v.st);
  }

  /** `while f() catch e: break`, inside a loop, or with `continue`. */
  function JumpingCondition(jump: Stmt): Stmt {
    While("", Catch(Try(0, Lit(0)), "e", Cons(jump, Nil)), Nil)
  }

  /** The checker accepts it, the theorem does not ask for it, and where `f` fails it jumps. */
  lemma JumpingConditionAccepted(w: World, jump: Stmt, st: State)
    requires jump == Break("") || jump == Continue("")
    requires w.answers(st.trace + [Event(0, 0, st.alloc, st.vars)]).failed
    ensures
      var outer := While("", Lit(1), Cons(JumpingCondition(jump), Nil));
      && StmtOk(outer, Body(false)) && !StmtOk(outer, Body(true))
      && ExprOk(JumpingCondition(jump).cond, Body(true).(inLoop := true))
      && EvalExpr(w, JumpingCondition(jump).cond, st).out == (if jump.Break? then Breaking("") else Continuing(""))
  {
    var s := JumpingCondition(jump);
    var loose, tight := InLoop(Body(false), ""), InLoop(Body(true), "");
    var handler := Cons(jump, Nil);
    assert StmtsOk(handler, loose.(inCatch := true));
    assert StmtOk(s, loose);
    assert !StmtsOk(handler, tight.(inLoop := false, inCatch := true));
    assert !StmtOk(s, tight);
    var a := EvalExpr(w, s.cond.operand, st);
    assert EvalExpr(w, Lit(0), st) == Value(Normal, 0, st);
    assert a.out.Failing?;
    var inside := a.st.(vars := a.st.vars["e" := a.out.err]);
    assert ExecStmt(w, jump, inside).out == (if jump.Break? then Breaking("") else Continuing(""));
  }

  // ----- deferred statements that leave -----

  /** A place allows leaving this way. */
  predicate Permits(p: Place, way: Way) {
    match way
    case ByReturn => p.mayReturn
    case ByFailure => p.mayFail
    case ByRecover => p.inCatch
    case ByJump(name) => if name == "" then p.inLoop else name in p.open
  }

  /** `q` allows no more than `p`. */
  predicate Narrower(q: Place, p: Place) {
    && p.strict && q.strict && q.open <= p.open && (q.inLoop ==> p.inLoop)
    && (q.inCatch ==> p.inCatch) && (q.mayFail ==> p.mayFail) && (q.mayReturn ==> p.mayReturn)
  }

  ghost predicate ExprWithin(e: Expr, q: Place) { forall way :: ExprEscapes(e, way) ==> Permits(q, way) }
  ghost predicate StmtWithin(s: Stmt, q: Place) { forall way :: StmtEscapes(s, way) ==> Permits(q, way) }
  ghost predicate ListWithin(ss: Stmts, q: Place) { forall way :: ListEscapes(ss, way) ==> Permits(q, way) }

  /** What is in order at a place is in order at a narrower one exactly when it leaves only as that
      one allows. */
  lemma {:induction false} ExprPermitted(e: Expr, p: Place, q: Place)
    requires ExprOk(e, p) && Narrower(q, p)
    ensures ExprOk(e, q) <==> ExprWithin(e, q)
    decreases e
  {
    match e
    case Lit(_) =>
    case Name(_) =>
    case Call(_, arg) => ExprPermitted(arg, p, q);
    case Try(_, arg) =>
      ExprPermitted(arg, p, q);
      assert ExprEscapes(e, ByFailure);
      if ExprWithin(e, q) {
        forall way | ExprEscapes(arg, way) ensures Permits(q, way) { assert ExprEscapes(e, way); }
      }
    case Catch(_, _, _) => CatchPermitted(e, p, q);
  }

  lemma {:induction false} CatchPermitted(e: Expr, p: Place, q: Place)
    requires e.Catch? && ExprOk(e, p) && Narrower(q, p)
    ensures ExprOk(e, q) <==> ExprWithin(e, q)
    decreases e, 0
  {
    hide ListEscapes, StmtsOk;
    var fails, catches := q.(mayFail := true), q.(inCatch := true);
    ExprPermitted(e.operand, p.(mayFail := true), fails);
    ListPermitted(e.handler, p.(inCatch := true), catches);
    assert forall way :: way != ByFailure ==> Permits(fails, way) == Permits(q, way);
    assert forall way :: way != ByRecover ==> Permits(catches, way) == Permits(q, way);
    if ExprOk(e, q) {
      forall way | ExprEscapes(e, way) ensures Permits(q, way) {
        if way == ByFailure {
          assert ListEscapes(e.handler, way);
        } else if way == ByRecover {
          assert ExprEscapes(e.operand, way);
        }
      }
    } else if ExprWithin(e, q) {
      forall way | ExprEscapes(e.operand, way) ensures Permits(fails, way) {
        assert way != ByFailure ==> ExprEscapes(e, way);
      }
      forall way | ListEscapes(e.handler, way) ensures Permits(catches, way) {
        assert way != ByRecover ==> ExprEscapes(e, way);
      }
    }
  }

  lemma {:induction false} StmtPermitted(s: Stmt, p: Place, q: Place)
    requires StmtOk(s, p) && Narrower(q, p)
    ensures StmtOk(s, q) <==> StmtWithin(s, q)
    decreases s
  {
    hide ExprOk, StmtsOk, ExprEscapes, ListEscapes, Permits;
    match s
    case If(_, _, _) => PartsPermitted(s, p, q);
    case While(_, _, _) => LoopPermitted(s, p, q);
    case Block(body) => ListPermitted(body, p, q);
    case With(_, _) => PartsPermitted(s, p, q);
    case ReturnUnit => ExitPermitted(s, p, q);
    case Break(_) => ExitPermitted(s, p, q);
    case Continue(_) => ExitPermitted(s, p, q);
    case Return(_) => ExitPermitted(s, p, q);
    case Error(_) => ExitPermitted(s, p, q);
    case Recover(_) => ExitPermitted(s, p, q);
    case Defer(d) => assert DeferOk(d, q) == DeferOk(d, p);
    case ExprStmt(e) => ExprPermitted(e, p, q);
    case Assign(_, e) => ExprPermitted(e, p, q);
    case SetAllocator(e) => ExprPermitted(e, p, q);
  }

  lemma {:induction false} ExitPermitted(s: Stmt, p: Place, q: Place)
    requires StmtOk(s, p) && Narrower(q, p)
    requires s.ReturnUnit? || s.Break? || s.Continue? || s.Return? || s.Error? || s.Recover?
    ensures StmtOk(s, q) <==> StmtWithin(s, q)
    decreases s, 0
  {
    hide ExprOk, ExprEscapes;
    var way := if s.Return? || s.ReturnUnit? then ByReturn else if s.Error? then ByFailure
               else if s.Recover? then ByRecover else ByJump(s.loopName);
    assert StmtEscapes(s, way);
    if s.Return? || s.Error? || s.Recover? {
      ExprPermitted(s.e, p, q);
      ValuedWithin(s, way, q);
    } else {
      assert StmtWithin(s, q) <==> Permits(q, way) by {
        forall other | StmtEscapes(s, other) ensures other == way {}
      }
    }
  }

  lemma ValuedWithin(s: Stmt, way: Way, q: Place)
    requires (s.Return? && way == ByReturn) || (s.Error? && way == ByFailure) || (s.Recover? && way == ByRecover)
    ensures StmtWithin(s, q) <==> Permits(q, way) && ExprWithin(s.e, q)
  {
    hide ExprEscapes, Permits;
    assert forall other :: StmtEscapes(s, other) <==> other == way || ExprEscapes(s.e, other);
    assert StmtEscapes(s, way);
    if StmtWithin(s, q) {
      forall other | ExprEscapes(s.e, other) ensures Permits(q, other) { assert StmtEscapes(s, other); }
    }
  }

  lemma {:induction false} PartsPermitted(s: Stmt, p: Place, q: Place)
    requires (s.If? || s.With?) && StmtOk(s, p) && Narrower(q, p)
    ensures StmtOk(s, q) <==> StmtWithin(s, q)
    decreases s, 0
  {
    hide ExprOk, StmtsOk, ExprEscapes, ListEscapes, Permits;
    if s.If? {
      ExprPermitted(s.cond, p, q);
      ListPermitted(s.thn, p, q);
      ListPermitted(s.els, p, q);
    } else {
      ExprPermitted(s.allocator, p, q);
      ListPermitted(s.body, p, q);
    }
  }

  lemma {:induction false} LoopPermitted(s: Stmt, p: Place, q: Place)
    requires s.While? && StmtOk(s, p) && Narrower(q, p)
    ensures StmtOk(s, q) <==> StmtWithin(s, q)
    decreases s, 0
  {
    hide ExprOk, StmtsOk, ExprEscapes, ListEscapes;
    var name, bare := s.loopName, p.(inLoop := false);
    ExprPermitted(s.cond, bare, q.(inLoop := false));
    ExprPermitted(s.cond, bare, bare);
    ListPermitted(s.body, InLoop(p, name), InLoop(q, name));
    assert forall way :: ExprEscapes(s.cond, way) ==> !(way.ByJump? && Aims(way.name, name));
    assert forall way: Way :: !(way.ByJump? && Aims(way.name, name)) ==> Permits(InLoop(q, name), way) == Permits(q, way);
    if StmtWithin(s, q) {
      forall way | ExprEscapes(s.cond, way) ensures Permits(q.(inLoop := false), way) {
        assert StmtEscapes(s, way) && Permits(bare, way);
      }
      forall way | ListEscapes(s.body, way) ensures Permits(InLoop(q, name), way) {
        assert !(way.ByJump? && Aims(way.name, name)) ==> StmtEscapes(s, way);
      }
    }
    if StmtOk(s, q) {
      forall way | StmtEscapes(s, way) ensures Permits(q, way) {
        assert ExprEscapes(s.cond, way) ==> Permits(q.(inLoop := false), way);
        assert ListEscapes(s.body, way) ==> Permits(InLoop(q, name), way);
        assert Permits(q.(inLoop := false), way) ==> Permits(q, way);
      }
    }
  }

  lemma {:induction false} ListPermitted(ss: Stmts, p: Place, q: Place)
    requires StmtsOk(ss, p) && Narrower(q, p)
    ensures StmtsOk(ss, q) <==> ListWithin(ss, q)
    decreases ss
  {
    hide StmtOk, StmtEscapes;
    if ss.Cons? {
      StmtPermitted(ss.head, p, q);
      ListPermitted(ss.tail, p, q);
    }
  }

  /** What the theorem asks of something deferred is exactly that it cannot leave, wherever it
      stands. */
  lemma SealedIffStays(s: Stmt, p: Place)
    requires StmtOk(s, p) && p.strict
    ensures StmtOk(s, SEALED) <==> !Leaves(s)
  {
    StmtPermitted(s, p, SEALED);
    assert StmtWithin(s, SEALED) <==> !Leaves(s) by {
      hide StmtEscapes;
      assert forall way :: !Permits(SEALED, way);
    }
  }

  // ----- an `errdefer` that recovers -----

  /** The state in which the handler of `Recovering` is written, once it has deferred. */
  function HandlerState(id: nat, d: Deferred): Ctx { Registered(Push(HandlerCtx(Push(TOP, PLAIN), id), PLAIN), d) }

  function RecoverErrdefer(v: nat): Deferred { Deferred(Block(Recovers(v)), true) }

  /** What is written for it where a failure passes: the value, and the jump past the handler. */
  lemma RecoverText(id: nat, v: nat, m: nat)
    ensures
      var d := RecoverErrdefer(v);
      LowerStmt(Sealed(HandlerState(id, d)), d.what, m)
      == Low([Braces([SetTemp(Temp(CatchValue, id), false, CLit(v)), Goto(Done(id))])], m)
  {
    hide LowerStmt, LowerBlock;
    var d := RecoverErrdefer(v);
    var sealed := Sealed(HandlerState(id, d));
    RecoverBlock(sealed, id, v, m);
    BlockStmt(sealed, Recovers(v), m);
  }

  lemma BlockStmt(ctx: Ctx, ss: Stmts, m: nat)
    requires Well(ctx)
    ensures LowerStmt(ctx, Block(ss), m) == LowerBlock(ctx, ss, m)
  {
    hide LowerBlock;
  }

  lemma RecoverBlock(sealed: Ctx, id: nat, v: nat, m: nat)
    requires sealed.base == |sealed.scopes| && sealed.catching == Some(id)
    ensures LowerBlock(sealed, Recovers(v), m)
         == Low([Braces([SetTemp(Temp(CatchValue, id), false, CLit(v)), Goto(Done(id))])], m)
  {
    hide LowerStmt;
    var ctx := Push(sealed, PLAIN);
    var code := [SetTemp(Temp(CatchValue, id), false, CLit(v)), Goto(Done(id))];
    RecoverIs(ctx, id, v, m);
    NothingHere(ctx, false, m);
    assert code + [] == code;
    assert LowerList(ctx, Nil, m) == Low([], m);
    assert LowerList(ctx, Recovers(v), m) == Low(code, m);
  }

  lemma RecoverIs(ctx: Ctx, id: nat, v: nat, m: nat)
    requires ctx.base == |ctx.scopes| - 1 && ctx.scopes[|ctx.scopes| - 1] == PLAIN && ctx.catching == Some(id)
    ensures LowerStmt(ctx, Recover(Lit(v)), m) == Low([SetTemp(Temp(CatchValue, id), false, CLit(v)), Goto(Done(id))], m)
  {
    hide ScopeCode;
    NothingHere(ctx, false, m);
    assert UnwindFrom(ctx, |ctx.scopes| - 1, ctx.catchScope, false, m) == Low([], m);
    assert UnwindCode(ctx, ctx.catchScope, false, m) == Low([], m);
    assert LowerExpr(ctx, Lit(v), m) == LowExpr(CLit(v), m);
    var a, b := SetTemp(Temp(CatchValue, id), false, CLit(v)), Goto(Done(id));
    assert [a] + [] + [b] == [a, b];
  }

  lemma NothingHere(ctx: Ctx, failing: bool, m: nat)
    requires ctx.base < |ctx.scopes| && ctx.scopes[|ctx.scopes| - 1] == PLAIN
    ensures ScopeCode(ctx, |ctx.scopes| - 1, failing, m) == Low([], m)
  {
  }

  /** `error(k)` after it: the failure is set, the value is set, and the handler is left. */
  lemma ErrorText(id: nat, v: nat, k: nat, n: nat)
    ensures
      var d, t := RecoverErrdefer(v), Temp(ErrorTemp, n);
      LowerStmt(HandlerState(id, d), Error(Lit(k)), n).code
      == [ SetTemp(t, true, CLit(k)),
           Braces([SetTemp(Temp(CatchValue, id), false, CLit(v)), Goto(Done(id))]),
           ReturnSlot(t) ]
  {
    hide LowerStmt;
    var d, t, m := RecoverErrdefer(v), Temp(ErrorTemp, n), n + 1;
    var ctx := HandlerState(id, d);
    var text := [Braces([SetTemp(Temp(CatchValue, id), false, CLit(v)), Goto(Done(id))])];
    RecoverText(id, v, m);
    TopDefers(ctx, d, m, text);
    assert ctx.scopes[0] == PLAIN;
    assert ScopeCode(ctx, 0, true, m) == Low([], m);
    assert UnwindFrom(ctx, 0, 0, true, m) == Low([], m);
    assert UnwindFrom(ctx, 1, 0, true, m).code == [];
    assert UnwindCode(ctx, 0, true, m).code == text + [];
    ErrorIs(ctx, k, n, text);
  }

  lemma TopDefers(ctx: Ctx, d: Deferred, m: nat, text: seq<CStmt>)
    requires ctx.base < |ctx.scopes| && ctx.scopes[|ctx.scopes| - 1] == PLAIN.(defers := [d])
    requires LowerStmt(Sealed(ctx), d.what, m) == Low(text, m)
    ensures ScopeCode(ctx, |ctx.scopes| - 1, true, m) == Low(text, m)
  {
    hide LowerStmt;
    var at := |ctx.scopes| - 1;
    assert DeferCode(ctx, at, 0, true, m) == Low(text, m);
    assert DefersCode(ctx, at, 0, true, m) == Low([], m);
    assert text + [] == text;
    assert DefersCode(ctx, at, 1, true, m) == Low(text, m);
  }

  lemma ErrorIs(ctx: Ctx, k: nat, n: nat, text: seq<CStmt>)
    requires Well(ctx) && ctx.failure.None? && UnwindCode(ctx, 0, true, n + 1).code == text
    ensures LowerStmt(ctx, Error(Lit(k)), n).code == [SetTemp(Temp(ErrorTemp, n), true, CLit(k))] + text + [ReturnSlot(Temp(ErrorTemp, n))]
  {
    hide UnwindCode;
    assert LowerExpr(ctx, Lit(k), n + 1) == LowExpr(CLit(k), n + 1);
  }

  /** In every run: the source goes on failing, the emitted code has recovered. */
  lemma RecoveringErrdeferSwallows(w: World, id: nat, v: nat, k: nat, n: nat, cs: CState)
    ensures
      var d, rest := RecoverErrdefer(v), Cons(Error(Lit(k)), Nil);
      var r := CExec(w, LowerStmt(HandlerState(id, d), Error(Lit(k)), n).code, cs);
      && ExecBlock(w, Cons(Defer(d), rest), cs.st) == Run(Failing(k), cs.st)
      && r.out == Jumping(Done(id)) && r.cs.st == cs.st && Get(r.cs.temps, Temp(CatchValue, id)).v == v
  {
    var d, rest := RecoverErrdefer(v), Cons(Error(Lit(k)), Nil);
    SourceFails(w, d, v, k, cs.st);
    ErrorText(id, v, k, n);
    hide LowerStmt, ExecBlock;
    FailThenJump(w, Temp(ErrorTemp, n), k, Temp(CatchValue, id), v, Done(id), cs);
  }

  lemma FailThenJump(w: World, t: Temp, k: nat, value: Temp, v: nat, l: Label, cs: CState)
    requires t != value
    ensures
      CExec(w, [SetTemp(t, true, CLit(k)), Braces([SetTemp(value, false, CLit(v)), Goto(l)]), ReturnSlot(t)], cs)
      == CRun(Jumping(l), cs.(temps := cs.temps[t := Slot(true, k)][value := Slot(false, v)]))
  {
    var a, b, c := SetTemp(t, true, CLit(k)), Braces([SetTemp(value, false, CLit(v)), Goto(l)]), ReturnSlot(t);
    var cs1 := cs.(temps := cs.temps[t := Slot(true, k)]);
    LiteralStored(w, t, true, k, cs);
    ValueThenJump(w, value, v, l, cs1);
    hide CExec, CStep;
    ExecOne(w, a, [b, c], cs);
    ExecOne(w, b, [c], cs1);
    OneHasNoLabels(c, l);
    assert [a, b, c] == [a] + [b, c] && [b, c] == [b] + [c];
  }

  lemma LiteralStored(w: World, t: Temp, failed: bool, v: nat, cs: CState)
    ensures CStep(w, SetTemp(t, failed, CLit(v)), cs) == CRun(CNormal, cs.(temps := cs.temps[t := Slot(failed, v)]))
  {
    assert CEval(w, CLit(v), cs) == CValue(CNormal, v, cs);
  }

  lemma ValueThenJump(w: World, t: Temp, v: nat, l: Label, cs: CState)
    ensures CStep(w, Braces([SetTemp(t, false, CLit(v)), Goto(l)]), cs) == CRun(Jumping(l), cs.(temps := cs.temps[t := Slot(false, v)]))
  {
    var a, b := SetTemp(t, false, CLit(v)), Goto(l);
    var cs1 := cs.(temps := cs.temps[t := Slot(false, v)]);
    assert CStep(w, Braces([a, b]), cs) == CExec(w, [a, b], cs);
    LiteralStored(w, t, false, v, cs);
    assert CStep(w, b, cs1) == CRun(Jumping(l), cs1);
    hide CExec, CStep;
    assert [a, b] == [a] + [b];
    ExecOne(w, a, [b], cs);
    ExecOne(w, b, [], cs1);
  }

  /** What the `errdefer` recovers is forgotten. */
  lemma SourceFails(w: World, d: Deferred, v: nat, k: nat, st: State)
    requires d == RecoverErrdefer(v)
    ensures ExecBlock(w, Cons(Defer(d), Cons(Error(Lit(k)), Nil)), st) == Run(Failing(k), st)
  {
    var rest := Cons(Error(Lit(k)), Nil);
    assert EvalExpr(w, Lit(k), st) == Value(Normal, k, st) && EvalExpr(w, Lit(v), st) == Value(Normal, v, st);
    assert ExecStmt(w, rest.head, st) == Run(Failing(k), st);
    assert ExecBlock(w, rest, st) == Run(Failing(k), st);
    assert ExecStmt(w, Recover(Lit(v)), st) == Run(Recovering(v), st);
    assert ExecBlock(w, Recovers(v), st) == Run(Recovering(v), st);
    assert ExecStmt(w, d.what, st) == Run(Recovering(v), st);
    assert Cleanup(w, d, true, st) == Run(Normal, st);
  }
}
