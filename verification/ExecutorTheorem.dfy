/** Where the interpreter's flags mean what the program means.  On every body in which no
    expression leaves where the interpreter does not look, it does what LuceSource says, and so
    what the emitted code does; and statement by statement it takes no less. */
module ExecutorTheorem {
  import opened LuceSource
  import opened Executor
  import CTarget
  import Lowering
  import LoweringTheorem

  // ----- what an expression may do where it stands -----

  /** Nothing jumps out; a failure or a return may leave. */
  const JUMPLESS := Place({}, false, false, true, true, true)

  /** Only a failure leaves. */
  const FALLIBLE := Place({}, false, false, true, false, true)

  predicate ExprCareful(e: Expr) {
    match e
    case Lit(_) => true
    case Name(_) => true
    case Call(_, arg) => ExprCareful(arg) && ExprOk(arg, JUMPLESS)
    case Try(_, arg) => ExprCareful(arg) && ExprOk(arg, JUMPLESS)
    case Catch(operand, _, handler) => ExprCareful(operand) && ListCareful(handler)
  }

  /** What is stored or made the allocator is of an expression that cannot leave; what is
      returned or recovered of one that can only fail; conditions, arguments and codes of ones
      that cannot jump. */
  predicate StmtCareful(s: Stmt) {
    match s
    case ExprStmt(e) => ExprCareful(e)
    case Assign(_, e) => ExprCareful(e) && ExprOk(e, SEALED)
    case SetAllocator(e) => ExprCareful(e) && ExprOk(e, SEALED)
    case If(c, thn, els) => ExprCareful(c) && ExprOk(c, JUMPLESS) && ListCareful(thn) && ListCareful(els)
    case While(_, c, body) => ExprCareful(c) && ExprOk(c, JUMPLESS) && ListCareful(body)
    case Block(body) => ListCareful(body)
    case With(a, body) => ExprCareful(a) && ExprOk(a, SEALED) && ListCareful(body)
    case Return(e) => ExprCareful(e) && ExprOk(e, FALLIBLE)
    case ReturnUnit => true
    case Error(e) => ExprCareful(e) && ExprOk(e, JUMPLESS)
    case Break(_) => true
    case Continue(_) => true
    case Recover(e) => ExprCareful(e) && ExprOk(e, FALLIBLE)
    case Defer(d) => DeferCareful(d)
  }

  predicate DeferCareful(d: Deferred) { StmtCareful(d.what) }

  predicate ListCareful(ss: Stmts) { ss.Cons? ==> StmtCareful(ss.head) && ListCareful(ss.tail) }

  // ----- flags that show an outcome -----

  /** Nothing is in flight. */
  predicate Clear(m: Machine) { !Flagged(m) }

  /** After a step from `before`, the fields of `m` say that it left with `o`. */
  predicate Shows(before: Machine, m: Machine, o: Outcome, st: State) {
    && m.st == st
    && m.spent == (o == OutOfFuel)
    && (o != OutOfFuel ==>
        && m.returning == (o.Returning? || o.Failing? || o.Recovering?)
        && m.breaking == o.Breaking?
        && m.continuing == o.Continuing?
        && (o.Returning? ==> m.ret == Ret(false, o.v))
        && (o.Failing? ==> m.ret == Ret(true, o.err))
        && (o.Recovering? ==> m.recovered && m.recoverVal == o.v && !m.ret.failed)
        && (o.Breaking? || o.Continuing? ==> m.aim == o.name)
        && (!o.Recovering? && !before.recovered ==> !m.recovered))
  }

  predicate ExprAgrees(w: World, e: Expr, m: Machine) {
    var a, r := EvalExpr(w, e, m.st), EvalNode(w, e, m);
    Shows(m, r.1, a.out, a.st) && (a.out == Normal ==> r.0 == a.v)
  }

  predicate StmtAgrees(w: World, s: Stmt, m: Machine) {
    var a := ExecStmt(w, s, m.st);
    Shows(m, ExecNode(w, s, m), a.out, a.st)
  }

  predicate BlockAgrees(w: World, ss: Stmts, m: Machine) {
    var a := ExecBlock(w, ss, m.st);
    Shows(m, ExecSuite(w, ss, m), a.out, a.st)
  }

  // ----- careful bodies -----

  lemma {:induction false} ExprRuns(w: World, e: Expr, m: Machine, p: Place)
    requires ExprCareful(e) && ExprOk(e, p) && p.strict && Clear(m)
    ensures ExprAgrees(w, e, m)
    decreases m.st.turns, e, 1
  {
    match e
    case Lit(_) =>
    case Name(_) =>
    case Call(_, arg) => ArgumentRuns(w, arg, m, p);
    case Try(_, arg) => ArgumentRuns(w, arg, m, p);
    case Catch(_, _, _) => CatchRuns(w, e, m, p);
  }

  lemma {:induction false} CatchRuns(w: World, e: Expr, m: Machine, p: Place)
    requires e.Catch? && ExprCareful(e) && ExprOk(e, p) && p.strict && Clear(m)
    ensures ExprAgrees(w, e, m)
    decreases m.st.turns, e, 0
  {
    ExprRuns(w, e.operand, m, p.(mayFail := true));
    ExprLeavesAllowed(w, e.operand, m.st, p.(mayFail := true));
    var a := EvalNode(w, e.operand, m);
    if !a.1.spent && a.1.returning && a.1.ret.failed {
      BlockRuns(w, e.handler, Handling(a.1, e.name), p.(inCatch := true));
    }
  }

  lemma {:induction false} ArgumentRuns(w: World, arg: Expr, m: Machine, p: Place)
    requires ExprCareful(arg) && ExprOk(arg, JUMPLESS) && ExprOk(arg, p) && p.strict && Clear(m)
    ensures ExprAgrees(w, arg, m)
    ensures var o := EvalExpr(w, arg, m.st).out; !o.Breaking? && !o.Continuing? && !o.Recovering?
    decreases m.st.turns, arg, 2
  {
    ExprRuns(w, arg, m, p);
    ExprLeavesAllowed(w, arg, m.st, JUMPLESS);
  }

  lemma {:induction false} StmtRuns(w: World, s: Stmt, m: Machine, p: Place)
    requires StmtCareful(s) && StmtOk(s, p) && p.strict && Clear(m)
    ensures StmtAgrees(w, s, m)
    decreases m.st.turns, s, 1
  {
    match s
    case ExprStmt(e) => ExprRuns(w, e, m, p);
    case Assign(_, e) => ValueRuns(w, e, m, SEALED, p);
    case SetAllocator(e) => ValueRuns(w, e, m, SEALED, p);
    case If(_, _, _) => IfRuns(w, s, m, p);
    case While(_, _, _) => LoopRuns(w, s, m, p);
    case Block(body) => BlockRuns(w, body, m, p);
    case With(_, _) => WithRuns(w, s, m, p);
    case Return(e) => ValueRuns(w, e, m, FALLIBLE, p);
    case ReturnUnit =>
    case Error(e) => ValueRuns(w, e, m, JUMPLESS, p);
    case Break(_) =>
    case Continue(_) =>
    case Recover(e) => ValueRuns(w, e, m, FALLIBLE, p);
    case Defer(_) =>
  }

  lemma {:induction false} ValueRuns(w: World, e: Expr, m: Machine, q: Place, p: Place)
    requires ExprCareful(e) && ExprOk(e, q) && ExprOk(e, p) && p.strict && Clear(m)
    ensures ExprAgrees(w, e, m)
    ensures var o := EvalExpr(w, e, m.st).out; Allowed(o, q) && !o.Recovering?
    decreases m.st.turns, e, 2
  {
    ExprRuns(w, e, m, p);
    ExprLeavesAllowed(w, e, m.st, q);
  }

  lemma {:induction false} IfRuns(w: World, s: Stmt, m: Machine, p: Place)
    requires s.If? && StmtCareful(s) && StmtOk(s, p) && p.strict && Clear(m)
    ensures StmtAgrees(w, s, m)
    decreases m.st.turns, s, 0
  {
    hide EvalNode, EvalExpr, ExecSuite, ExecBlock;
    ValueRuns(w, s.cond, m, JUMPLESS, p);
    var a := EvalNode(w, s.cond, m);
    if !Flagged(a.1) { BlockRuns(w, if a.0 != 0 then s.thn else s.els, a.1, p); }
  }

  lemma {:induction false} WithRuns(w: World, s: Stmt, m: Machine, p: Place)
    requires s.With? && StmtCareful(s) && StmtOk(s, p) && p.strict && Clear(m)
    ensures StmtAgrees(w, s, m)
    decreases m.st.turns, s, 0
  {
    hide EvalNode, EvalExpr, ExecSuite, ExecBlock;
    ValueRuns(w, s.allocator, m, SEALED, p);
    var a := EvalNode(w, s.allocator, m);
    if !Flagged(a.1) { BlockRuns(w, s.body, a.1.(st := a.1.st.(alloc := a.0)), p); }
  }

  lemma {:induction false} LoopRuns(w: World, s: Stmt, m: Machine, p: Place)
    requires s.While? && StmtCareful(s) && StmtOk(s, p) && p.strict && Clear(m)
    ensures StmtAgrees(w, s, m)
    decreases m.st.turns, s, 0
  {
    hide EvalNode, EvalExpr, ExecSuite, ExecBlock;
    assert ExecNode(w, s, m) == ExecLoop(w, s, m);
    if m.st.turns > 0 {
      var m1 := m.(continuing := false, st := m.st.(turns := m.st.turns - 1));
      ValueRuns(w, s.cond, m1, JUMPLESS, p.(inLoop := false));
      var c := EvalNode(w, s.cond, m1);
      if Flagged(c.1) {
        assert Stopped(c.1) ==> ExecLoop(w, s, c.1) == c.1;
      } else if c.0 != 0 {
        TurnRuns(w, s, m, c.1, p);
      }
    }
  }

  lemma {:induction false} TurnRuns(w: World, s: Stmt, m: Machine, m2: Machine, p: Place)
    requires s.While? && StmtCareful(s) && StmtOk(s, p) && p.strict && Clear(m) && Clear(m2) && m2.st.turns < m.st.turns
    requires
      var m1 := m.(continuing := false, st := m.st.(turns := m.st.turns - 1));
      && EvalNode(w, s.cond, m1).1 == m2 && EvalNode(w, s.cond, m1).0 == EvalExpr(w, s.cond, m1.st).v != 0
      && EvalExpr(w, s.cond, m1.st).out == Normal && EvalExpr(w, s.cond, m1.st).st == m2.st
      && (!m.recovered ==> !m2.recovered)
    ensures StmtAgrees(w, s, m)
    decreases m2.st.turns, s, 3
  {
    hide EvalNode, EvalExpr, ExecSuite, ExecBlock;
    assert ExecNode(w, s, m) == ExecLoop(w, s, m);
    BlockRuns(w, s.body, m2, InLoop(p, s.loopName));
    var next := ExecSuite(w, s.body, m2).(continuing := false);
    if Flagged(next) {
      assert ExecLoop(w, s, next) == next;
    } else {
      LoopRuns(w, s, next, p);
      assert ExecNode(w, s, next) == ExecLoop(w, s, next);
    }
  }

  lemma {:induction false} BlockRuns(w: World, ss: Stmts, m: Machine, p: Place)
    requires ListCareful(ss) && StmtsOk(ss, p) && p.strict && Clear(m)
    ensures BlockAgrees(w, ss, m)
    decreases m.st.turns, ss, 1
  {
    ListRuns(w, ss, m, p);
  }

  /** The flags are the statements', the state that of what they deferred as well. */
  predicate ListAgrees(w: World, ss: Stmts, m: Machine) {
    var a, r := ExecBlock(w, ss, m.st), ExecNodes(w, ss, m);
    && Shows(m, Restored(r.0, r.1), a.out, a.st)
    && (r.0.spent ==> r.1.spent)
  }

  lemma {:induction false} ListRuns(w: World, ss: Stmts, m: Machine, p: Place)
    requires ListCareful(ss) && StmtsOk(ss, p) && p.strict && Clear(m)
    ensures ListAgrees(w, ss, m)
    decreases m.st.turns, ss, 0
  {
    if ss.Cons? {
      if ss.head.Defer? {
        ListRuns(w, ss.tail, m, p);
        DeferredRuns(w, ss.head.d, ExecNodes(w, ss.tail, m).0, ExecNodes(w, ss.tail, m).1, p);
      } else {
        StmtRuns(w, ss.head, m, p);
        var now := ExecNode(w, ss.head, m);
        if !Flagged(now) { ListRuns(w, ss.tail, now, p); }
      }
    }
  }

  lemma {:induction false} DeferredRuns(w: World, d: Deferred, ended: Machine, now: Machine, p: Place)
    requires DeferCareful(d) && DeferOk(d, p) && p.strict && (ended.spent ==> now.spent)
    ensures
      var c := Cleanup(w, d, ended.returning && ended.ret.failed, now.st);
      var r := RunDeferred(w, d, ended, now);
      !now.spent ==> r.st == c.st && r.spent == (c.out == OutOfFuel)
    decreases now.st.turns, d, 0
  {
    if !now.spent && !(d.onFailure && !(ended.returning && ended.ret.failed)) {
      StmtRuns(w, d.what, now.(returning := false, breaking := false, continuing := false), SEALED);
    }
  }

  /** On careful bodies the interpreter does what the program means. */
  lemma InterpreterPreservesMeaning(w: World, body: Stmts, unit: bool, st: State)
    requires StmtsOk(body, Body(true)) && ListCareful(body)
    ensures RunInterpreter(w, body, unit, st) == RunFunction(w, body, unit, st)
  {
    BlockRuns(w, body, Fresh(st), Body(true));
    BlockLeavesAllowed(w, body, st, Body(true));
  }

  /** So interpreter and emitted code do the same. */
  lemma LoweringAgreesWithInterpreter(w: World, body: Stmts, unit: bool, n: nat, st: State)
    requires StmtsOk(body, Body(true)) && ListCareful(body)
    ensures CTarget.RunCode(w, Lowering.LowerFunction(body, unit, n).code, st) == RunInterpreter(w, body, unit, st)
  {
    InterpreterPreservesMeaning(w, body, unit, st);
    LoweringTheorem.LoweringPreservesMeaning(w, body, unit, n, st);
  }

  // ----- statement by statement, in one run -----

  predicate Jumped(o: Outcome) { o.Breaking? || o.Continuing? }

  /** An argument that jumped: the call is made. */
  lemma CallIff(w: World, f: nat, arg: Expr, m: Machine)
    requires Clear(m) && ExprAgrees(w, arg, m) && !EvalExpr(w, arg, m.st).out.Recovering?
    ensures ExprAgrees(w, Call(f, arg), m) <==> !Jumped(EvalExpr(w, arg, m.st).out)
  {
    var a, r := EvalExpr(w, arg, m.st), EvalNode(w, arg, m);
    if Jumped(a.out) { CallMade(w, f, r.0, a.st); }
  }

  lemma TryIff(w: World, f: nat, arg: Expr, m: Machine)
    requires Clear(m) && ExprAgrees(w, arg, m) && !EvalExpr(w, arg, m.st).out.Recovering?
    ensures ExprAgrees(w, Try(f, arg), m) <==> !Jumped(EvalExpr(w, arg, m.st).out)
  {
    var a, r := EvalExpr(w, arg, m.st), EvalNode(w, arg, m);
    if Jumped(a.out) {
      CallMade(w, f, r.0, a.st);
      hide Perform;
    }
  }

  lemma CallMade(w: World, f: nat, v: nat, st: State)
    ensures Perform(w, f, v, st) != st
  {
    assert |Perform(w, f, v, st).trace| == |st.trace| + 1;
  }

  /** An expression that left: what it handed back is stored. */
  lemma AssignIff(w: World, x: string, e: Expr, m: Machine)
    requires Clear(m) && ExprAgrees(w, e, m)
    ensures
      var a := EvalExpr(w, e, m.st);
      StmtAgrees(w, Assign(x, e), m)
      <==> a.out == Normal || a.out == OutOfFuel || (x in a.st.vars && a.st.vars[x] == EvalNode(w, e, m).0)
  {
    var a, r := EvalExpr(w, e, m.st), EvalNode(w, e, m);
    var stored := a.st.vars[x := r.0];
    assert stored == a.st.vars <==> x in a.st.vars && a.st.vars[x] == r.0 by {
      assert stored[x] == r.0;
      if x in a.st.vars && a.st.vars[x] == r.0 { assert stored == a.st.vars; }
    }
  }

  lemma SetAllocatorIff(w: World, e: Expr, m: Machine)
    requires Clear(m) && ExprAgrees(w, e, m)
    ensures
      var a := EvalExpr(w, e, m.st);
      StmtAgrees(w, SetAllocator(e), m)
      <==> a.out == Normal || a.out == OutOfFuel || a.st.alloc == EvalNode(w, e, m).0
  {
  }

  /** `return` of an expression that left: a failure goes on, a value returned inside it is
      replaced, a jump turns into a return. */
  lemma ReturnIff(w: World, e: Expr, m: Machine)
    requires Clear(m) && ExprAgrees(w, e, m) && !EvalExpr(w, e, m.st).out.Recovering?
    ensures
      var o := EvalExpr(w, e, m.st).out;
      StmtAgrees(w, Return(e), m)
      <==> o == Normal || o == OutOfFuel || o.Failing? || (o.Returning? && o.v == EvalNode(w, e, m).0)
  {
  }

  /** `recover` of an expression that left: only a failure goes on. */
  lemma RecoverIff(w: World, e: Expr, m: Machine)
    requires Clear(m) && !m.recovered && ExprAgrees(w, e, m) && !EvalExpr(w, e, m.st).out.Recovering?
    ensures
      var o := EvalExpr(w, e, m.st).out;
      StmtAgrees(w, Recover(e), m) <==> o == Normal || o == OutOfFuel || o.Failing?
  {
  }

  lemma ErrorIff(w: World, e: Expr, m: Machine)
    requires Clear(m) && ExprAgrees(w, e, m) && !EvalExpr(w, e, m.st).out.Recovering?
    ensures StmtAgrees(w, Error(e), m) <==> !Jumped(EvalExpr(w, e, m.st).out)
  {
  }

  /** Nothing, or first a call with a plain argument. */
  predicate Calls(ss: Stmts) {
    ss.Cons? ==> ss.head.ExprStmt? && ss.head.e.Call? && (ss.head.e.arg.Lit? || ss.head.e.arg.Name?)
  }

  /** A suite begun with a jump in flight runs its first statement. */
  lemma SuiteBegun(w: World, ss: Stmts, m: Machine)
    requires Calls(ss) && !Stopped(m) && Flagged(m)
    ensures ss.Nil? ==> ExecSuite(w, ss, m) == m
    ensures
      ss.Cons? ==>
        var r := ExecSuite(w, ss, m);
        |r.st.trace| == |m.st.trace| + 1 && r == m.(st := r.st)
  {
    if ss.Cons? {
      var e := ss.head.e;
      var v := if e.arg.Lit? then e.arg.n else Read(m.st.vars, e.arg.x);
      assert EvalNode(w, e.arg, m) == (v, m);
      var now := m.(st := Perform(w, e.f, v, m.st));
      assert ExecNode(w, ss.head, m) == now;
      assert ExecNodes(w, ss, m) == (now, now);
    }
  }

  /** A condition that jumped: one branch is begun all the same. */
  lemma IfIff(w: World, s: Stmt, m: Machine)
    requires s.If? && Clear(m) && ExprAgrees(w, s.cond, m) && !EvalExpr(w, s.cond, m.st).out.Recovering?
    requires
      var r := EvalNode(w, s.cond, m);
      var taken := if r.0 != 0 then s.thn else s.els;
      Calls(taken) && (!Flagged(r.1) ==> BlockAgrees(w, taken, r.1))
    ensures
      var o, r := EvalExpr(w, s.cond, m.st).out, EvalNode(w, s.cond, m);
      StmtAgrees(w, s, m) <==> !Jumped(o) || (if r.0 != 0 then s.thn else s.els) == Nil
  {
    hide EvalNode, EvalExpr, ExecSuite, ExecBlock;
    var r := EvalNode(w, s.cond, m);
    if Jumped(EvalExpr(w, s.cond, m.st).out) { SuiteBegun(w, if r.0 != 0 then s.thn else s.els, r.1); }
  }

  /** An allocator expression that left: the allocator is put back, and after a jump the body is
      begun first. */
  lemma WithIff(w: World, s: Stmt, m: Machine)
    requires s.With? && Clear(m) && ExprAgrees(w, s.allocator, m) && !EvalExpr(w, s.allocator, m.st).out.Recovering?
    requires
      var r := EvalNode(w, s.allocator, m);
      Calls(s.body) && (!Flagged(r.1) ==> BlockAgrees(w, s.body, r.1.(st := r.1.st.(alloc := r.0))))
    ensures
      var a := EvalExpr(w, s.allocator, m.st);
      StmtAgrees(w, s, m)
      <==> a.out == Normal || a.out == OutOfFuel || (a.st.alloc == m.st.alloc && (!Jumped(a.out) || s.body == Nil))
  {
    hide EvalNode, EvalExpr, ExecSuite, ExecBlock;
    var r := EvalNode(w, s.allocator, m);
    if Jumped(EvalExpr(w, s.allocator, m.st).out) { SuiteBegun(w, s.body, r.1.(st := r.1.st.(alloc := r.0))); }
  }

  /** A loop condition that left and handed back nothing: right, whichever way it left. */
  lemma ConditionLeft(w: World, s: Stmt, m: Machine)
    requires s.While? && Clear(m) && m.st.turns > 0
    requires
      var m1 := m.(st := m.st.(turns := m.st.turns - 1));
      ExprAgrees(w, s.cond, m1) && EvalExpr(w, s.cond, m1.st).out != Normal && EvalNode(w, s.cond, m1).0 == 0
    ensures StmtAgrees(w, s, m)
  {
    hide EvalNode, EvalExpr, ExecSuite, ExecBlock;
    assert m.(continuing := false) == m;
    assert ExecNode(w, s, m) == ExecLoop(w, s, m);
  }

  // ----- an expression without handlers, in every run -----

  predicate NoCatch(e: Expr) {
    match e
    case Lit(_) => true
    case Name(_) => true
    case Call(_, arg) => NoCatch(arg)
    case Try(_, arg) => NoCatch(arg)
    case Catch(_, _, _) => false
  }

  lemma {:induction false} NoCatchIsCareful(e: Expr)
    requires NoCatch(e)
    ensures ExprCareful(e) && ExprOk(e, FALLIBLE) && ExprOk(e, JUMPLESS)
    decreases e
  {
    match e
    case Call(_, arg) => NoCatchIsCareful(arg);
    case Try(_, arg) => NoCatchIsCareful(arg);
    case _ =>
  }

  /** Every fallible call fails, every call changes the allocator, and `x` is 1 whatever was
      stored there. */
  function Hostile(x: string): World { World((events: seq<Event>) => Reply(0, true, |events|, map[x := 1])) }

  const NOTHING := State([], 0, map[], 0)

  lemma {:induction false} FailsOrGives(x: string, e: Expr, m: Machine)
    requires NoCatch(e) && Clear(m) && m.st.alloc == |m.st.trace|
    ensures
      var a, r := EvalExpr(Hostile(x), e, m.st), EvalNode(Hostile(x), e, m);
      && a.st.alloc == |a.st.trace| && |m.st.trace| <= |a.st.trace|
      && (ExprOk(e, SEALED) ==> a.out == Normal)
      && (!ExprOk(e, SEALED) ==> a.out.Failing? && r.0 == 0 && |m.st.trace| < |a.st.trace| && a.st.vars == map[x := 1])
    decreases e, 0
  {
    match e
    case Lit(_) =>
    case Name(_) =>
    case Call(_, arg) => FailsThrough(x, e, arg, m);
    case Try(_, arg) => FailsThrough(x, e, arg, m);
  }

  lemma {:induction false} FailsThrough(x: string, e: Expr, arg: Expr, m: Machine)
    requires (e.Call? || e.Try?) && e.arg == arg && NoCatch(arg) && Clear(m) && m.st.alloc == |m.st.trace|
    ensures
      var a, r := EvalExpr(Hostile(x), e, m.st), EvalNode(Hostile(x), e, m);
      && a.st.alloc == |a.st.trace| && |m.st.trace| <= |a.st.trace|
      && (ExprOk(e, SEALED) ==> a.out == Normal)
      && (!ExprOk(e, SEALED) ==> a.out.Failing? && r.0 == 0 && |m.st.trace| < |a.st.trace| && a.st.vars == map[x := 1])
    decreases arg, 1
  {
    FailsOrGives(x, arg, m);
    NoCatchIsCareful(arg);
    ExprRuns(Hostile(x), arg, m, FALLIBLE);
  }

  /** Assigning is right in every run exactly when the expression holds no call under `try`. */
  lemma AssignAlwaysIff(x: string, e: Expr)
    requires NoCatch(e)
    ensures (forall w: World, st: State :: StmtAgrees(w, Assign(x, e), Fresh(st))) <==> ExprOk(e, SEALED)
  {
    NoCatchIsCareful(e);
    if ExprOk(e, SEALED) {
      forall w: World, st: State ensures StmtAgrees(w, Assign(x, e), Fresh(st)) {
        StmtRuns(w, Assign(x, e), Fresh(st), SEALED);
      }
    } else {
      var w, m := Hostile(x), Fresh(NOTHING);
      FailsOrGives(x, e, m);
      ExprRuns(w, e, m, FALLIBLE);
      AssignIff(w, x, e, m);
      assert !StmtAgrees(w, Assign(x, e), Fresh(NOTHING));
    }
  }

  /** The same for the allocator of a `with`. */
  lemma WithAlwaysIff(a: Expr, body: Stmts)
    requires NoCatch(a) && ListCareful(body) && StmtsOk(body, SEALED) && Calls(body)
    ensures (forall w: World, st: State :: StmtAgrees(w, With(a, body), Fresh(st))) <==> ExprOk(a, SEALED)
  {
    NoCatchIsCareful(a);
    if ExprOk(a, SEALED) {
      forall w: World, st: State ensures StmtAgrees(w, With(a, body), Fresh(st)) {
        StmtRuns(w, With(a, body), Fresh(st), SEALED);
      }
    } else {
      var w, m := Hostile(""), Fresh(NOTHING);
      FailsOrGives("", a, m);
      ExprRuns(w, a, m, FALLIBLE);
      WithIff(w, With(a, body), m);
      assert !StmtAgrees(w, With(a, body), Fresh(NOTHING));
    }
  }

  // ----- inputs -----

  const START := State([], 0, map["x" := 1], 0)

  /** Every fallible call fails with 0; variables and allocator stay. */
  const FAILING := World((events: seq<Event>) => Reply(0, true, 0, map["x" := 1]))

  /** `defer print(x)` and then `x = try f(0)`. */
  function FailingAssign(): Stmts {
    Cons(Defer(Deferred(ExprStmt(Call(1, Name("x"))), false)), Cons(Assign("x", Try(0, Lit(0))), Nil))
  }

  /** The failing assignment stores all the same: 0 is printed for the 1 that `x` holds. */
  lemma FailingAssignStores()
    ensures StmtsOk(FailingAssign(), Body(true))
    ensures
      var r, i := RunFunction(FAILING, FailingAssign(), true, START), RunInterpreter(FAILING, FailingAssign(), true, START);
      r.0 == i.0 == Err(0) && |r.1.trace| == |i.1.trace| == 2 && r.1.trace[1].arg == 1 && i.1.trace[1].arg == 0
  {
    var m, x, e := Fresh(START), "x", Try(0, Lit(0));
    var st := Perform(FAILING, 0, 0, START);
    assert EvalExpr(FAILING, e, START) == Value(Failing(0), 0, st) by { assert EvalExpr(FAILING, Lit(0), START).out == Normal; }
    assert EvalNode(FAILING, e, m) == (0, m.(st := st, returning := true, ret := Ret(true, 0))) by {
      assert EvalNode(FAILING, Lit(0), m) == (0, m);
    }
    var d := Deferred(ExprStmt(Call(1, Name(x))), false);
    var ss := Cons(Assign(x, e), Nil);
    assert ExecBlock(FAILING, ss, START) == Run(Failing(0), st) by { assert ExecStmt(FAILING, ss.head, START) == Run(Failing(0), st); }
    var now := m.(st := st.(vars := st.vars[x := 0]), returning := true, ret := Ret(true, 0));
    assert ExecNodes(FAILING, ss, m) == (now, now) by { assert ExecNode(FAILING, ss.head, m) == now; }
    Prints(d, x, st);
    PrintsNow(d, x, now);
  }

  lemma Prints(d: Deferred, x: string, st: State)
    requires d == Deferred(ExprStmt(Call(1, Name(x))), false)
    ensures Finally(FAILING, d, Run(Failing(0), st)) == Run(Failing(0), Perform(FAILING, 1, Read(st.vars, x), st))
  {
    assert EvalExpr(FAILING, Name(x), st) == Value(Normal, Read(st.vars, x), st);
    assert ExecStmt(FAILING, d.what, st) == Run(Normal, Perform(FAILING, 1, Read(st.vars, x), st));
  }

  lemma PrintsNow(d: Deferred, x: string, now: Machine)
    requires d == Deferred(ExprStmt(Call(1, Name(x))), false) && !now.spent
    ensures
      var st := Perform(FAILING, 1, Read(now.st.vars, x), now.st);
      Restored(now, RunDeferred(FAILING, d, now, now)) == now.(st := st)
  {
    var clear := now.(returning := false, breaking := false, continuing := false);
    var v := Read(now.st.vars, x);
    assert EvalNode(FAILING, Name(x), clear) == (v, clear);
    assert EvalNode(FAILING, d.what.e, clear).1 == clear.(st := Perform(FAILING, 1, v, now.st));
    assert ExecNode(FAILING, d.what, clear) == clear.(st := Perform(FAILING, 1, v, now.st));
  }

  /** `f(0) catch e: break`, where `f` fails. */
  function CatchBreak(): Expr { Catch(Try(0, Lit(0)), "e", Cons(Break(""), Nil)) }

  function Caught(): State {
    var st := Perform(FAILING, 0, 0, START);
    st.(vars := st.vars["e" := 0])
  }

  lemma CatchBreakLeaves()
    ensures EvalExpr(FAILING, CatchBreak(), START) == Value(Breaking(""), 0, Caught())
    ensures ExprAgrees(FAILING, CatchBreak(), Fresh(START)) && EvalNode(FAILING, CatchBreak(), Fresh(START)).0 == 0
  {
    var m, h := Fresh(START), Cons(Break(""), Nil);
    var st := Perform(FAILING, 0, 0, START);
    assert EvalExpr(FAILING, Try(0, Lit(0)), START) == Value(Failing(0), 0, st) by {
      assert EvalExpr(FAILING, Lit(0), START).out == Normal;
    }
    assert ExecBlock(FAILING, h, Caught()) == Run(Breaking(""), Caught()) by {
      assert ExecStmt(FAILING, h.head, Caught()) == Run(Breaking(""), Caught());
    }
    var failed := m.(st := st, returning := true, ret := Ret(true, 0));
    assert EvalNode(FAILING, Try(0, Lit(0)), m) == (0, failed) by { assert EvalNode(FAILING, Lit(0), m) == (0, m); }
    var inside := Handling(failed, "e");
    var now := inside.(breaking := true, aim := "");
    assert ExecNodes(FAILING, h, inside) == (now, now) by { assert ExecNode(FAILING, h.head, inside) == now; }
  }

  /** Whenever an expression jumps: the call is made, a branch and a body are begun, a value is
      returned. */
  lemma JumpRunsOn(w: World, e: Expr, calls: Stmts, m: Machine)
    requires Clear(m) && ExprAgrees(w, e, m) && Jumped(EvalExpr(w, e, m.st).out) && EvalNode(w, e, m).0 == 0
    requires calls.Cons? && Calls(calls)
    ensures !ExprAgrees(w, Call(1, e), m) && !StmtAgrees(w, Return(e), m)
    ensures !StmtAgrees(w, If(e, Nil, calls), m) && !StmtAgrees(w, With(e, calls), m)
  {
    hide EvalExpr, EvalNode, ExecStmt, ExecNode;
    CallIff(w, 1, e, m);
    IfIff(w, If(e, Nil, calls), m);
    WithIff(w, With(e, calls), m);
    ReturnIff(w, e, m);
  }

  /** `print(f(0) catch e: break)` and the like, in a loop: accepted, and `f` failing is such a
      run. */
  lemma CatchBreakRunsOn(calls: Stmts)
    requires calls.Cons? && Calls(calls)
    ensures ExprOk(CatchBreak(), InLoop(Body(true), ""))
    ensures !ExprAgrees(FAILING, Call(1, CatchBreak()), Fresh(START)) && !StmtAgrees(FAILING, Return(CatchBreak()), Fresh(START))
    ensures !StmtAgrees(FAILING, If(CatchBreak(), Nil, calls), Fresh(START))
    ensures !StmtAgrees(FAILING, With(CatchBreak(), calls), Fresh(START))
  {
    CatchBreakAccepted();
    CatchBreakLeaves();
    hide EvalExpr, EvalNode, ExecStmt, ExecNode, CatchBreak, ExprAgrees, StmtAgrees;
    JumpRunsOn(FAILING, CatchBreak(), calls, Fresh(START));
  }

  lemma CatchBreakAccepted()
    ensures ExprOk(CatchBreak(), InLoop(Body(true), ""))
  {
    var p, h := InLoop(Body(true), ""), Cons(Break(""), Nil);
    assert StmtOk(h.head, p.(inCatch := true)) && StmtsOk(h, p.(inCatch := true));
    assert ExprOk(Try(0, Lit(0)), p.(mayFail := true)) by { assert ExprOk(Lit(0), p.(mayFail := true)); }
  }
}
