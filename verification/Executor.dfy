/** The tree-walking interpreter (src/interp/exec.cpp, src/interp/eval.cpp) on the statements of
    LuceSource.  It has no outcomes: a `return`, a failure, a jump or a `recover` in flight is a
    flag, and what comes next looks at some of the flags or at none.  Calls are events, as there;
    a call made while a jump is in flight is made all the same. */
module Executor {
  import opened LuceSource

  /** What is being returned: a value, or a failure's code. */
  datatype Ret = Ret(failed: bool, v: nat)

  /** The interpreter's fields.  `spent` is not one of them: the run is cut short for lack of
      turns, and like a trap it stops everything. */
  datatype Machine = Machine(
    st: State, returning: bool, ret: Ret, breaking: bool, continuing: bool, aim: string,
    recovered: bool, recoverVal: nat, spent: bool)

  function Fresh(st: State): Machine { Machine(st, false, Ret(false, 0), false, false, "", false, 0, false) }

  /** `exec` does nothing now. */
  predicate Stopped(m: Machine) { m.spent || m.returning }

  /** A block runs no further statement. */
  predicate Flagged(m: Machine) { Stopped(m) || m.breaking || m.continuing }

  /** `eval`: a value, and the fields after it.  Of an expression that left, the value is whatever
      the interpreter happens to hand back. */
  function EvalNode(w: World, e: Expr, m: Machine): (r: (nat, Machine))
    ensures r.1.st.turns <= m.st.turns
    decreases m.st.turns, e, 0
  {
    match e
    case Lit(n) => (n, m)
    case Name(x) => (Read(m.st.vars, x), m)
    case Call(f, arg) =>
      var a := EvalNode(w, arg, m);
      if Stopped(a.1) then (0, a.1)
      else (Answer(w, f, a.0, a.1.st).value, a.1.(st := Perform(w, f, a.0, a.1.st)))
    case Try(f, arg) =>
      var a := EvalNode(w, arg, m);
      if Stopped(a.1) then (0, a.1)
      else
        var r, after := Answer(w, f, a.0, a.1.st), a.1.(st := Perform(w, f, a.0, a.1.st));
        if r.failed then (0, after.(returning := true, ret := Ret(true, r.value))) else (r.value, after)
    case Catch(operand, x, handler) =>
      var a := EvalNode(w, operand, m);
      if a.1.spent || !(a.1.returning && a.1.ret.failed) then a
      else
        var h := ExecSuite(w, handler, Handling(a.1, x));
        // a handler that falls off its end is one of type `unit`
        (if !Flagged(h) then 0 else h.recoverVal, if h.recovered then h.(returning := false, recovered := false) else h)
  }

  /** `run_catch_handler` begins: the failure is no longer in flight, and has a name. */
  function Handling(m: Machine, x: string): Machine {
    m.(returning := false, recovered := false, recoverVal := 0, st := m.st.(vars := m.st.vars[x := m.ret.v]))
  }

  /** `exec` */
  function ExecNode(w: World, s: Stmt, m: Machine): (r: Machine)
    ensures r.st.turns <= m.st.turns
    decreases m.st.turns, s, 1
  {
    if Stopped(m) then m
    else
      match s
      case ExprStmt(e) => EvalNode(w, e, m).1
      case Assign(x, e) =>
        var a := EvalNode(w, e, m);
        if a.1.spent then a.1 else a.1.(st := a.1.st.(vars := a.1.st.vars[x := a.0]))
      case SetAllocator(e) =>
        var a := EvalNode(w, e, m);
        if a.1.spent then a.1 else a.1.(st := a.1.st.(alloc := a.0))
      case If(c, thn, els) =>
        var a := EvalNode(w, c, m);
        if Stopped(a.1) then a.1 else ExecSuite(w, if a.0 != 0 then thn else els, a.1)
      case While(_, _, _) => ExecLoop(w, s, m)
      case Block(body) => ExecSuite(w, body, m)
      case With(allocator, body) =>
        var a := EvalNode(w, allocator, m);
        if a.1.spent then a.1
        else
          var inner := a.1.(st := a.1.st.(alloc := a.0));
          var b := if Stopped(inner) then inner else ExecSuite(w, body, inner);
          if b.spent then b else b.(st := b.st.(alloc := m.st.alloc))
      case Return(e) =>
        var a := EvalNode(w, e, m);
        if a.1.spent || (a.1.returning && a.1.ret.failed) then a.1
        else a.1.(ret := Ret(false, a.0), returning := true)
      case ReturnUnit => m.(ret := Ret(false, 0), returning := true)
      case Error(e) =>
        var a := EvalNode(w, e, m);
        if Stopped(a.1) then a.1 else a.1.(ret := Ret(true, a.0), returning := true)
      case Break(loopName) => m.(breaking := true, aim := loopName)
      case Continue(loopName) => m.(continuing := true, aim := loopName)
      case Recover(e) =>
        var a := EvalNode(w, e, m);
        if a.1.spent then a.1
        else if a.1.returning && a.1.ret.failed then a.1.(recoverVal := a.0)
        else a.1.(recoverVal := a.0, ret := Ret(false, 0), recovered := true, returning := true)
      case Defer(_) => m  // its block runs it, when the block is left
  }

  /** The `while` of the `While` case, and `leave_loop` after its body. */
  function ExecLoop(w: World, s: Stmt, m: Machine): (r: Machine)
    requires s.While?
    ensures r.st.turns <= m.st.turns
    decreases m.st.turns, s, 0
  {
    if Stopped(m) || m.breaking then m
    else if m.st.turns == 0 then m.(spent := true)
    else
      var c := EvalNode(w, s.cond, m.(continuing := false, st := m.st.(turns := m.st.turns - 1)));
      if c.1.spent || c.0 == 0 then c.1
      else
        var b := if Stopped(c.1) then c.1 else ExecSuite(w, s.body, c.1);
        if b.breaking then b.(breaking := !Aims(b.aim, s.loopName))
        else if b.continuing && !Aims(b.aim, s.loopName) then b
        else ExecLoop(w, s, b.(continuing := false))
  }

  /** A block: its statements, what they deferred, and then the flags as the statements left
      them. */
  function ExecSuite(w: World, ss: Stmts, m: Machine): (r: Machine)
    ensures r.st.turns <= m.st.turns
    decreases m.st.turns, ss, 1
  {
    var r := ExecNodes(w, ss, m);
    Restored(r.0, r.1)
  }

  function Restored(ended: Machine, now: Machine): Machine {
    ended.(st := now.st, spent := now.spent)
  }

  /** The fields once the statements have ended, and once everything deferred on the way has run,
      newest first. */
  function ExecNodes(w: World, ss: Stmts, m: Machine): (r: (Machine, Machine))
    ensures r.0.st.turns <= m.st.turns && r.1.st.turns <= m.st.turns
    decreases m.st.turns, ss, 0
  {
    match ss
    case Nil => (m, m)
    case Cons(s, rest) =>
      if s.Defer? then
        var r := if Flagged(m) then (m, m) else ExecNodes(w, rest, m);
        (r.0, RunDeferred(w, s.d, r.0, r.1))
      else
        var now := ExecNode(w, s, m);
        if Flagged(now) then (now, now) else ExecNodes(w, rest, now)
  }

  /** One deferred statement runs whole, with nothing in flight. */
  function RunDeferred(w: World, d: Deferred, ended: Machine, now: Machine): (r: Machine)
    ensures r.st.turns <= now.st.turns
    decreases now.st.turns, d, 0
  {
    if now.spent || (d.onFailure && !(ended.returning && ended.ret.failed)) then now
    else ExecNode(w, d.what, now.(returning := false, breaking := false, continuing := false))
  }

  /** `call_func`; the checker refuses a body that may fall off the end of a function with a
      value. */
  function RunInterpreter(w: World, body: Stmts, unit: bool, st: State): (Result, State) {
    var m := ExecSuite(w, body, Fresh(st));
    if m.spent then (Diverged, m.st)
    else if m.returning then (if m.ret.failed then Err(m.ret.v) else Ok(m.ret.v), m.st)
    else (if unit then Ok(0) else Trapped, m.st)
  }
}
