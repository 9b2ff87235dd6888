/** Luce Base statements that leave scopes, and what running them means.

    A statement that leaves does nothing more: what a block has deferred runs when the block is
    left, newest first and whatever way it is left; `errdefer` runs only when a failure is passing
    through; `with` puts the allocator back when its body is left.  Everything a program does to
    the outside world is one event, and everything the outside world answers (a value, a failure,
    a new allocator, new contents of variables) is an arbitrary function of all the events so far,
    so a statement proved for every `World` holds of every run.

    The emitted code is compared with this meaning in LoweringTheorem, the interpreter in
    ExecutorTheorem. */
module LuceSource {

  datatype Expr =
    | Lit(n: nat)
    | Name(x: string)
    | Call(f: nat, arg: Expr)                                // a call that cannot fail
    | Try(f: nat, arg: Expr)                                 // a fallible call under `try`
    | Catch(operand: Expr, name: string, handler: Stmts)

  datatype Stmt =
    | ExprStmt(e: Expr)
    | Assign(x: string, e: Expr)
    | SetAllocator(e: Expr)                                  // `memory.allocator = e`
    | If(cond: Expr, thn: Stmts, els: Stmts)
    | While(loopName: string, cond: Expr, body: Stmts)       // an empty name is no label
    | Block(body: Stmts)
    | With(allocator: Expr, body: Stmts)
    | Return(e: Expr)
    | ReturnUnit
    | Error(e: Expr)
    | Break(loopName: string)
    | Continue(loopName: string)
    | Recover(e: Expr)
    | Defer(d: Deferred)

  /** Statements are chained through `next` in the tree. */
  datatype Stmts = Nil | Cons(head: Stmt, tail: Stmts)

  /** `defer`, or `errdefer` when `onFailure` is set: a suite, an assignment or an expression. */
  datatype Deferred = Deferred(what: Stmt, onFailure: bool)

  datatype Event = Event(what: nat, arg: nat, alloc: nat, vars: map<string, nat>)
  datatype Reply = Reply(value: nat, failed: bool, alloc: nat, vars: map<string, nat>)

  /** The outside world. */
  datatype World = World(answers: seq<Event> -> Reply)

  /** `turns` is how many more turns of loops the run may take: every run is a run of some length. */
  datatype State = State(trace: seq<Event>, alloc: nat, vars: map<string, nat>, turns: nat)

  datatype Outcome =
    | Normal
    | Breaking(name: string)
    | Continuing(name: string)
    | Returning(v: nat)
    | Failing(err: nat)
    | Recovering(v: nat)
    | OutOfFuel

  datatype Value = Value(out: Outcome, v: nat, st: State)
  datatype Run = Run(out: Outcome, st: State)

  function Read(vars: map<string, nat>, x: string): nat {
    if x in vars then vars[x] else 0
  }

  /** The event `what(arg)`, and the world's answer to it. */
  function Answer(w: World, what: nat, arg: nat, st: State): Reply {
    w.answers(st.trace + [Event(what, arg, st.alloc, st.vars)])
  }

  /** The state once the event has happened. */
  function Perform(w: World, what: nat, arg: nat, st: State): State {
    var r := Answer(w, what, arg, st);
    State(st.trace + [Event(what, arg, st.alloc, st.vars)], r.alloc, r.vars, st.turns)
  }

  /** Whether a jump naming `aim` stops at the loop `loopName`: unnamed jumps stop at any loop. */
  predicate Aims(aim: string, loopName: string) { aim == "" || aim == loopName }

  function EvalExpr(w: World, e: Expr, st: State): (r: Value)
    ensures r.st.turns <= st.turns
    decreases st.turns, e
  {
    match e
    case Lit(n) => Value(Normal, n, st)
    case Name(x) => Value(Normal, Read(st.vars, x), st)
    case Call(f, arg) =>
      var a := EvalExpr(w, arg, st);
      if a.out != Normal then a
      else Value(Normal, Answer(w, f, a.v, a.st).value, Perform(w, f, a.v, a.st))
    case Try(f, arg) =>
      var a := EvalExpr(w, arg, st);
      if a.out != Normal then a
      else
        var r := Answer(w, f, a.v, a.st);
        Value(if r.failed then Failing(r.value) else Normal, r.value, Perform(w, f, a.v, a.st))
    case Catch(operand, x, handler) =>
      var a := EvalExpr(w, operand, st);
      if !a.out.Failing? then a
      else
        var h := ExecBlock(w, handler, a.st.(vars := a.st.vars[x := a.out.err]));
        match h.out
        case Normal => Value(Normal, 0, h.st)
        case Recovering(v) => Value(Normal, v, h.st)
        case _ => Value(h.out, 0, h.st)
  }

  function ExecStmt(w: World, s: Stmt, st: State): (r: Run)
    ensures r.st.turns <= st.turns
    decreases st.turns, s
  {
    match s
    case ExprStmt(e) =>
      var a := EvalExpr(w, e, st);
      Run(a.out, a.st)
    case Assign(x, e) =>
      var a := EvalExpr(w, e, st);
      if a.out != Normal then Run(a.out, a.st) else Run(Normal, a.st.(vars := a.st.vars[x := a.v]))
    case SetAllocator(e) =>
      var a := EvalExpr(w, e, st);
      if a.out != Normal then Run(a.out, a.st) else Run(Normal, a.st.(alloc := a.v))
    case If(c, thn, els) =>
      var a := EvalExpr(w, c, st);
      if a.out != Normal then Run(a.out, a.st) else ExecBlock(w, if a.v != 0 then thn else els, a.st)
    case While(loopName, c, body) =>
      if st.turns == 0 then Run(OutOfFuel, st)
      else
        var a := EvalExpr(w, c, st.(turns := st.turns - 1));
        if a.out != Normal || a.v == 0 then Run(a.out, a.st)
        else
          var b := ExecBlock(w, body, a.st);
          if b.out == Normal || (b.out.Continuing? && Aims(b.out.name, loopName)) then ExecStmt(w, s, b.st)
          else if b.out.Breaking? && Aims(b.out.name, loopName) then Run(Normal, b.st)
          else b
    case Block(body) => ExecBlock(w, body, st)
    case With(allocator, body) =>
      var a := EvalExpr(w, allocator, st);
      if a.out != Normal then Run(a.out, a.st)
      else
        var b := ExecBlock(w, body, a.st.(alloc := a.v));
        if b.out == OutOfFuel then b else Run(b.out, b.st.(alloc := st.alloc))
    case Return(e) =>
      var a := EvalExpr(w, e, st);
      Run(if a.out == Normal then Returning(a.v) else a.out, a.st)
    case ReturnUnit => Run(Returning(0), st)
    case Error(e) =>
      var a := EvalExpr(w, e, st);
      Run(if a.out == Normal then Failing(a.v) else a.out, a.st)
    case Break(loopName) => Run(Breaking(loopName), st)
    case Continue(loopName) => Run(Continuing(loopName), st)
    case Recover(e) =>
      var a := EvalExpr(w, e, st);
      Run(if a.out == Normal then Recovering(a.v) else a.out, a.st)
    case Defer(_) => Run(Normal, st)  // its block runs it, when the block is left
  }

  /** What is deferred, when its block is left: run whole, or passed over.  Leaving it early is
      forgotten; what is in flight goes on. */
  function Cleanup(w: World, d: Deferred, failing: bool, st: State): (r: Run)
    ensures (r.out == Normal || r.out == OutOfFuel) && r.st.turns <= st.turns
    decreases st.turns, d, 0
  {
    if d.onFailure && !failing then Run(Normal, st)
    else
      var c := ExecStmt(w, d.what, st);
      Run(if c.out == OutOfFuel then OutOfFuel else Normal, c.st)
  }

  /** What is in flight goes on after a cleanup that ended. */
  function Resume(o: Outcome, c: Run): Run { Run(if c.out == OutOfFuel then OutOfFuel else o, c.st) }

  function Finally(w: World, d: Deferred, r: Run): (f: Run)
    ensures (f.out == r.out || f.out == OutOfFuel) && f.st.turns <= r.st.turns
    decreases r.st.turns, d, 1
  {
    if r.out == OutOfFuel then r else Resume(r.out, Cleanup(w, d, r.out.Failing?, r.st))
  }

  /** A block: everything after a `defer` runs before what it defers. */
  function ExecBlock(w: World, ss: Stmts, st: State): (r: Run)
    ensures r.st.turns <= st.turns
    decreases st.turns, ss
  {
    match ss
    case Nil => Run(Normal, st)
    case Cons(s, rest) =>
      if s.Defer? then Finally(w, s.d, ExecBlock(w, rest, st))
      else
        var r := ExecStmt(w, s, st);
        if r.out == Normal then ExecBlock(w, rest, r.st) else r
  }

  /** What a call of a function comes to. */
  datatype Result = Ok(v: nat) | Err(err: nat) | Trapped | Diverged

  /** A fallible function's body; `unit` functions may fall off the end. */
  function RunFunction(w: World, body: Stmts, unit: bool, st: State): (Result, State) {
    var r := ExecBlock(w, body, st);
    match r.out
    case Returning(v) => (Ok(v), r.st)
    case Failing(e) => (Err(e), r.st)
    case Normal => (if unit then Ok(0) else Trapped, r.st)
    case OutOfFuel => (Diverged, r.st)
    case _ => (Trapped, r.st)
  }

  // ----- what leaves a place -----

  /** The ways out a place in the program has: its open loops, the handler around it, a failure,
      a return.  With `strict`, also nothing leaves what is deferred, and no unnamed jump leaves
      the condition of a loop. */
  datatype Place = Place(open: set<string>, inLoop: bool, inCatch: bool, mayFail: bool, mayReturn: bool, strict: bool)

  /** A fallible function's body. */
  function Body(strict: bool): Place { Place({}, false, false, true, true, strict) }

  /** What nothing leaves. */
  const SEALED := Place({}, false, false, false, false, true)

  predicate ExprOk(e: Expr, p: Place) {
    match e
    case Lit(_) => true
    case Name(_) => true
    case Call(_, arg) => ExprOk(arg, p)
    case Try(_, arg) => p.mayFail && ExprOk(arg, p)
    case Catch(operand, _, handler) => ExprOk(operand, p.(mayFail := true)) && StmtsOk(handler, p.(inCatch := true))
  }

  /** `break` and `continue` name an open loop, no label is opened twice, `recover` is in a
      handler (check_stmt's Break, Continue and Recover cases, enter_loop). */
  predicate StmtOk(s: Stmt, p: Place) {
    match s
    case ExprStmt(e) => ExprOk(e, p)
    case Assign(_, e) => ExprOk(e, p)
    case SetAllocator(e) => ExprOk(e, p)
    case If(c, thn, els) => ExprOk(c, p) && StmtsOk(thn, p) && StmtsOk(els, p)
    case While(loopName, c, body) =>
      && (loopName != "" ==> loopName !in p.open)
      && ExprOk(c, if p.strict then p.(inLoop := false) else p)
      && StmtsOk(body, InLoop(p, loopName))
    case Block(body) => StmtsOk(body, p)
    case With(a, body) => ExprOk(a, p) && StmtsOk(body, p)
    case Return(e) => p.mayReturn && ExprOk(e, p)
    case ReturnUnit => p.mayReturn
    case Error(e) => p.mayFail && ExprOk(e, p)
    case Break(loopName) => if loopName == "" then p.inLoop else loopName in p.open
    case Continue(loopName) => if loopName == "" then p.inLoop else loopName in p.open
    case Recover(e) => p.inCatch && ExprOk(e, p)
    case Defer(d) => DeferOk(d, p)
  }

  function InLoop(p: Place, loopName: string): Place {
    p.(open := if loopName == "" then p.open else p.open + {loopName}, inLoop := true)
  }

  /** A suite or an assignment is checked with no loop open, no return and no failure, but in the
      same handler (check_deferred); an expression just where it stands. */
  predicate DeferOk(d: Deferred, p: Place) {
    && (d.what.Block? || d.what.Assign? || d.what.SetAllocator? || d.what.ExprStmt?)
    && StmtOk(d.what, if p.strict then SEALED
                      else if d.what.ExprStmt? then p
                      else Place({}, false, p.inCatch, false, false, false))
  }

  predicate StmtsOk(ss: Stmts, p: Place) {
    ss.Cons? ==> StmtOk(ss.head, p) && StmtsOk(ss.tail, p)
  }

  /** Which ways out a place in the program allows. */
  predicate Allowed(o: Outcome, p: Place) {
    match o
    case Breaking(l) => if l == "" then p.inLoop else l in p.open
    case Continuing(l) => if l == "" then p.inLoop else l in p.open
    case Recovering(_) => p.inCatch
    case Failing(_) => p.mayFail
    case Returning(_) => p.mayReturn
    case _ => true
  }

  /** A checked expression never lets a `recover` out of its own handlers, and leaves only as its
      place allows. */
  lemma {:induction false} ExprLeavesAllowed(w: World, e: Expr, st: State, p: Place)
    requires ExprOk(e, p)
    ensures Allowed(EvalExpr(w, e, st).out, p) && !EvalExpr(w, e, st).out.Recovering?
    decreases st.turns, e
  {
    match e
    case Lit(_) =>
    case Name(_) =>
    case Call(_, arg) => ExprLeavesAllowed(w, arg, st, p);
    case Try(_, arg) => ExprLeavesAllowed(w, arg, st, p);
    case Catch(operand, x, handler) =>
      ExprLeavesAllowed(w, operand, st, p.(mayFail := true));
      var a := EvalExpr(w, operand, st);
      if a.out.Failing? {
        BlockLeavesAllowed(w, handler, a.st.(vars := a.st.vars[x := a.out.err]), p.(inCatch := true));
      }
  }

  lemma {:induction false} StmtLeavesAllowed(w: World, s: Stmt, st: State, p: Place)
    requires StmtOk(s, p)
    ensures Allowed(ExecStmt(w, s, st).out, p)
    decreases st.turns, s
  {
    match s
    case If(c, thn, els) =>
      ExprLeavesAllowed(w, c, st, p);
      var a := EvalExpr(w, c, st);
      if a.out == Normal { BlockLeavesAllowed(w, if a.v != 0 then thn else els, a.st, p); }
    case While(loopName, c, body) =>
      if st.turns > 0 {
        var st1 := st.(turns := st.turns - 1);
        ExprLeavesAllowed(w, c, st1, if p.strict then p.(inLoop := false) else p);
        var a := EvalExpr(w, c, st1);
        if a.out == Normal && a.v != 0 {
          BlockLeavesAllowed(w, body, a.st, InLoop(p, loopName));
          StmtLeavesAllowed(w, s, ExecBlock(w, body, a.st).st, p);
        }
      }
    case Block(body) => BlockLeavesAllowed(w, body, st, p);
    case With(a, body) =>
      ExprLeavesAllowed(w, a, st, p);
      var v := EvalExpr(w, a, st);
      if v.out == Normal { BlockLeavesAllowed(w, body, v.st.(alloc := v.v), p); }
    case ReturnUnit =>
    case Break(_) =>
    case Continue(_) =>
    case Defer(_) =>
    case _ => ExprLeavesAllowed(w, s.e, st, p);
  }

  lemma {:induction false} BlockLeavesAllowed(w: World, ss: Stmts, st: State, p: Place)
    requires StmtsOk(ss, p)
    ensures Allowed(ExecBlock(w, ss, st).out, p)
    decreases st.turns, ss
  {
    if ss.Cons? {
      if ss.head.Defer? {
        BlockLeavesAllowed(w, ss.tail, st, p);
      } else {
        StmtLeavesAllowed(w, ss.head, st, p);
        var r := ExecStmt(w, ss.head, st);
        if r.out == Normal {
          BlockLeavesAllowed(w, ss.tail, r.st, p);
        }
      }
    }
  }
}
