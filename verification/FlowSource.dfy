/** The statements the checker's flow analyses read, and what running them means.

    Calls, pattern tests and failures are answered by an arbitrary function of the calls so
    far.  Fuel is spent only when a loop starts another turn, so a transformation that keeps
    the loops can be compared at equal fuel. */
module FlowSource {
  import ConstFold

  datatype Expr =
    | Bool(b: bool)
    | Int(n: int)
    | Name(x: string)
    | SelfRef
    | Const(init: Expr)                          // a top-level `let`, with its initialiser
    | Group(e: Expr)
    | Not(e: Expr)
    | And(left: Expr, right: Expr)
    | Or(left: Expr, right: Expr)
    | Compare(c: ConstFold.Comparison)           // of constant integers; others are calls
    | Member(e: Expr, field: nat)
    | AddressOf(e: Expr)
    | Else(e: Expr, fallback: Expr)              // `e else fallback`
    | Call(f: nat, args: Exprs)
    | Try(f: nat, args: Exprs)
    | Never(f: nat)                              // a call of type `never`
    | Catch(operand: Expr, name: string, handler: Stmts)

  datatype Exprs = NoExprs | More(head: Expr, tail: Exprs)

  datatype Stmt =
    | Let(x: string, init: Expr)                 // `let` or `var` with an initialiser
    | Declare(x: string)                         // `var` without one
    | Assign(x: string, e: Expr)
    | AssignField(field: nat, e: Expr)           // `self.field = e`
    | Store(place: Expr, e: Expr)                // any other place, and compound assignment
    | ExprStmt(e: Expr)
    | If(cond: Expr, thn: Stmts, els: Stmts)
    | While(loopName: string, cond: Expr, body: Stmts)
    | Block(body: Stmts)
    | With(allocator: Expr, body: Stmts)
    | Match(e: Expr, arms: Arms)
    | Return(e: Expr)
    | Recover(e: Expr)
    | Error(e: Expr)
    | Trap
    | Break(loopName: string)
    | Continue(loopName: string)

  datatype Stmts = Nil | Cons(head: Stmt, tail: Stmts)

  /** An arm: the number of its pattern, its guard, its body. */
  datatype Arms = NoArms | Arm(pattern: nat, guard: Expr, body: Stmts, rest: Arms)

  datatype Event = Called(f: nat, args: seq<int>) | Tested(pattern: nat, v: int)
  datatype Reply = Reply(value: int, failed: bool)
  type World = seq<Event> -> Reply

  /** `fields` are the fields of `self` assigned so far, `sets` how often each was, `selfUses`
      what was assigned at each read of `self`. */
  datatype State = State(
    trace: seq<Event>, vars: map<string, int>, fields: map<nat, int>, sets: multiset<nat>, selfUses: seq<set<nat>>)

  datatype Outcome =
    | Normal
    | Breaking(name: string)
    | Continuing(name: string)
    | Returning(v: int)
    | Failing(err: int)
    | Recovering(v: int)
    | Trapped
    | OutOfFuel

  datatype Value = Value(out: Outcome, v: int, st: State)
  datatype Values = Values(out: Outcome, vs: seq<int>, st: State)
  datatype Run = Run(out: Outcome, st: State)

  function Read(vars: map<string, int>, x: string): int { if x in vars then vars[x] else 0 }

  function Truth(b: bool): int { if b then 1 else 0 }

  function Tell(ev: Event, st: State): State { st.(trace := st.trace + [ev]) }

  /** Names declared since `outer` go out of scope; Base has no shadowing. */
  function Close(outer: map<string, int>, st: State): State {
    st.(vars := map x | x in st.vars && x in outer :: st.vars[x])
  }

  predicate Aims(aim: string, loopName: string) { aim == "" || aim == loopName }

  const START := State([], map[], map[], multiset{}, [])

  function Eval(w: World, e: Expr, st: State, fuel: nat): Value
    decreases fuel, e
  {
    match e
    case Bool(b) => Value(Normal, Truth(b), st)
    case Int(n) => Value(Normal, n, st)
    case Name(x) => Value(Normal, Read(st.vars, x), st)
    case SelfRef => Value(Normal, 0, st.(selfUses := st.selfUses + [st.fields.Keys]))
    case Const(init) => Value(Normal, Eval(w, init, START, fuel).v, st)
    case Group(i) => Eval(w, i, st, fuel)
    case Not(i) =>
      var a := Eval(w, i, st, fuel);
      if a.out != Normal then a else Value(Normal, Truth(a.v == 0), a.st)
    case And(l, r) =>
      var a := Eval(w, l, st, fuel);
      if a.out != Normal || a.v == 0 then a else Eval(w, r, a.st, fuel)
    case Or(l, r) =>
      var a := Eval(w, l, st, fuel);
      if a.out != Normal || a.v != 0 then a else Eval(w, r, a.st, fuel)
    case Compare(c) =>
      var holds := ConstFold.RunComparison(c);
      if holds.None? then Value(Trapped, 0, st) else Value(Normal, Truth(holds.value), st)
    case Member(i, f) =>
      var a := Eval(w, i, st, fuel);
      if a.out != Normal then a else Value(Normal, if f in a.st.fields then a.st.fields[f] else a.v, a.st)
    case AddressOf(i) => Eval(w, i, st, fuel)
    case Else(i, fallback) =>
      var a := Eval(w, i, st, fuel);
      if a.out != Normal || a.v != 0 then a else Eval(w, fallback, a.st, fuel)
    case Call(f, args) =>
      var a := EvalAll(w, args, st, fuel);
      if a.out != Normal then Value(a.out, 0, a.st)
      else
        var st' := Tell(Called(f, a.vs), a.st);
        Value(Normal, w(st'.trace).value, st')
    case Try(f, args) =>
      var a := EvalAll(w, args, st, fuel);
      if a.out != Normal then Value(a.out, 0, a.st)
      else
        var st' := Tell(Called(f, a.vs), a.st);
        var r := w(st'.trace);
        Value(if r.failed then Failing(r.value) else Normal, r.value, st')
    case Never(f) => Value(Trapped, 0, Tell(Called(f, []), st))
    case Catch(operand, x, handler) =>
      var a := Eval(w, operand, st, fuel);
      if !a.out.Failing? then a
      else
        var h := ExecBlock(w, handler, a.st.(vars := a.st.vars[x := a.out.err]), fuel);
        var st' := Close(a.st.vars, h.st);
        match h.out
        case Normal => Value(Normal, 0, st')
        case Recovering(v) => Value(Normal, v, st')
        case _ => Value(h.out, 0, st')
  }

  function EvalAll(w: World, es: Exprs, st: State, fuel: nat): Values
    decreases fuel, es
  {
    match es
    case NoExprs => Values(Normal, [], st)
    case More(e, rest) =>
      var a := Eval(w, e, st, fuel);
      if a.out != Normal then Values(a.out, [], a.st)
      else
        var r := EvalAll(w, rest, a.st, fuel);
        if r.out != Normal then r else Values(Normal, [a.v] + r.vs, r.st)
  }

  function Exec(w: World, s: Stmt, st: State, fuel: nat): Run
    decreases fuel, s, 0
  {
    match s
    case Let(x, e) =>
      var a := Eval(w, e, st, fuel);
      Run(a.out, if a.out != Normal then a.st else a.st.(vars := a.st.vars[x := a.v]))
    case Declare(x) => Run(Normal, st.(vars := st.vars[x := 0]))
    case Assign(x, e) =>
      var a := Eval(w, e, st, fuel);
      Run(a.out, if a.out != Normal then a.st else a.st.(vars := a.st.vars[x := a.v]))
    case AssignField(f, e) =>
      var a := Eval(w, e, st, fuel);
      Run(a.out, if a.out != Normal then a.st else a.st.(fields := a.st.fields[f := a.v], sets := a.st.sets + multiset{f}))
    case Store(place, e) =>
      var p := Eval(w, place, st, fuel);
      if p.out != Normal then Run(p.out, p.st)
      else
        var a := Eval(w, e, p.st, fuel);
        Run(a.out, if a.out != Normal then a.st else Tell(Called(0, [p.v, a.v]), a.st))
    case ExprStmt(e) => var a := Eval(w, e, st, fuel); Run(a.out, a.st)
    case If(c, thn, els) =>
      var a := Eval(w, c, st, fuel);
      if a.out != Normal then Run(a.out, a.st) else ExecBlock(w, if a.v != 0 then thn else els, a.st, fuel)
    case While(name, c, body) =>
      var a := Eval(w, c, st, fuel);
      if a.out != Normal || a.v == 0 then Run(a.out, a.st)
      else if fuel == 0 then Run(OutOfFuel, a.st)
      else
        var b := ExecBlock(w, body, a.st, fuel);
        if b.out == Normal || (b.out.Continuing? && Aims(b.out.name, name)) then Exec(w, s, b.st, fuel - 1)
        else if b.out.Breaking? && Aims(b.out.name, name) then Run(Normal, b.st)
        else b
    case Block(body) => ExecBlock(w, body, st, fuel)
    case With(a, body) =>
      var v := Eval(w, a, st, fuel);
      if v.out != Normal then Run(v.out, v.st) else ExecBlock(w, body, v.st, fuel)
    case Match(e, arms) =>
      var a := Eval(w, e, st, fuel);
      if a.out != Normal then Run(a.out, a.st) else ExecArms(w, arms, a.v, a.st, fuel)
    case Return(e) =>
      var a := Eval(w, e, st, fuel);
      Run(if a.out == Normal then Returning(a.v) else a.out, a.st)
    case Recover(e) =>
      var a := Eval(w, e, st, fuel);
      Run(if a.out == Normal then Recovering(a.v) else a.out, a.st)
    case Error(e) =>
      var a := Eval(w, e, st, fuel);
      Run(if a.out == Normal then Failing(a.v) else a.out, a.st)
    case Trap => Run(Trapped, st)
    case Break(name) => Run(Breaking(name), st)
    case Continue(name) => Run(Continuing(name), st)
  }

  /** Arms are tried in order; falling past the last one is a trap, which exhaustive matches
      never reach. */
  function ExecArms(w: World, arms: Arms, v: int, st: State, fuel: nat): Run
    decreases fuel, arms
  {
    match arms
    case NoArms => Run(Trapped, st)
    case Arm(pattern, guard, body, rest) =>
      var st' := Tell(Tested(pattern, v), st);
      if w(st'.trace).value == 0 then ExecArms(w, rest, v, st', fuel)
      else
        var g := Eval(w, guard, st', fuel);
        if g.out != Normal then Run(g.out, g.st)
        else if g.v != 0 then ExecBlock(w, body, g.st, fuel)
        else ExecArms(w, rest, v, g.st, fuel)
  }

  function ExecList(w: World, ss: Stmts, st: State, fuel: nat): Run
    decreases fuel, ss, 0
  {
    match ss
    case Nil => Run(Normal, st)
    case Cons(s, rest) =>
      var r := Exec(w, s, st, fuel);
      if r.out == Normal then ExecList(w, rest, r.st, fuel) else r
  }

  function ExecBlock(w: World, ss: Stmts, st: State, fuel: nat): Run
    decreases fuel, ss, 1
  {
    var r := ExecList(w, ss, st, fuel);
    Run(r.out, Close(st.vars, r.st))
  }
}
