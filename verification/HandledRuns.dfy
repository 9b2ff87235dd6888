/** Running the bodies HandledCheck covers.  A value is only what it views: every handler that
    starts gets a message of its own, and a text may be a view of some message. */
module HandledRuns {
  import opened Wrappers
  import opened HandledCheck

  datatype Value = VInt | VStr(views: set<nat>) | VProduct(parts: seq<Value>)

  /** Whether the value views message `m`. */
  predicate Sees(v: Value, m: nat) {
    match v
    case VInt => false
    case VStr(views) => m in views
    case VProduct(parts) => exists i :: 0 <= i < |parts| && Sees(parts[i], m)
  }

  predicate Conforms(v: Value, t: Ty) {
    match v
    case VInt => t == TInt
    case VStr(_) => t == TStr
    case VProduct(parts) =>
      t.TProduct? && |t.parts| == |parts| && forall i :: 0 <= i < |parts| ==> Conforms(parts[i], t.parts[i])
  }

  /** A value of the type that views nothing: what calls return. */
  function Fresh(t: Ty): Value {
    match t
    case TInt => VInt
    case TStr => VStr({})
    case TProduct(parts) => VProduct(seq(|parts|, i requires 0 <= i < |parts| => Fresh(parts[i])))
  }

  /** The failure a handler is given: a code, and a view of message `m`. */
  function Failure(m: nat): Value { VProduct([VInt, VStr({m})]) }

  function Update(v: Value, path: seq<nat>, part: Value): Value
    decreases |path|
  {
    if path == [] then part
    else if v.VProduct? && path[0] < |v.parts| then
      VProduct(v.parts[path[0] := Update(v.parts[path[0]], path[1..], part)])
    else v
  }

  /** Branches and failures are decided by the world, one question at a time. */
  type World = nat -> bool

  datatype Outcome = Normal | Failing | Returning(v: Value) | Recovering(v: Value)

  /** `messages` have been made so far; `escaped` when a finished handler's message was seen. */
  datatype State = State(vars: map<string, Value>, messages: nat, asked: nat, escaped: bool)

  datatype EvalR = EvalR(out: Outcome, v: Value, st: State)
  datatype EvalAllR = EvalAllR(out: Outcome, vs: seq<Value>, st: State)
  datatype Run = Run(out: Outcome, st: State)

  function Ask(st: State): State { st.(asked := st.asked + 1) }

  function Close(outer: map<string, Value>, st: State): State {
    st.(vars := map x | x in st.vars && x in outer :: st.vars[x])
  }

  predicate OutSees(o: Outcome, m: nat) {
    (o.Returning? || o.Recovering?) && Sees(o.v, m)
  }

  /** The handler of message `m` has finished: nothing may view it any more. */
  function Finish(m: nat, o: Outcome, v: Value, st: State): State {
    st.(escaped := st.escaped || Sees(v, m) || OutSees(o, m) || exists x :: x in st.vars && Sees(st.vars[x], m))
  }

  function Eval(w: World, e: Expr, st: State): EvalR
    decreases e
  {
    match e
    case Var(x) => EvalR(Normal, if x in st.vars then st.vars[x] else VInt, st)
    case Int => EvalR(Normal, VInt, st)
    case Str => EvalR(Normal, VStr({}), st)
    case Field(i, k) =>
      var a := Eval(w, i, st);
      if a.out != Normal then a
      else EvalR(Normal, if a.v.VProduct? && k < |a.v.parts| then a.v.parts[k] else VInt, a.st)
    case Slice(i) => Eval(w, i, st)
    case Product(es) =>
      var a := EvalAll(w, es, st);
      EvalR(a.out, VProduct(a.vs), a.st)
    case Choice(a, b) => Eval(w, if w(st.asked) then a else b, Ask(st))
    case Call(ty, args) =>
      var a := EvalAll(w, args, st);
      EvalR(a.out, Fresh(ty), a.st)
    case Try(ty, args) =>
      var a := EvalAll(w, args, st);
      if a.out != Normal then EvalR(a.out, VInt, a.st)
      else EvalR(if w(a.st.asked) then Failing else Normal, Fresh(ty), Ask(a.st))
    case Catch(_, ty, operand, name, handler) =>
      var a := Eval(w, operand, st);
      if a.out != Failing then a
      else
        var m := a.st.messages;
        var h := ExecBlock(w, handler, a.st.(messages := m + 1, vars := a.st.vars[name := Failure(m)]));
        var st' := Close(a.st.vars, h.st);
        var v := if h.out.Recovering? then h.out.v else Fresh(ty);
        var o := if h.out.Recovering? then Normal else h.out;
        EvalR(o, v, Finish(m, o, v, st'))
  }

  function EvalAll(w: World, es: Exprs, st: State): EvalAllR
    decreases es
  {
    match es
    case NoExprs => EvalAllR(Normal, [], st)
    case More(e, rest) =>
      var a := Eval(w, e, st);
      if a.out != Normal then EvalAllR(a.out, [], a.st)
      else
        var r := EvalAll(w, rest, a.st);
        EvalAllR(r.out, [a.v] + r.vs, r.st)
  }

  function Exec(w: World, s: Stmt, st: State): Run
    decreases s, 0
  {
    match s
    case Let(x, e) =>
      var a := Eval(w, e, st);
      Run(a.out, if a.out == Normal then a.st.(vars := a.st.vars[x := a.v]) else a.st)
    case Assign(x, path, e) =>
      var a := Eval(w, e, st);
      Run(a.out, if a.out == Normal && x in a.st.vars
                 then a.st.(vars := a.st.vars[x := Update(a.st.vars[x], path, a.v)]) else a.st)
    case ExprStmt(e) => var a := Eval(w, e, st); Run(a.out, a.st)
    case If(thn, els) => ExecBlock(w, if w(st.asked) then thn else els, Ask(st))
    case Block(body) => ExecBlock(w, body, st)
    case Recover(e) =>
      var a := Eval(w, e, st);
      Run(if a.out == Normal then Recovering(a.v) else a.out, a.st)
    case Return(e) =>
      var a := Eval(w, e, st);
      Run(if a.out == Normal then Returning(a.v) else a.out, a.st)
    case Error(e) =>
      var a := Eval(w, e, st);
      Run(if a.out == Normal then Failing else a.out, a.st)
  }

  function ExecList(w: World, ss: Stmts, st: State): Run
    decreases ss, 0
  {
    match ss
    case Nil => Run(Normal, st)
    case Cons(s, rest) =>
      var r := Exec(w, s, st);
      if r.out == Normal then ExecList(w, rest, r.st) else r
  }

  function ExecBlock(w: World, ss: Stmts, st: State): Run
    decreases ss, 1
  {
    var r := ExecList(w, ss, st);
    Run(r.out, Close(st.vars, r.st))
  }

  /** A call of the function: globals and parameters view nothing. */
  function RunBody(w: World, globals: Types, params: Types, body: Stmts): Run {
    var types := globals + params;
    ExecBlock(w, body, State(map x | x in types :: Fresh(types[x]), 0, 0, false))
  }

  // ----- facts about values -----

  lemma {:induction false} FreshOk(t: Ty, m: nat)
    ensures Conforms(Fresh(t), t) && !Sees(Fresh(t), m)
  {
    if t.TProduct? {
      forall i | 0 <= i < |t.parts| ensures Conforms(Fresh(t.parts[i]), t.parts[i]) && !Sees(Fresh(t.parts[i]), m) {
        FreshOk(t.parts[i], m);
      }
    }
  }

  /** A value of a type that holds no view views nothing. */
  lemma {:induction false} NoViewNoSight(v: Value, t: Ty, m: nat)
    requires Conforms(v, t) && !HoldsView(t)
    ensures !Sees(v, m)
    decreases v
  {
    if v.VProduct? {
      forall i | 0 <= i < |v.parts| ensures !Sees(v.parts[i], m) {
        NoViewNoSight(v.parts[i], t.parts[i], m);
      }
    }
  }

  lemma {:induction false} UpdateOk(v: Value, t: Ty, path: seq<nat>, part: Value, m: nat)
    requires Conforms(v, t) && PartType(t, path).Some? && Conforms(part, PartType(t, path).value)
    ensures Conforms(Update(v, path, part), t)
    ensures Sees(Update(v, path, part), m) ==> Sees(v, m) || Sees(part, m)
    decreases |path|
  {
    if path != [] {
      UpdateOk(v.parts[path[0]], t.parts[path[0]], path[1..], part, m);
    }
  }
}
