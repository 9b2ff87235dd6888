/** The checker's "always leaves" rules (src/check/stmt.cpp, src/check/expr.cpp): a statement
    they accept never completes normally, in any run. */
module AlwaysLeaves {
  import opened FlowSource

  /** A `break` anywhere under the node, whatever loop it names. */
  predicate BreakInExpr(e: Expr) {
    match e
    case Group(i) => BreakInExpr(i)
    case Not(i) => BreakInExpr(i)
    case And(a, b) => BreakInExpr(a) || BreakInExpr(b)
    case Or(a, b) => BreakInExpr(a) || BreakInExpr(b)
    case Member(i, _) => BreakInExpr(i)
    case AddressOf(i) => BreakInExpr(i)
    case Else(i, fallback) => BreakInExpr(i) || BreakInExpr(fallback)
    case Call(_, args) => BreakInExprs(args)
    case Try(_, args) => BreakInExprs(args)
    case Catch(operand, _, handler) => BreakInExpr(operand) || BreakIn(handler)
    case _ => false
  }

  predicate BreakInExprs(es: Exprs) { es.More? && (BreakInExpr(es.head) || BreakInExprs(es.tail)) }

  predicate BreakInStmt(s: Stmt) {
    match s
    case Let(_, e) => BreakInExpr(e)
    case Declare(_) => false
    case Assign(_, e) => BreakInExpr(e)
    case AssignField(_, e) => BreakInExpr(e)
    case Store(place, e) => BreakInExpr(place) || BreakInExpr(e)
    case ExprStmt(e) => BreakInExpr(e)
    case If(c, thn, els) => BreakInExpr(c) || BreakIn(thn) || BreakIn(els)
    case While(_, c, body) => BreakInExpr(c) || BreakIn(body)
    case Block(body) => BreakIn(body)
    case With(a, body) => BreakInExpr(a) || BreakIn(body)
    case Match(e, arms) => BreakInExpr(e) || BreakInArms(arms)
    case Return(e) => BreakInExpr(e)
    case Recover(e) => BreakInExpr(e)
    case Error(e) => BreakInExpr(e)
    case Trap => false
    case Break(_) => true
    case Continue(_) => false
  }

  predicate BreakInArms(arms: Arms) {
    arms.Arm? && (BreakInExpr(arms.guard) || BreakIn(arms.body) || BreakInArms(arms.rest))
  }

  predicate BreakIn(ss: Stmts) { ss.Cons? && (BreakInStmt(ss.head) || BreakIn(ss.tail)) }

  /** `always_returns` on a statement. */
  predicate AlwaysReturns(s: Stmt) {
    match s
    case Return(_) => true
    case Recover(_) => true
    case Error(_) => true
    case Trap => true
    case ExprStmt(e) => e.Never?
    case Block(body) => SomeReturns(body)
    case If(_, thn, els) => SomeReturns(thn) && SomeReturns(els)
    case With(_, body) => SomeReturns(body)
    case While(_, c, body) => c == Bool(true) && !BreakIn(body)
    case Match(_, arms) => arms != NoArms && ArmsReturn(arms)
    case _ => false
  }

  /** `always_returns` on a block: some statement of it always leaves. */
  predicate SomeReturns(ss: Stmts) { ss.Cons? && (AlwaysReturns(ss.head) || SomeReturns(ss.tail)) }

  predicate ArmsReturn(arms: Arms) { arms.Arm? ==> SomeReturns(arms.body) && ArmsReturn(arms.rest) }

  /** `terminates_handler`: as above, and `break` and `continue` leave a handler too. */
  predicate TerminatesHandler(s: Stmt) {
    match s
    case Break(_) => true
    case Continue(_) => true
    case Block(body) => SomeTerminates(body)
    case If(_, thn, els) => SomeTerminates(thn) && SomeTerminates(els)
    case _ => AlwaysReturns(s)
  }

  predicate SomeTerminates(ss: Stmts) { ss.Cons? && (TerminatesHandler(ss.head) || SomeTerminates(ss.tail)) }

  // ----- code without `break` never breaks -----

  lemma {:induction false} NoBreakExpr(w: World, e: Expr, st: State, fuel: nat)
    requires !BreakInExpr(e)
    ensures !Eval(w, e, st, fuel).out.Breaking?
    decreases fuel, e, 2
  {
    match e
    case Group(i) => NoBreakExpr(w, i, st, fuel);
    case Not(i) => NoBreakExpr(w, i, st, fuel);
    case And(a, b) =>
      NoBreakExpr(w, a, st, fuel);
      NoBreakExpr(w, b, Eval(w, a, st, fuel).st, fuel);
    case Or(a, b) =>
      NoBreakExpr(w, a, st, fuel);
      NoBreakExpr(w, b, Eval(w, a, st, fuel).st, fuel);
    case Member(i, _) => NoBreakExpr(w, i, st, fuel);
    case AddressOf(i) => NoBreakExpr(w, i, st, fuel);
    case Else(i, fallback) =>
      NoBreakExpr(w, i, st, fuel);
      NoBreakExpr(w, fallback, Eval(w, i, st, fuel).st, fuel);
    case Call(_, args) => NoBreakExprs(w, args, st, fuel);
    case Try(_, args) => NoBreakExprs(w, args, st, fuel);
    case Catch(operand, x, handler) =>
      NoBreakExpr(w, operand, st, fuel);
      var a := Eval(w, operand, st, fuel);
      if a.out.Failing? {
        NoBreak(w, handler, a.st.(vars := a.st.vars[x := a.out.err]), fuel);
      }
    case _ =>
  }

  lemma {:induction false} NoBreakExprs(w: World, es: Exprs, st: State, fuel: nat)
    requires !BreakInExprs(es)
    ensures !EvalAll(w, es, st, fuel).out.Breaking?
    decreases fuel, es, 2
  {
    if es.More? {
      NoBreakExpr(w, es.head, st, fuel);
      NoBreakExprs(w, es.tail, Eval(w, es.head, st, fuel).st, fuel);
    }
  }

  lemma {:induction false} NoBreakStmt(w: World, s: Stmt, st: State, fuel: nat)
    requires !BreakInStmt(s)
    ensures !Exec(w, s, st, fuel).out.Breaking?
    decreases fuel, s, 2
  {
    match s
    case Declare(_) =>
    case Trap =>
    case Continue(_) =>
    case Let(_, e) => NoBreakExpr(w, e, st, fuel);
    case Assign(_, e) => NoBreakExpr(w, e, st, fuel);
    case AssignField(_, e) => NoBreakExpr(w, e, st, fuel);
    case Store(place, e) =>
      NoBreakExpr(w, place, st, fuel);
      NoBreakExpr(w, e, Eval(w, place, st, fuel).st, fuel);
    case ExprStmt(e) => NoBreakExpr(w, e, st, fuel);
    case If(c, thn, els) =>
      NoBreakExpr(w, c, st, fuel);
      var a := Eval(w, c, st, fuel);
      NoBreak(w, if a.v != 0 then thn else els, a.st, fuel);
    case While(_, c, body) =>
      NoBreakExpr(w, c, st, fuel);
      var a := Eval(w, c, st, fuel);
      if a.out == Normal && a.v != 0 && fuel > 0 {
        NoBreak(w, body, a.st, fuel);
        NoBreakStmt(w, s, ExecBlock(w, body, a.st, fuel).st, fuel - 1);
      }
    case Block(body) => NoBreak(w, body, st, fuel);
    case With(a, body) =>
      NoBreakExpr(w, a, st, fuel);
      NoBreak(w, body, Eval(w, a, st, fuel).st, fuel);
    case Match(e, arms) =>
      NoBreakExpr(w, e, st, fuel);
      var a := Eval(w, e, st, fuel);
      NoBreakArms(w, arms, a.v, a.st, fuel);
    case Return(e) => NoBreakExpr(w, e, st, fuel);
    case Recover(e) => NoBreakExpr(w, e, st, fuel);
    case Error(e) => NoBreakExpr(w, e, st, fuel);
  }

  lemma {:induction false} NoBreakArms(w: World, arms: Arms, v: int, st: State, fuel: nat)
    requires !BreakInArms(arms)
    ensures !ExecArms(w, arms, v, st, fuel).out.Breaking?
    decreases fuel, arms, 2
  {
    if arms.Arm? {
      var st' := Tell(Tested(arms.pattern, v), st);
      var g := Eval(w, arms.guard, st', fuel);
      NoBreakExpr(w, arms.guard, st', fuel);
      NoBreak(w, arms.body, g.st, fuel);
      NoBreakArms(w, arms.rest, v, st', fuel);
      NoBreakArms(w, arms.rest, v, g.st, fuel);
    }
  }

  lemma {:induction false} NoBreak(w: World, ss: Stmts, st: State, fuel: nat)
    requires !BreakIn(ss)
    ensures !ExecList(w, ss, st, fuel).out.Breaking? && !ExecBlock(w, ss, st, fuel).out.Breaking?
    decreases fuel, ss, 3
  {
    if ss.Cons? {
      NoBreakStmt(w, ss.head, st, fuel);
      NoBreak(w, ss.tail, Exec(w, ss.head, st, fuel).st, fuel);
    }
  }

  // ----- soundness -----

  /** No run of a statement that always returns completes normally. */
  lemma {:induction false} AlwaysReturnsSound(w: World, s: Stmt, st: State, fuel: nat)
    requires AlwaysReturns(s)
    ensures Exec(w, s, st, fuel).out != Normal
    decreases fuel, s, 2
  {
    match s
    case Block(body) => SomeReturnsSound(w, body, st, fuel);
    case If(c, thn, els) =>
      var a := Eval(w, c, st, fuel);
      SomeReturnsSound(w, if a.v != 0 then thn else els, a.st, fuel);
    case With(a, body) => SomeReturnsSound(w, body, Eval(w, a, st, fuel).st, fuel);
    case While(name, c, body) =>
      if fuel > 0 {
        NoBreak(w, body, st, fuel);
        AlwaysReturnsSound(w, s, ExecBlock(w, body, st, fuel).st, fuel - 1);
      }
    case Match(e, arms) =>
      var a := Eval(w, e, st, fuel);
      ArmsReturnSound(w, arms, a.v, a.st, fuel);
    case _ =>
  }

  lemma {:induction false} SomeReturnsSound(w: World, ss: Stmts, st: State, fuel: nat)
    requires SomeReturns(ss)
    ensures ExecList(w, ss, st, fuel).out != Normal && ExecBlock(w, ss, st, fuel).out != Normal
    decreases fuel, ss, 3
  {
    if AlwaysReturns(ss.head) {
      AlwaysReturnsSound(w, ss.head, st, fuel);
    } else {
      SomeReturnsSound(w, ss.tail, Exec(w, ss.head, st, fuel).st, fuel);
    }
  }

  lemma {:induction false} ArmsReturnSound(w: World, arms: Arms, v: int, st: State, fuel: nat)
    requires ArmsReturn(arms)
    ensures ExecArms(w, arms, v, st, fuel).out != Normal
    decreases fuel, arms, 2
  {
    if arms.Arm? {
      var st' := Tell(Tested(arms.pattern, v), st);
      var g := Eval(w, arms.guard, st', fuel);
      SomeReturnsSound(w, arms.body, g.st, fuel);
      ArmsReturnSound(w, arms.rest, v, st', fuel);
      ArmsReturnSound(w, arms.rest, v, g.st, fuel);
    }
  }

  lemma {:induction false} TerminatesSound(w: World, s: Stmt, st: State, fuel: nat)
    requires TerminatesHandler(s)
    ensures Exec(w, s, st, fuel).out != Normal
    decreases s, 2
  {
    match s
    case Break(_) =>
    case Continue(_) =>
    case Block(body) => SomeTerminatesSound(w, body, st, fuel);
    case If(c, thn, els) =>
      var a := Eval(w, c, st, fuel);
      SomeTerminatesSound(w, if a.v != 0 then thn else els, a.st, fuel);
    case _ => AlwaysReturnsSound(w, s, st, fuel);
  }

  lemma {:induction false} SomeTerminatesSound(w: World, ss: Stmts, st: State, fuel: nat)
    requires SomeTerminates(ss)
    ensures ExecList(w, ss, st, fuel).out != Normal && ExecBlock(w, ss, st, fuel).out != Normal
    decreases ss, 3
  {
    if TerminatesHandler(ss.head) {
      TerminatesSound(w, ss.head, st, fuel);
    } else {
      SomeTerminatesSound(w, ss.tail, Exec(w, ss.head, st, fuel).st, fuel);
    }
  }

  /** A value `catch` the checker accepts has a value whenever it ends normally: its operand's,
      or one its handler recovered. */
  lemma AcceptedCatchHasValue(w: World, operand: Expr, x: string, handler: Stmts, st: State, fuel: nat)
    requires SomeTerminates(handler)
    ensures
      var r := Eval(w, Catch(operand, x, handler), st, fuel);
      var a := Eval(w, operand, st, fuel);
      r.out == Normal ==>
        || (a.out == Normal && r.v == a.v)
        || (a.out.Failing? &&
            ExecBlock(w, handler, a.st.(vars := a.st.vars[x := a.out.err]), fuel).out == Recovering(r.v))
  {
    var a := Eval(w, operand, st, fuel);
    if a.out.Failing? {
      SomeTerminatesSound(w, handler, a.st.(vars := a.st.vars[x := a.out.err]), fuel);
    }
  }
}
