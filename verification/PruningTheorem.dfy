/** Pruning preserves meaning: a pruned block leaves the same way, after the same calls, with
    the same fields and the same surviving variables, at every amount of fuel. */
module PruningTheorem {
  import opened Wrappers
  import opened FlowSource
  import opened AlwaysLeaves
  import opened Pruning
  import ConstFold
  import ConstFoldTheorem

  /** Two evaluations that agree but for the variables in `gone`. */
  ghost predicate SameValue(gone: set<string>, scope: set<string>, r: Value, r': Value) {
    r.out == r'.out && (r.out == Normal ==> r.v == r'.v) && Same(gone, r.st, r'.st) && r.st.vars.Keys <= scope
  }

  /** A pair of states a simulation may start from. */
  ghost predicate Ready(gone: set<string>, scope: set<string>, st: State, st': State) {
    gone <= scope && Same(gone, st, st') && st.vars.Keys <= scope
  }

  lemma {:induction false} SimExpr(w: World, e: Expr, scope: set<string>, gone: set<string>, st: State, st': State, fuel: nat)
    requires WellFormedExpr(e, scope) && Ready(gone, scope, st, st')
    requires forall x :: x in gone ==> !UsedInExpr(e, x)
    ensures SameValue(gone, scope, Eval(w, e, st, fuel), Eval(w, PruneExpr(e), st', fuel))
    decreases fuel, e, 1
  {
    hide ExecBlock, Prune, UsedIn, EvalAll;
    match e
    case Name(x) => assert x !in gone;
    case Group(i) => SimExpr(w, i, scope, gone, st, st', fuel);
    case Not(i) => SimExpr(w, i, scope, gone, st, st', fuel);
    case Member(i, _) => SimExpr(w, i, scope, gone, st, st', fuel);
    case AddressOf(i) => SimExpr(w, i, scope, gone, st, st', fuel);
    case And(a, b) => SimBoth(w, e, a, b, scope, gone, st, st', fuel);
    case Or(a, b) => SimBoth(w, e, a, b, scope, gone, st, st', fuel);
    case Else(a, b) => SimBoth(w, e, a, b, scope, gone, st, st', fuel);
    case Call(_, args) => SimExprs(w, args, scope, gone, st, st', fuel);
    case Try(_, args) => SimExprs(w, args, scope, gone, st, st', fuel);
    case Catch(_, _, _) => SimCatch(w, e, scope, gone, st, st', fuel);
    case _ =>
  }

  /** Two operands, the second of which may not be reached. */
  lemma {:induction false} SimBoth(
    w: World, e: Expr, a: Expr, b: Expr, scope: set<string>, gone: set<string>, st: State, st': State, fuel: nat)
    requires e == And(a, b) || e == Or(a, b) || e == Else(a, b)
    requires WellFormedExpr(e, scope) && Ready(gone, scope, st, st')
    requires forall x :: x in gone ==> !UsedInExpr(e, x)
    ensures SameValue(gone, scope, Eval(w, e, st, fuel), Eval(w, PruneExpr(e), st', fuel))
    decreases fuel, e, 0
  {
    hide Same;
    SimExpr(w, a, scope, gone, st, st', fuel);
    var v, v' := Eval(w, a, st, fuel), Eval(w, PruneExpr(a), st', fuel);
    SimExpr(w, b, scope, gone, v.st, v'.st, fuel);
  }

  lemma {:induction false} SimExprs(w: World, es: Exprs, scope: set<string>, gone: set<string>, st: State, st': State, fuel: nat)
    requires WellFormedExprs(es, scope) && Ready(gone, scope, st, st')
    requires forall x :: x in gone ==> !UsedInExprs(es, x)
    ensures
      var r, r' := EvalAll(w, es, st, fuel), EvalAll(w, PruneExprs(es), st', fuel);
      r.out == r'.out && (r.out == Normal ==> r.vs == r'.vs) && Same(gone, r.st, r'.st) && r.st.vars.Keys <= scope
    decreases fuel, es, 1
  {
    if es.More? {
      SimExpr(w, es.head, scope, gone, st, st', fuel);
      SimExprs(w, es.tail, scope, gone, Eval(w, es.head, st, fuel).st, Eval(w, PruneExpr(es.head), st', fuel).st, fuel);
    }
  }

  lemma {:induction false} SimCatch(w: World, e: Expr, scope: set<string>, gone: set<string>, st: State, st': State, fuel: nat)
    requires e.Catch? && WellFormedExpr(e, scope) && Ready(gone, scope, st, st')
    requires forall x :: x in gone ==> !UsedInExpr(e, x)
    ensures SameValue(gone, scope, Eval(w, e, st, fuel), Eval(w, PruneExpr(e), st', fuel))
    decreases fuel, e, 0
  {
    SimExpr(w, e.operand, scope, gone, st, st', fuel);
    var a, a' := Eval(w, e.operand, st, fuel), Eval(w, PruneExpr(e.operand), st', fuel);
    if a.out.Failing? {
      var h := a.st.(vars := a.st.vars[e.name := a.out.err]);
      var h' := a'.st.(vars := a'.st.vars[e.name := a.out.err]);
      SimBlock(w, e.handler, scope + {e.name}, gone, h, h', fuel);
      var r, r' := ExecBlock(w, e.handler, h, fuel), ExecBlock(w, Prune(e.handler), h', fuel);
      CloseSame(gone, {}, scope, a.st, a'.st, r.st, r'.st);
    }
  }

  lemma {:induction false} SimStmt(w: World, s: Stmt, scope: set<string>, gone: set<string>, st: State, st': State, fuel: nat)
    requires WellFormedStmt(s, scope) && Ready(gone, scope, st, st')
    requires forall x :: x in gone ==> !UsedInStmt(s, x)
    ensures SameRun(gone, scope + Declares(s), Exec(w, s, st, fuel), Exec(w, PruneStmt(s), st', fuel))
    decreases fuel, s, 1
  {
    match s
    case Let(_, e) => SimExpr(w, e, scope, gone, st, st', fuel);
    case Declare(_) =>
    case Assign(x, e) =>
      assert UsedInStmt(s, x);
      SimExpr(w, e, scope, gone, st, st', fuel);
    case AssignField(_, e) => SimExpr(w, e, scope, gone, st, st', fuel);
    case Store(place, e) =>
      SimExpr(w, place, scope, gone, st, st', fuel);
      SimExpr(w, e, scope, gone, Eval(w, place, st, fuel).st, Eval(w, PruneExpr(place), st', fuel).st, fuel);
    case ExprStmt(e) => SimExpr(w, e, scope, gone, st, st', fuel);
    case If(_, _, _) => SimIf(w, s, scope, gone, st, st', fuel);
    case While(_, _, _) => SimWhile(w, s, scope, gone, st, st', fuel);
    case Block(body) => SimBlock(w, body, scope, gone, st, st', fuel);
    case With(_, _) => SimScrutinee(w, s, scope, gone, st, st', fuel);
    case Match(_, _) => SimScrutinee(w, s, scope, gone, st, st', fuel);
    case Return(e) => SimExpr(w, e, scope, gone, st, st', fuel);
    case Recover(e) => SimExpr(w, e, scope, gone, st, st', fuel);
    case Error(e) => SimExpr(w, e, scope, gone, st, st', fuel);
    case Trap =>
    case Break(_) =>
    case Continue(_) =>
  }

  lemma {:induction false} SimScrutinee(w: World, s: Stmt, scope: set<string>, gone: set<string>, st: State, st': State, fuel: nat)
    requires (s.With? || s.Match?) && WellFormedStmt(s, scope) && Ready(gone, scope, st, st')
    requires forall x :: x in gone ==> !UsedInStmt(s, x)
    ensures SameRun(gone, scope, Exec(w, s, st, fuel), Exec(w, PruneStmt(s), st', fuel))
    decreases fuel, s, 0
  {
    hide Same, Eval, PruneExpr;
    var e := if s.With? then s.allocator else s.e;
    SimExpr(w, e, scope, gone, st, st', fuel);
    var a, a' := Eval(w, e, st, fuel), Eval(w, PruneExpr(e), st', fuel);
    if a.out == Normal && s.With? {
      SimBlock(w, s.body, scope, gone, a.st, a'.st, fuel);
    } else if a.out == Normal {
      SimArms(w, s.arms, a.v, scope, gone, a.st, a'.st, fuel);
    }
  }

  lemma {:induction false} SimIf(w: World, s: Stmt, scope: set<string>, gone: set<string>, st: State, st': State, fuel: nat)
    requires s.If? && WellFormedStmt(s, scope) && Ready(gone, scope, st, st')
    requires forall x :: x in gone ==> !UsedInStmt(s, x)
    ensures SameRun(gone, scope, Exec(w, s, st, fuel), Exec(w, PruneStmt(s), st', fuel))
    decreases fuel, s, 0
  {
    if ConstBool(s.cond).Some? {
      ConstBoolSound(w, s.cond, st, fuel);
      SimBlock(w, if ConstBool(s.cond).value then s.thn else s.els, scope, gone, st, st', fuel);
    } else {
      SimExpr(w, s.cond, scope, gone, st, st', fuel);
      var a, a' := Eval(w, s.cond, st, fuel), Eval(w, PruneExpr(s.cond), st', fuel);
      if a.out == Normal {
        SimBlock(w, if a.v != 0 then s.thn else s.els, scope, gone, a.st, a'.st, fuel);
      }
    }
  }

  lemma {:induction false} SimWhile(w: World, s: Stmt, scope: set<string>, gone: set<string>, st: State, st': State, fuel: nat)
    requires s.While? && WellFormedStmt(s, scope) && Ready(gone, scope, st, st')
    requires forall x :: x in gone ==> !UsedInStmt(s, x)
    ensures SameRun(gone, scope, Exec(w, s, st, fuel), Exec(w, PruneStmt(s), st', fuel))
    decreases fuel, s, 0
  {
    if ConstBool(s.cond) == Some(false) {
      ConstBoolSound(w, s.cond, st, fuel);
      CloseIsIdentity(st');
      assert ExecBlock(w, Nil, st', fuel) == Run(Normal, st');
      assert Exec(w, s, st, fuel) == Run(Normal, st);
    } else {
      SimExpr(w, s.cond, scope, gone, st, st', fuel);
      var a, a' := Eval(w, s.cond, st, fuel), Eval(w, PruneExpr(s.cond), st', fuel);
      if a.out == Normal && a.v != 0 && fuel > 0 {
        SimBlock(w, s.body, scope, gone, a.st, a'.st, fuel);
        var b, b' := ExecBlock(w, s.body, a.st, fuel), ExecBlock(w, Prune(s.body), a'.st, fuel);
        if b.out == Normal || (b.out.Continuing? && Aims(b.out.name, s.loopName)) {
          SimWhile(w, s, scope, gone, b.st, b'.st, fuel - 1);
        }
      }
    }
  }

  lemma CloseIsIdentity(st: State)
    ensures Close(st.vars, st) == st
  {
    assert Close(st.vars, st).vars == st.vars;
  }

  lemma {:induction false} SimArms(
    w: World, arms: Arms, v: int, scope: set<string>, gone: set<string>, st: State, st': State, fuel: nat)
    requires WellFormedArms(arms, scope) && Ready(gone, scope, st, st')
    requires forall x :: x in gone ==> !UsedInArms(arms, x)
    ensures SameRun(gone, scope, ExecArms(w, arms, v, st, fuel), ExecArms(w, PruneArms(arms), v, st', fuel))
    decreases fuel, arms, 1
  {
    if arms.Arm? {
      var t, t' := Tell(Tested(arms.pattern, v), st), Tell(Tested(arms.pattern, v), st');
      if w(t.trace).value == 0 {
        SimArms(w, arms.rest, v, scope, gone, t, t', fuel);
      } else {
        SimExpr(w, arms.guard, scope, gone, t, t', fuel);
        var g, g' := Eval(w, arms.guard, t, fuel), Eval(w, PruneExpr(arms.guard), t', fuel);
        if g.out == Normal && g.v != 0 {
          SimBlock(w, arms.body, scope, gone, g.st, g'.st, fuel);
        } else if g.out == Normal {
          SimArms(w, arms.rest, v, scope, gone, g.st, g'.st, fuel);
        }
      }
    }
  }

  lemma {:induction false} SimBlock(w: World, ss: Stmts, scope: set<string>, gone: set<string>, st: State, st': State, fuel: nat)
    requires WellFormed(ss, scope) && Ready(gone, scope, st, st')
    requires forall x :: x in gone ==> !UsedIn(ss, x)
    ensures SameRun(gone, scope, ExecBlock(w, ss, st, fuel), ExecBlock(w, Prune(ss), st', fuel))
    decreases fuel, ss, 3
  {
    SimList(w, ss, scope, gone, st, st', fuel);
    DeclaredAfresh(ss, scope);
    CloseSame(gone, DeclaresAll(ss), scope, st, st', ExecList(w, ss, st, fuel).st, ExecList(w, Prune(ss), st', fuel).st);
  }

  lemma {:induction false} DeclaredAfresh(ss: Stmts, scope: set<string>)
    requires WellFormed(ss, scope)
    ensures DeclaresAll(ss) !! scope
  {
    if ss.Cons? {
      DeclaredAfresh(ss.tail, scope + Declares(ss.head));
    }
  }

  /** The statements of a block: what they drop joins `gone` until the block ends. */
  lemma {:induction false} SimList(w: World, ss: Stmts, scope: set<string>, gone: set<string>, st: State, st': State, fuel: nat)
    requires WellFormed(ss, scope) && Ready(gone, scope, st, st')
    requires forall x :: x in gone ==> !UsedIn(ss, x)
    ensures SameRun(gone + DeclaresAll(ss), scope + DeclaresAll(ss),
                    ExecList(w, ss, st, fuel), ExecList(w, Prune(ss), st', fuel))
    decreases fuel, ss, 2
  {
    match ss
    case Nil =>
    case Cons(s, rest) =>
      if Unused(s, rest) {
        SimDropped(w, ss, scope, gone, st, st', fuel);
      } else {
        SimStmt(w, s, scope, gone, st, st', fuel);
        var r, r' := Exec(w, s, st, fuel), Exec(w, PruneStmt(s), st', fuel);
        if AlwaysReturns(PruneStmt(s)) {
          AlwaysReturnsSound(w, PruneStmt(s), st', fuel);
        } else if r.out == Normal {
          SimList(w, rest, scope + Declares(s), gone, r.st, r'.st, fuel);
          assert scope + DeclaresAll(ss) == scope + Declares(s) + DeclaresAll(rest);
        }
      }
  }

  lemma RestUnused(ss: Stmts, x: string)
    requires ss.Cons? && (ss.head.Let? || ss.head.Declare?) && !UsedIn(ss, x)
    ensures !UsedInStmt(ss.head, x) && !UsedIn(ss.tail, x)
  {
    assert !AlwaysReturns(PruneStmt(ss.head));
  }

  lemma {:induction false} SimDropped(w: World, ss: Stmts, scope: set<string>, gone: set<string>, st: State, st': State, fuel: nat)
    requires ss.Cons? && Unused(ss.head, ss.tail) && WellFormed(ss, scope) && Ready(gone, scope, st, st')
    requires forall x :: x in gone ==> !UsedIn(ss, x)
    ensures SameRun(gone + DeclaresAll(ss), scope + DeclaresAll(ss),
                    ExecList(w, ss, st, fuel), ExecList(w, Prune(ss), st', fuel))
    decreases fuel, ss, 1
  {
    hide Eval, PruneExpr, UsedInExpr, UsedIn, UsedInStmt, WellFormedExpr;
    var s, rest := ss.head, ss.tail;
    var scope1, gone1 := scope + {s.x}, gone + {s.x};
    assert scope + DeclaresAll(ss) == scope1 + DeclaresAll(rest);
    assert gone + DeclaresAll(ss) == gone1 + DeclaresAll(rest);
    DroppedRest(ss, gone);
    var r := Exec(w, s, st, fuel);
    if s.Declare? {
      SimList(w, rest, scope1, gone1, r.st, st', fuel);
    } else if IsPure(s.init) {
      PureSound(w, s.init, st, fuel);
      SimList(w, rest, scope1, gone1, r.st, st', fuel);
    } else {
      SimExpr(w, s.init, scope, gone, st, st', fuel);
      var a' := Eval(w, PruneExpr(s.init), st', fuel);
      if r.out == Normal {
        SimList(w, rest, scope1, gone1, r.st, a'.st, fuel);
      }
    }
  }

  /** Nothing gone, nor what is dropped now, is read by what follows. */
  lemma DroppedRest(ss: Stmts, gone: set<string>)
    requires ss.Cons? && Unused(ss.head, ss.tail) && forall x :: x in gone ==> !UsedIn(ss, x)
    ensures forall x :: x in gone + {ss.head.x} ==> !UsedIn(ss.tail, x)
    ensures ss.head.Let? ==> forall x :: x in gone ==> !UsedInExpr(ss.head.init, x)
  {
    forall x | x in gone ensures !UsedInStmt(ss.head, x) && !UsedIn(ss.tail, x) {
      RestUnused(ss, x);
    }
  }

  /** Pruning a function's body changes nothing a run can show: the way it leaves, the calls it
      makes and their order, the fields it sets, and the variables that outlive it. */
  lemma PruningPreservesMeaning(w: World, body: Stmts, scope: set<string>, st: State, fuel: nat)
    requires WellFormed(body, scope) && st.vars.Keys <= scope
    ensures
      var r, r' := ExecBlock(w, body, st, fuel), ExecBlock(w, Prune(body), st, fuel);
      r'.out == r.out && r'.st.trace == r.st.trace && r'.st.fields == r.st.fields && r'.st.sets == r.st.sets && r'.st.vars == r.st.vars
  {
    SimBlock(w, body, scope, {}, st, st, fuel);
    var r, r' := ExecBlock(w, body, st, fuel), ExecBlock(w, Prune(body), st, fuel);
    forall x: string ensures (x in r.st.vars <==> x in r'.st.vars) && (x in r.st.vars ==> r.st.vars[x] == r'.st.vars[x]) {
      assert Read(r.st.vars, x) == Read(r'.st.vars, x);
    }
    assert r.st.vars == r'.st.vars;
  }

  function Returns(n: int): Stmts { Cons(Return(Int(n)), Nil) }

  /** `if c: return 1` and then `return 2`. */
  function Branching(c: Expr): Stmts { Cons(If(c, Returns(1), Nil), Returns(2)) }

  lemma ReturnsRun(w: World, n: int, st: State, fuel: nat)
    ensures ExecList(w, Returns(n), st, fuel) == Run(Returning(n), st)
  {
    assert Exec(w, Return(Int(n)), st, fuel) == Run(Returning(n), st);
  }

  /** A comparison that misfolds takes the wrong branch: with `STEP` the constant -8 and
      `STEP // 2 < 0` for the condition the body returns 1, and what is left of it returns 2. */
  lemma MisfoldedBranch(w: World, st: State, fuel: nat)
    ensures
      var body := Branching(Compare(ConstFoldTheorem.HalfStep()));
      && ExecBlock(w, body, st, fuel).out == Returning(1)
      && ExecBlock(w, Prune(body), st, fuel).out == Returning(2)
  {
    hide ConstFold.RunComparison, ConstFold.FoldComparison, ConstFoldTheorem.HalfStep;
    ConstFoldTheorem.NegativeQuotientMisfolds();
    var c := Compare(ConstFoldTheorem.HalfStep());
    var s := If(c, Returns(1), Nil);
    ReturnsRun(w, 1, st, fuel);
    assert Exec(w, s, st, fuel).out == Returning(1);
    assert PruneStmt(s) == Block(Nil) && Prune(Branching(c)) == Cons(Block(Nil), Returns(2)) by {
      assert !AlwaysReturns(Block(Nil)) && Prune(Returns(2)) == Returns(2);
    }
    CloseIsIdentity(st);
    assert ExecBlock(w, Nil, st, fuel) == Run(Normal, st);
    assert Exec(w, Block(Nil), st, fuel) == Run(Normal, st);
    ReturnsRun(w, 2, st, fuel);
  }
}
