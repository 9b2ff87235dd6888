/** The "always leaves" rules miss nothing where no constant decides a condition: a statement
    they do not accept completes normally in some run. */
module AlwaysLeavesExact {
  import opened FlowSource
  import opened AlwaysLeaves
  import opened Steering

  // ----- breaks -----

  lemma {:induction false} MildHasNoBreak(e: Expr)
    requires Mild(e)
    ensures !BreakInExpr(e)
  {
    match e
    case Group(i) => MildHasNoBreak(i);
    case Not(i) => MildHasNoBreak(i);
    case And(a, b) => MildHasNoBreak(a); MildHasNoBreak(b);
    case Or(a, b) => MildHasNoBreak(a); MildHasNoBreak(b);
    case Member(i, _) => MildHasNoBreak(i);
    case AddressOf(i) => MildHasNoBreak(i);
    case Else(a, b) => MildHasNoBreak(a); MildHasNoBreak(b);
    case Call(_, args) => MildHaveNoBreak(args);
    case Try(_, args) => MildHaveNoBreak(args);
    case _ =>
  }

  lemma {:induction false} MildHaveNoBreak(es: Exprs)
    requires MildAll(es)
    ensures !BreakInExprs(es)
  {
    if es.More? {
      MildHasNoBreak(es.head);
      MildHaveNoBreak(es.tail);
    }
  }

  lemma {:induction false} SteeredWithoutBreak(s: Stmt, j: Jumps)
    requires Steerable(s, j) && !j.AllJumps?
    ensures !BreakInStmt(s)
    decreases s, 0
  {
    match s
    case Let(_, e) => MildHasNoBreak(e);
    case Assign(_, e) => MildHasNoBreak(e);
    case AssignField(_, e) => MildHasNoBreak(e);
    case Store(p, e) => MildHasNoBreak(p); MildHasNoBreak(e);
    case ExprStmt(e) => if !e.Never? { MildHasNoBreak(e); }
    case If(c, thn, els) =>
      FreeIsMild(c);
      MildHasNoBreak(c);
      ListWithoutBreak(thn, j);
      ListWithoutBreak(els, j);
    case While(_, c, body) =>
      if c != Bool(true) { FreeIsMild(c); }
      MildHasNoBreak(c);
      ListWithoutBreak(body, Continues);
    case Block(body) => ListWithoutBreak(body, j);
    case With(a, body) => MildHasNoBreak(a); ListWithoutBreak(body, j);
    case Match(e, arms) => MildHasNoBreak(e); ArmsWithoutBreak(arms, j);
    case Return(e) => MildHasNoBreak(e);
    case Recover(e) => MildHasNoBreak(e);
    case Error(e) => MildHasNoBreak(e);
    case _ =>
  }

  lemma {:induction false} ArmsWithoutBreak(arms: Arms, j: Jumps)
    requires SteerableArms(arms, j) && !j.AllJumps?
    ensures !BreakInArms(arms)
    decreases arms, 0
  {
    if arms.Arm? {
      if arms.guard != Bool(true) { FreeIsMild(arms.guard); }
      MildHasNoBreak(arms.guard);
      ListWithoutBreak(arms.body, j);
      ArmsWithoutBreak(arms.rest, j);
    }
  }

  lemma {:induction false} ListWithoutBreak(ss: Stmts, j: Jumps)
    requires SteerableList(ss, j) && !j.AllJumps?
    ensures !BreakIn(ss)
    decreases ss, 1
  {
    if ss.Cons? {
      SteeredWithoutBreak(ss.head, j);
      ListWithoutBreak(ss.tail, j);
    }
  }

  // ----- a way through -----

  lemma {:induction false} WayThrough(s: Stmt) returns (m: multiset<nat>)
    requires Steerable(s, NoJumps) && !AlwaysReturns(s)
    ensures Ends(s, m)
    decreases s, 0
  {
    m := multiset{};
    match s
    case AssignField(f, _) => m := multiset{f};
    case If(_, thn, els) => m := WayThroughList(if SomeReturns(thn) then els else thn);
    case While(_, _, body) => ListWithoutBreak(body, Continues);
    case Block(body) => m := WayThroughList(body);
    case With(_, body) => m := WayThroughList(body);
    case Match(_, arms) => m := WayThroughArms(arms);
    case _ =>
  }

  lemma {:induction false} WayThroughArms(arms: Arms) returns (m: multiset<nat>)
    requires SteerableArms(arms, NoJumps) && !ArmsReturn(arms)
    ensures EndsArms(arms, m)
    decreases arms, 0
  {
    if SomeReturns(arms.body) { m := WayThroughArms(arms.rest); } else { m := WayThroughList(arms.body); }
  }

  lemma {:induction false} WayThroughList(ss: Stmts) returns (m: multiset<nat>)
    requires SteerableList(ss, NoJumps) && !SomeReturns(ss)
    ensures EndsList(ss, m)
    decreases ss, 1
  {
    m := multiset{};
    if ss.Cons? {
      var a := WayThrough(ss.head);
      var b := WayThroughList(ss.tail);
      m := a + b;
    }
  }

  lemma {:induction false} WayPast(s: Stmt) returns (m: multiset<nat>)
    requires Steerable(s, AllJumps) && !TerminatesHandler(s)
    ensures Ends(s, m)
    decreases s, 0
  {
    m := multiset{};
    match s
    case AssignField(f, _) => m := multiset{f};
    case If(_, thn, els) => m := WayPastList(if SomeTerminates(thn) then els else thn);
    case While(_, c, body) => if c == Bool(true) { ListWithoutBreak(body, Continues); }
    case Block(body) => m := WayPastList(body);
    case With(_, body) => m := WayThroughList(body);
    case Match(_, arms) => m := WayThroughArms(arms);
    case _ =>
  }

  lemma {:induction false} WayPastList(ss: Stmts) returns (m: multiset<nat>)
    requires SteerableList(ss, AllJumps) && !SomeTerminates(ss)
    ensures EndsList(ss, m)
    decreases ss, 1
  {
    m := multiset{};
    if ss.Cons? {
      var a := WayPast(ss.head);
      var b := WayPastList(ss.tail);
      m := a + b;
    }
  }

  // ----- exactly -----

  const CALM: World := (_: seq<Event>) => Reply(0, false)

  /** Without constant conditions and without jumps out of it, a block always leaves exactly when
      no run of it completes normally. */
  lemma AlwaysReturnsIff(body: Stmts, st: State)
    requires SteerableList(body, NoJumps)
    ensures SomeReturns(body) <==> forall w: World, fuel: nat :: ExecBlock(w, body, st, fuel).out != Normal
  {
    if SomeReturns(body) {
      forall w: World, fuel: nat ensures ExecBlock(w, body, st, fuel).out != Normal {
        SomeReturnsSound(w, body, st, fuel);
      }
    } else {
      var m := WayThroughList(body);
      var w := SteerList(CALM, body, NoJumps, st, m);
      assert ExecBlock(w, body, st, 0).out == Normal;
    }
  }

  /** A handler, which may also jump, terminates exactly when no run of it completes normally. */
  lemma TerminatesIff(handler: Stmts, st: State)
    requires SteerableList(handler, AllJumps)
    ensures SomeTerminates(handler) <==> forall w: World, fuel: nat :: ExecBlock(w, handler, st, fuel).out != Normal
  {
    if SomeTerminates(handler) {
      forall w: World, fuel: nat ensures ExecBlock(w, handler, st, fuel).out != Normal {
        SomeTerminatesSound(w, handler, st, fuel);
      }
    } else {
      var m := WayPastList(handler);
      var w := SteerList(CALM, handler, AllJumps, st, m);
      assert ExecBlock(w, handler, st, 0).out == Normal;
    }
  }

  /** `while true: break` completes, and the rules do not say it always leaves. */
  lemma BreakingLoopCompletes(w: World, st: State, fuel: nat)
    requires fuel > 0
    ensures
      var loop := While("", Bool(true), Cons(Break(""), Nil));
      !AlwaysReturns(loop) && Exec(w, loop, st, fuel).out == Normal
  {
    var body := Cons(Break(""), Nil);
    assert Exec(w, Break(""), st, fuel) == Run(Breaking(""), st);
    assert ExecBlock(w, body, st, fuel).out == Breaking("");
    assert Eval(w, Bool(true), st, fuel) == Value(Normal, 1, st);
  }
}
