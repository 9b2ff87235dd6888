/** What the checker's rules for jumps accept, exactly: code that leaves only by ways open to it,
    opens no label twice, and defers only what stays where it is deferred. */
module CheckedExactly {
  import opened LuceSource
  import opened EmitterTermination
  import opened LoweringLimits

  /** Where a loop's condition stands: a strict place has no unnamed jump leave it. */
  function ConditionPlace(p: Place): Place { if p.strict then p.(inLoop := false) else p }

  /** Where something deferred stands: an expression where it is written, anything else with no
      loop, return or failure open.  Nothing leaves it at a strict place. */
  function DeferPlace(d: Deferred, p: Place): Place {
    if p.strict then SEALED
    else if d.what.ExprStmt? then p
    else Place({}, false, p.inCatch, false, false, false)
  }

  /** Labels are new where they are opened, conditions leave as their place allows, and what is
      deferred is of the right form and leaves as its place allows. */
  ghost predicate TidyExpr(e: Expr, p: Place) {
    match e
    case Lit(_) => true
    case Name(_) => true
    case Call(_, arg) => TidyExpr(arg, p)
    case Try(_, arg) => TidyExpr(arg, p)
    case Catch(operand, _, handler) => TidyExpr(operand, p.(mayFail := true)) && TidyList(handler, p.(inCatch := true))
  }

  ghost predicate Tidy(s: Stmt, p: Place) {
    match s
    case If(c, thn, els) => TidyExpr(c, p) && TidyList(thn, p) && TidyList(els, p)
    case While(name, c, body) =>
      && name !in p.open - {""}
      && ExprWithin(c, ConditionPlace(p)) && TidyExpr(c, ConditionPlace(p)) && TidyList(body, InLoop(p, name))
    case Block(body) => TidyList(body, p)
    case With(a, body) => TidyExpr(a, p) && TidyList(body, p)
    case Return(e) => TidyExpr(e, p)
    case Error(e) => TidyExpr(e, p)
    case Recover(e) => TidyExpr(e, p)
    case ExprStmt(e) => TidyExpr(e, p)
    case Assign(_, e) => TidyExpr(e, p)
    case SetAllocator(e) => TidyExpr(e, p)
    case Defer(d) =>
      && (d.what.Block? || d.what.Assign? || d.what.SetAllocator? || d.what.ExprStmt?)
      && StmtWithin(d.what, DeferPlace(d, p)) && Tidy(d.what, DeferPlace(d, p))
    case _ => true
  }

  ghost predicate TidyList(ss: Stmts, p: Place) { ss.Cons? ==> Tidy(ss.head, p) && TidyList(ss.tail, p) }

  // ----- what leaves, part by part -----

  lemma {:induction false} ExprAcceptedIff(e: Expr, p: Place)
    ensures ExprOk(e, p) <==> ExprWithin(e, p) && TidyExpr(e, p)
    decreases e, 1
  {
    match e
    case Lit(_) =>
    case Name(_) =>
    case Call(_, arg) =>
      ExprAcceptedIff(arg, p);
      assert forall way :: ExprEscapes(e, way) <==> ExprEscapes(arg, way);
    case Try(_, arg) =>
      ExprAcceptedIff(arg, p);
      assert forall way :: ExprEscapes(e, way) <==> way == ByFailure || ExprEscapes(arg, way);
      assert ExprEscapes(e, ByFailure);
    case Catch(_, _, _) => CatchAcceptedIff(e, p);
  }

  lemma {:induction false} CatchAcceptedIff(e: Expr, p: Place)
    requires e.Catch?
    ensures ExprOk(e, p) <==> ExprWithin(e, p) && TidyExpr(e, p)
    decreases e, 0
  {
    hide ListEscapes, StmtsOk;
    var fails, catches := p.(mayFail := true), p.(inCatch := true);
    ExprAcceptedIff(e.operand, fails);
    ListAcceptedIff(e.handler, catches);
    assert forall way :: way != ByFailure ==> Permits(fails, way) == Permits(p, way);
    assert forall way :: way != ByRecover ==> Permits(catches, way) == Permits(p, way);
    forall way ensures
      ExprEscapes(e, way) <==> (way != ByFailure && ExprEscapes(e.operand, way)) || (way != ByRecover && ListEscapes(e.handler, way))
    {
    }
  }

  /** A statement of two parts. */
  lemma WithinParts(s: Stmt, p: Place)
    ensures s.If? ==> (StmtWithin(s, p) <==> ExprWithin(s.cond, p) && ListWithin(s.thn, p) && ListWithin(s.els, p))
    ensures s.With? ==> (StmtWithin(s, p) <==> ExprWithin(s.allocator, p) && ListWithin(s.body, p))
    ensures s.Block? ==> (StmtWithin(s, p) <==> ListWithin(s.body, p))
    ensures s.ExprStmt? || s.Assign? || s.SetAllocator? ==> (StmtWithin(s, p) <==> ExprWithin(s.e, p))
  {
    hide ExprEscapes, ListEscapes, Permits;
    if s.If? {
      assert forall way :: StmtEscapes(s, way) <==>
        ExprEscapes(s.cond, way) || ListEscapes(s.thn, way) || ListEscapes(s.els, way);
    } else if s.With? {
      assert forall way :: StmtEscapes(s, way) <==> ExprEscapes(s.allocator, way) || ListEscapes(s.body, way);
    } else if s.Block? {
      assert forall way :: StmtEscapes(s, way) <==> ListEscapes(s.body, way);
    } else if s.ExprStmt? || s.Assign? || s.SetAllocator? {
      assert forall way :: StmtEscapes(s, way) <==> ExprEscapes(s.e, way);
    }
  }

  lemma {:induction false} AcceptedIff(s: Stmt, p: Place)
    ensures StmtOk(s, p) <==> StmtWithin(s, p) && Tidy(s, p)
    decreases s, 1
  {
    hide ExprOk, StmtsOk, ExprEscapes, ListEscapes, Permits;
    match s
    case If(c, thn, els) =>
      ExprAcceptedIff(c, p);
      ListAcceptedIff(thn, p);
      ListAcceptedIff(els, p);
      WithinParts(s, p);
    case While(_, _, _) => LoopAcceptedIff(s, p);
    case Block(body) => ListAcceptedIff(body, p); WithinParts(s, p);
    case With(a, body) =>
      ExprAcceptedIff(a, p);
      ListAcceptedIff(body, p);
      WithinParts(s, p);
    case ExprStmt(e) => ExprAcceptedIff(e, p); WithinParts(s, p);
    case Assign(_, e) => ExprAcceptedIff(e, p); WithinParts(s, p);
    case SetAllocator(e) => ExprAcceptedIff(e, p); WithinParts(s, p);
    case Return(e) => ExprAcceptedIff(e, p); ValuedWithin(s, ByReturn, p); OpenWays(p);
    case Error(e) => ExprAcceptedIff(e, p); ValuedWithin(s, ByFailure, p); OpenWays(p);
    case Recover(e) => ExprAcceptedIff(e, p); ValuedWithin(s, ByRecover, p); OpenWays(p);
    case ReturnUnit => OneWay(s, ByReturn, p); OpenWays(p);
    case Break(name) => OneWay(s, ByJump(name), p); JumpOpen(p, name);
    case Continue(name) => OneWay(s, ByJump(name), p); JumpOpen(p, name);
    case Defer(d) =>
      AcceptedIff(d.what, DeferPlace(d, p));
      assert StmtWithin(s, p);
  }

  lemma OpenWays(p: Place)
    ensures Permits(p, ByReturn) == p.mayReturn && Permits(p, ByFailure) == p.mayFail && Permits(p, ByRecover) == p.inCatch
  {
  }

  lemma JumpOpen(p: Place, name: string)
    ensures Permits(p, ByJump(name)) == if name == "" then p.inLoop else name in p.open
  {
  }

  lemma OneWay(s: Stmt, way: Way, p: Place)
    requires forall other :: StmtEscapes(s, other) <==> other == way
    ensures StmtWithin(s, p) <==> Permits(p, way)
  {
    hide Permits;
    assert StmtEscapes(s, way);
  }

  lemma {:induction false} LoopAcceptedIff(s: Stmt, p: Place)
    requires s.While?
    ensures StmtOk(s, p) <==> StmtWithin(s, p) && Tidy(s, p)
    decreases s, 0
  {
    hide ExprOk, StmtsOk, ExprEscapes, ListEscapes;
    var name, inside := s.loopName, InLoop(p, s.loopName);
    ExprAcceptedIff(s.cond, ConditionPlace(p));
    ListAcceptedIff(s.body, inside);
    assert forall way: Way :: !(way.ByJump? && Aims(way.name, name)) ==> Permits(inside, way) == Permits(p, way);
    assert forall way: Way :: way.ByJump? && Aims(way.name, name) ==> Permits(inside, way);
    assert forall way: Way :: Permits(ConditionPlace(p), way) ==> Permits(p, way);
    if StmtWithin(s, p) {
      forall way | ListEscapes(s.body, way) ensures Permits(inside, way) {
        assert !(way.ByJump? && Aims(way.name, name)) ==> StmtEscapes(s, way);
      }
    }
    if StmtOk(s, p) {
      forall way | StmtEscapes(s, way) ensures Permits(p, way) {
        assert ExprEscapes(s.cond, way) ==> Permits(ConditionPlace(p), way);
        assert ListEscapes(s.body, way) ==> Permits(inside, way);
      }
    }
  }

  /** A list of statements is accepted at a place exactly when it leaves only as the place allows
      and everything in it is tidy. */
  lemma {:induction false} ListAcceptedIff(ss: Stmts, p: Place)
    ensures StmtsOk(ss, p) <==> ListWithin(ss, p) && TidyList(ss, p)
    decreases ss, 2
  {
    hide StmtOk, StmtEscapes, Permits;
    if ss.Cons? {
      AcceptedIff(ss.head, p);
      ListAcceptedIff(ss.tail, p);
      assert forall way :: ListEscapes(ss, way) <==> StmtEscapes(ss.head, way) || ListEscapes(ss.tail, way);
    } else {
      assert forall way :: !ListEscapes(ss, way);
    }
  }
}
