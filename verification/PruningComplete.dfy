/** Pruning removes all it is for: in a pruned block no constant decides a branch, nothing stands
    behind a statement that always leaves, and nothing declared goes unread. */
module PruningComplete {
  import opened Wrappers
  import opened FlowSource
  import opened AlwaysLeaves
  import opened Pruning
  import ConstFold
  import ConstFoldTheorem

  // ----- constants -----

  /** Made of truth values, constants and comparisons of integers that stay non-negative. */
  predicate Decided(e: Expr) {
    match e
    case Bool(_) => true
    case Group(i) => Decided(i)
    case Const(init) => Decided(init)
    case Not(i) => Decided(i)
    case And(l, r) => Decided(l) && Decided(r)
    case Or(l, r) => Decided(l) && Decided(r)
    case Compare(c) => ConstFold.TypedComparison(c) && ConstFold.NonNegative(c.left) && ConstFold.NonNegative(c.right)
    case _ => false
  }

  /** Such a condition is decided, and as the program would decide it. */
  lemma {:induction false} DecidedFolds(w: World, e: Expr, st: State, fuel: nat)
    requires Decided(e)
    ensures ConstBool(e).Some? && CondFits(e) && Eval(w, e, st, fuel) == Value(Normal, Truth(ConstBool(e).value), st)
    decreases e
  {
    match e
    case Bool(_) =>
    case Group(i) => DecidedFolds(w, i, st, fuel);
    case Const(init) => DecidedFolds(w, init, START, fuel);
    case Not(i) => DecidedFolds(w, i, st, fuel);
    case And(l, r) => DecidedFolds(w, l, st, fuel); DecidedFolds(w, r, st, fuel);
    case Or(l, r) => DecidedFolds(w, l, st, fuel); DecidedFolds(w, r, st, fuel);
    case Compare(c) =>
      ConstFoldTheorem.NonNegativeFolds(c.left);
      ConstFoldTheorem.NonNegativeFolds(c.right);
      ConstBoolSound(w, e, st, fuel);
  }

  lemma {:induction false} PrunedConstBool(e: Expr)
    ensures ConstBool(PruneExpr(e)) == ConstBool(e)
  {
    match e
    case Group(i) => PrunedConstBool(i);
    case Not(i) => PrunedConstBool(i);
    case And(l, r) => PrunedConstBool(l); PrunedConstBool(r);
    case Or(l, r) => PrunedConstBool(l); PrunedConstBool(r);
    case _ =>
  }

  // ----- branches and what stands behind a leaving statement -----

  predicate NoNeverBinding(s: Stmt) {
    match s
    case Let(_, e) => !e.Never? && NoNeverIn(e)
    case Assign(_, e) => NoNeverIn(e)
    case AssignField(_, e) => NoNeverIn(e)
    case Store(place, e) => NoNeverIn(place) && NoNeverIn(e)
    case ExprStmt(e) => NoNeverIn(e)
    case If(c, thn, els) => NoNeverIn(c) && NoNeverBindings(thn) && NoNeverBindings(els)
    case While(_, c, body) => NoNeverIn(c) && NoNeverBindings(body)
    case Block(body) => NoNeverBindings(body)
    case With(a, body) => NoNeverIn(a) && NoNeverBindings(body)
    case Match(e, arms) => NoNeverIn(e) && NoNeverArms(arms)
    case Return(e) => NoNeverIn(e)
    case Recover(e) => NoNeverIn(e)
    case Error(e) => NoNeverIn(e)
    case _ => true
  }

  predicate NoNeverArms(arms: Arms) {
    arms.Arm? ==> NoNeverIn(arms.guard) && NoNeverBindings(arms.body) && NoNeverArms(arms.rest)
  }

  /** No local is bound to a call of type `never`. */
  predicate NoNeverBindings(ss: Stmts) { ss.Cons? ==> NoNeverBinding(ss.head) && NoNeverBindings(ss.tail) }

  predicate NoNeverIn(e: Expr) {
    match e
    case Group(i) => NoNeverIn(i)
    case Not(i) => NoNeverIn(i)
    case And(a, b) => NoNeverIn(a) && NoNeverIn(b)
    case Or(a, b) => NoNeverIn(a) && NoNeverIn(b)
    case Member(i, _) => NoNeverIn(i)
    case AddressOf(i) => NoNeverIn(i)
    case Else(i, fallback) => NoNeverIn(i) && NoNeverIn(fallback)
    case Call(_, args) => NoNeverInAll(args)
    case Try(_, args) => NoNeverInAll(args)
    case Catch(operand, _, handler) => NoNeverIn(operand) && NoNeverBindings(handler)
    case _ => true
  }

  predicate NoNeverInAll(es: Exprs) { es.More? ==> NoNeverIn(es.head) && NoNeverInAll(es.tail) }

  /** No branch is decided by a constant, and nothing stands behind a statement that always leaves. */
  predicate Lean(s: Stmt) {
    match s
    case Let(_, e) => LeanExpr(e)
    case Assign(_, e) => LeanExpr(e)
    case AssignField(_, e) => LeanExpr(e)
    case Store(place, e) => LeanExpr(place) && LeanExpr(e)
    case ExprStmt(e) => LeanExpr(e)
    case If(c, thn, els) => ConstBool(c).None? && LeanExpr(c) && LeanList(thn) && LeanList(els)
    case While(_, c, body) => ConstBool(c) != Some(false) && LeanExpr(c) && LeanList(body)
    case Block(body) => LeanList(body)
    case With(a, body) => LeanExpr(a) && LeanList(body)
    case Match(e, arms) => LeanExpr(e) && LeanArms(arms)
    case Return(e) => LeanExpr(e)
    case Recover(e) => LeanExpr(e)
    case Error(e) => LeanExpr(e)
    case _ => true
  }

  predicate LeanArms(arms: Arms) { arms.Arm? ==> LeanExpr(arms.guard) && LeanList(arms.body) && LeanArms(arms.rest) }

  predicate LeanList(ss: Stmts) {
    ss.Cons? ==> Lean(ss.head) && LeanList(ss.tail) && (AlwaysReturns(ss.head) ==> ss.tail == Nil)
  }

  predicate LeanExpr(e: Expr) {
    match e
    case Group(i) => LeanExpr(i)
    case Not(i) => LeanExpr(i)
    case And(a, b) => LeanExpr(a) && LeanExpr(b)
    case Or(a, b) => LeanExpr(a) && LeanExpr(b)
    case Member(i, _) => LeanExpr(i)
    case AddressOf(i) => LeanExpr(i)
    case Else(i, fallback) => LeanExpr(i) && LeanExpr(fallback)
    case Call(_, args) => LeanExprs(args)
    case Try(_, args) => LeanExprs(args)
    case Catch(operand, _, handler) => LeanExpr(operand) && LeanList(handler)
    case _ => true
  }

  predicate LeanExprs(es: Exprs) { es.More? ==> LeanExpr(es.head) && LeanExprs(es.tail) }

  lemma {:induction false} PrunedExprIsLean(e: Expr)
    requires NoNeverIn(e)
    ensures LeanExpr(PruneExpr(e))
    decreases e, 0
  {
    match e
    case Group(i) => PrunedExprIsLean(i);
    case Not(i) => PrunedExprIsLean(i);
    case And(a, b) => PrunedExprIsLean(a); PrunedExprIsLean(b);
    case Or(a, b) => PrunedExprIsLean(a); PrunedExprIsLean(b);
    case Member(i, _) => PrunedExprIsLean(i);
    case AddressOf(i) => PrunedExprIsLean(i);
    case Else(i, fallback) => PrunedExprIsLean(i); PrunedExprIsLean(fallback);
    case Call(_, args) => PrunedExprsAreLean(args);
    case Try(_, args) => PrunedExprsAreLean(args);
    case Catch(operand, _, handler) => PrunedExprIsLean(operand); PrunedIsLean(handler);
    case _ =>
  }

  lemma {:induction false} PrunedExprsAreLean(es: Exprs)
    requires NoNeverInAll(es)
    ensures LeanExprs(PruneExprs(es))
    decreases es, 0
  {
    if es.More? {
      PrunedExprIsLean(es.head);
      PrunedExprsAreLean(es.tail);
    }
  }

  lemma {:induction false} PrunedStmtIsLean(s: Stmt)
    requires NoNeverBinding(s)
    ensures Lean(PruneStmt(s))
    decreases s, 0
  {
    match s
    case Let(_, e) => PrunedExprIsLean(e);
    case Assign(_, e) => PrunedExprIsLean(e);
    case AssignField(_, e) => PrunedExprIsLean(e);
    case Store(place, e) => PrunedExprIsLean(place); PrunedExprIsLean(e);
    case ExprStmt(e) => PrunedExprIsLean(e);
    case If(c, thn, els) =>
      PrunedConstBool(c);
      if ConstBool(c).Some? { assert ConstBool(c) == if ConstBool(c).value then Some(true) else Some(false); }
      PrunedExprIsLean(c);
      PrunedIsLean(thn);
      PrunedIsLean(els);
    case While(_, c, body) =>
      PrunedConstBool(c);
      PrunedExprIsLean(c);
      PrunedIsLean(body);
    case Block(body) => PrunedIsLean(body);
    case With(a, body) => PrunedExprIsLean(a); PrunedIsLean(body);
    case Match(e, arms) => PrunedExprIsLean(e); PrunedArmsAreLean(arms);
    case Return(e) => PrunedExprIsLean(e);
    case Recover(e) => PrunedExprIsLean(e);
    case Error(e) => PrunedExprIsLean(e);
    case _ =>
  }

  lemma {:induction false} PrunedArmsAreLean(arms: Arms)
    requires NoNeverArms(arms)
    ensures LeanArms(PruneArms(arms))
    decreases arms, 0
  {
    if arms.Arm? {
      PrunedExprIsLean(arms.guard);
      PrunedIsLean(arms.body);
      PrunedArmsAreLean(arms.rest);
    }
  }

  lemma NeverStaysNever(e: Expr)
    ensures PruneExpr(e).Never? <==> e.Never?
  {
  }

  /** A pruned block has no branch a constant decides and nothing behind what always leaves. */
  lemma {:induction false} PrunedIsLean(ss: Stmts)
    requires NoNeverBindings(ss)
    ensures LeanList(Prune(ss))
    decreases ss, 1
  {
    hide UsedIn, UsedInStmt, UsedInExpr, IsPure;
    if ss.Cons? {
      PrunedStmtIsLean(ss.head);
      PrunedIsLean(ss.tail);
      if ss.head.Let? { NeverStaysNever(ss.head.init); }
    }
  }

  // ----- bindings nothing reads -----

  /** `x` is written somewhere in the code, apart from its declaration. */
  predicate TextInExpr(e: Expr, x: string) {
    match e
    case Name(y) => x == y
    case Group(i) => TextInExpr(i, x)
    case Not(i) => TextInExpr(i, x)
    case And(a, b) => TextInExpr(a, x) || TextInExpr(b, x)
    case Or(a, b) => TextInExpr(a, x) || TextInExpr(b, x)
    case Member(i, _) => TextInExpr(i, x)
    case AddressOf(i) => TextInExpr(i, x)
    case Else(i, fallback) => TextInExpr(i, x) || TextInExpr(fallback, x)
    case Call(_, args) => TextInExprs(args, x)
    case Try(_, args) => TextInExprs(args, x)
    case Catch(operand, _, handler) => TextInExpr(operand, x) || TextIn(handler, x)
    case _ => false
  }

  predicate TextInExprs(es: Exprs, x: string) { es.More? && (TextInExpr(es.head, x) || TextInExprs(es.tail, x)) }

  predicate TextInStmt(s: Stmt, x: string) {
    match s
    case Let(_, e) => TextInExpr(e, x)
    case Assign(y, e) => x == y || TextInExpr(e, x)
    case AssignField(_, e) => TextInExpr(e, x)
    case Store(place, e) => TextInExpr(place, x) || TextInExpr(e, x)
    case ExprStmt(e) => TextInExpr(e, x)
    case If(c, thn, els) => TextInExpr(c, x) || TextIn(thn, x) || TextIn(els, x)
    case While(_, c, body) => TextInExpr(c, x) || TextIn(body, x)
    case Block(body) => TextIn(body, x)
    case With(a, body) => TextInExpr(a, x) || TextIn(body, x)
    case Match(e, arms) => TextInExpr(e, x) || TextInArms(arms, x)
    case Return(e) => TextInExpr(e, x)
    case Recover(e) => TextInExpr(e, x)
    case Error(e) => TextInExpr(e, x)
    case _ => false
  }

  predicate TextInArms(arms: Arms, x: string) {
    arms.Arm? && (TextInExpr(arms.guard, x) || TextIn(arms.body, x) || TextInArms(arms.rest, x))
  }

  predicate TextIn(ss: Stmts, x: string) { ss.Cons? && (TextInStmt(ss.head, x) || TextIn(ss.tail, x)) }

  /** A local `x` is declared somewhere in the code, other than as the guard of an `else`. */
  predicate DeclaresInExpr(e: Expr, x: string) {
    match e
    case Group(i) => DeclaresInExpr(i, x)
    case Not(i) => DeclaresInExpr(i, x)
    case And(a, b) => DeclaresInExpr(a, x) || DeclaresInExpr(b, x)
    case Or(a, b) => DeclaresInExpr(a, x) || DeclaresInExpr(b, x)
    case Member(i, _) => DeclaresInExpr(i, x)
    case AddressOf(i) => DeclaresInExpr(i, x)
    case Else(i, fallback) => DeclaresInExpr(i, x) || DeclaresInExpr(fallback, x)
    case Call(_, args) => DeclaresInExprs(args, x)
    case Try(_, args) => DeclaresInExprs(args, x)
    case Catch(operand, _, handler) => DeclaresInExpr(operand, x) || DeclaresIn(handler, x)
    case _ => false
  }

  predicate DeclaresInExprs(es: Exprs, x: string) {
    es.More? && (DeclaresInExpr(es.head, x) || DeclaresInExprs(es.tail, x))
  }

  predicate DeclaresInStmt(s: Stmt, x: string) {
    match s
    case Let(y, e) => (x == y && !e.Else?) || DeclaresInExpr(e, x)
    case Declare(y) => x == y
    case Assign(_, e) => DeclaresInExpr(e, x)
    case AssignField(_, e) => DeclaresInExpr(e, x)
    case Store(place, e) => DeclaresInExpr(place, x) || DeclaresInExpr(e, x)
    case ExprStmt(e) => DeclaresInExpr(e, x)
    case If(c, thn, els) => DeclaresInExpr(c, x) || DeclaresIn(thn, x) || DeclaresIn(els, x)
    case While(_, c, body) => DeclaresInExpr(c, x) || DeclaresIn(body, x)
    case Block(body) => DeclaresIn(body, x)
    case With(a, body) => DeclaresInExpr(a, x) || DeclaresIn(body, x)
    case Match(e, arms) => DeclaresInExpr(e, x) || DeclaresInArms(arms, x)
    case Return(e) => DeclaresInExpr(e, x)
    case Recover(e) => DeclaresInExpr(e, x)
    case Error(e) => DeclaresInExpr(e, x)
    case _ => false
  }

  predicate DeclaresInArms(arms: Arms, x: string) {
    arms.Arm? && (DeclaresInExpr(arms.guard, x) || DeclaresIn(arms.body, x) || DeclaresInArms(arms.rest, x))
  }

  predicate DeclaresIn(ss: Stmts, x: string) { ss.Cons? && (DeclaresInStmt(ss.head, x) || DeclaresIn(ss.tail, x)) }

  predicate Underscored(x: string) { |x| > 0 && x[0] == '_' }

  lemma {:induction false} UsedExprIsText(e: Expr, x: string)
    requires UsedInExpr(e, x)
    ensures TextInExpr(e, x)
    decreases e, 0
  {
    match e
    case Name(_) =>
    case Group(i) => UsedExprIsText(i, x);
    case Not(i) => UsedExprIsText(i, x);
    case And(a, b) => UsedExprIsText(if UsedInExpr(a, x) then a else b, x);
    case Or(a, b) => UsedExprIsText(if UsedInExpr(a, x) then a else b, x);
    case Member(i, _) => UsedExprIsText(i, x);
    case AddressOf(i) => UsedExprIsText(i, x);
    case Else(a, b) => UsedExprIsText(if UsedInExpr(a, x) then a else b, x);
    case Call(_, args) => UsedExprsAreText(args, x);
    case Try(_, args) => UsedExprsAreText(args, x);
    case Catch(operand, _, handler) => if UsedInExpr(operand, x) { UsedExprIsText(operand, x); } else { UsedIsText(handler, x); }
  }

  lemma {:induction false} UsedExprsAreText(es: Exprs, x: string)
    requires UsedInExprs(es, x)
    ensures TextInExprs(es, x)
    decreases es, 0
  {
    if UsedInExpr(es.head, x) { UsedExprIsText(es.head, x); } else { UsedExprsAreText(es.tail, x); }
  }

  lemma {:induction false} UsedStmtIsText(s: Stmt, x: string)
    requires UsedInStmt(s, x)
    ensures TextInStmt(s, x)
    decreases s, 0
  {
    match s
    case Let(_, e) => UsedExprIsText(e, x);
    case Assign(y, e) => if x != y { UsedExprIsText(e, x); }
    case AssignField(_, e) => UsedExprIsText(e, x);
    case Store(place, e) => UsedExprIsText(if UsedInExpr(place, x) then place else e, x);
    case ExprStmt(e) => UsedExprIsText(e, x);
    case If(c, thn, els) =>
      if UsedInExpr(c, x) { UsedExprIsText(c, x); } else { UsedIsText(if UsedIn(thn, x) then thn else els, x); }
    case While(_, c, body) => if UsedInExpr(c, x) { UsedExprIsText(c, x); } else { UsedIsText(body, x); }
    case Block(body) => UsedIsText(body, x);
    case With(a, body) => if UsedInExpr(a, x) { UsedExprIsText(a, x); } else { UsedIsText(body, x); }
    case Match(e, arms) => if UsedInExpr(e, x) { UsedExprIsText(e, x); } else { UsedArmsAreText(arms, x); }
    case Return(e) => UsedExprIsText(e, x);
    case Recover(e) => UsedExprIsText(e, x);
    case Error(e) => UsedExprIsText(e, x);
  }

  lemma {:induction false} UsedArmsAreText(arms: Arms, x: string)
    requires UsedInArms(arms, x)
    ensures TextInArms(arms, x)
    decreases arms, 0
  {
    if UsedInExpr(arms.guard, x) { UsedExprIsText(arms.guard, x); }
    else if UsedIn(arms.body, x) { UsedIsText(arms.body, x); }
    else { UsedArmsAreText(arms.rest, x); }
  }

  /** Whatever the checker has looked up is written. */
  lemma {:induction false} UsedIsText(ss: Stmts, x: string)
    requires UsedIn(ss, x)
    ensures TextIn(ss, x)
    decreases ss, 1
  {
    if UsedInStmt(ss.head, x) { UsedStmtIsText(ss.head, x); } else { UsedIsText(ss.tail, x); }
  }

  lemma {:induction false} UnreadExpr(e: Expr, x: string)
    requires !TextInExpr(e, x) && !Underscored(x)
    ensures !DeclaresInExpr(PruneExpr(e), x)
    decreases e, 0
  {
    match e
    case Group(i) => UnreadExpr(i, x);
    case Not(i) => UnreadExpr(i, x);
    case And(a, b) => UnreadExpr(a, x); UnreadExpr(b, x);
    case Or(a, b) => UnreadExpr(a, x); UnreadExpr(b, x);
    case Member(i, _) => UnreadExpr(i, x);
    case AddressOf(i) => UnreadExpr(i, x);
    case Else(i, fallback) => UnreadExpr(i, x); UnreadExpr(fallback, x);
    case Call(_, args) => UnreadExprs(args, x);
    case Try(_, args) => UnreadExprs(args, x);
    case Catch(operand, _, handler) => UnreadExpr(operand, x); UnreadIsGone(handler, x);
    case _ =>
  }

  lemma {:induction false} UnreadExprs(es: Exprs, x: string)
    requires !TextInExprs(es, x) && !Underscored(x)
    ensures !DeclaresInExprs(PruneExprs(es), x)
    decreases es, 0
  {
    if es.More? {
      UnreadExpr(es.head, x);
      UnreadExprs(es.tail, x);
    }
  }

  lemma {:induction false} UnreadStmt(s: Stmt, x: string)
    requires !TextInStmt(s, x) && !Underscored(x)
    ensures DeclaresInStmt(PruneStmt(s), x) ==> (s.Let? || s.Declare?) && s.x == x && (s.Let? ==> !s.init.Else?)
    ensures s.Let? ==> !DeclaresInExpr(PruneExpr(s.init), x)
    decreases s, 0
  {
    match s
    case Let(_, e) => UnreadExpr(e, x);
    case Declare(_) =>
    case Assign(_, e) => UnreadExpr(e, x);
    case AssignField(_, e) => UnreadExpr(e, x);
    case Store(place, e) => UnreadExpr(place, x); UnreadExpr(e, x);
    case ExprStmt(e) => UnreadExpr(e, x);
    case If(c, thn, els) => UnreadExpr(c, x); UnreadIsGone(thn, x); UnreadIsGone(els, x);
    case While(_, c, body) =>
      UnreadExpr(c, x);
      UnreadIsGone(body, x);
      assert !DeclaresIn(Nil, x);
    case Block(body) => UnreadIsGone(body, x);
    case With(a, body) => UnreadExpr(a, x); UnreadIsGone(body, x);
    case Match(e, arms) => UnreadExpr(e, x); UnreadArms(arms, x);
    case Return(e) => UnreadExpr(e, x);
    case Recover(e) => UnreadExpr(e, x);
    case Error(e) => UnreadExpr(e, x);
    case _ =>
  }

  lemma {:induction false} UnreadArms(arms: Arms, x: string)
    requires !TextInArms(arms, x) && !Underscored(x)
    ensures !DeclaresInArms(PruneArms(arms), x)
    decreases arms, 0
  {
    if arms.Arm? {
      UnreadExpr(arms.guard, x);
      UnreadIsGone(arms.body, x);
      UnreadArms(arms.rest, x);
    }
  }

  /** A local that is written nowhere but where it is declared is declared nowhere in the pruned
      block, but for names in `_` and the guards of an `else`. */
  lemma {:induction false} UnreadIsGone(ss: Stmts, x: string)
    requires !TextIn(ss, x) && !Underscored(x)
    ensures !DeclaresIn(Prune(ss), x)
    decreases ss, 1
  {
    hide UsedIn, UsedInStmt, UsedInExpr, IsPure;
    if ss.Cons? {
      UnreadStmt(ss.head, x);
      UnreadIsGone(ss.tail, x);
      if UsedIn(ss.tail, x) { UsedIsText(ss.tail, x); }
    }
  }
}
