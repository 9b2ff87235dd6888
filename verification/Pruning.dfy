/** What the checker removes from a block (src/check/check.cpp, src/check/stmt.cpp): statements
    after one that always leaves, bindings nothing reads, and branches a constant condition
    rules out.  Every removal keeps the program's meaning. */
module Pruning {
  import opened Wrappers
  import opened FlowSource
  import opened AlwaysLeaves
  import ConstFold
  import ConstFoldTheorem

  /** `const_bool`: literals, top-level constants, `not`, `and`, `or`, and comparisons of
      constant integers. */
  function ConstBool(e: Expr): Option<bool> {
    match e
    case Bool(b) => Some(b)
    case Group(i) => ConstBool(i)
    case Const(init) => ConstBool(init)
    case Not(i) => var a := ConstBool(i); if a.Some? then Some(!a.value) else None
    case And(l, r) =>
      var a, b := ConstBool(l), ConstBool(r);
      if a.Some? && b.Some? then Some(a.value && b.value) else None
    case Or(l, r) =>
      var a, b := ConstBool(l), ConstBool(r);
      if a.Some? && b.Some? then Some(a.value || b.value) else None
    case Compare(c) => ConstFold.FoldComparison(c)
    case _ => None
  }

  /** The constant comparisons of a condition are typed, and those that fold fit. */
  predicate CondFits(e: Expr) {
    match e
    case Group(i) => CondFits(i)
    case Const(init) => CondFits(init)
    case Not(i) => CondFits(i)
    case And(l, r) => CondFits(l) && CondFits(r)
    case Or(l, r) => CondFits(l) && CondFits(r)
    case Compare(c) =>
      ConstFold.TypedComparison(c) &&
      (ConstFold.FoldComparison(c).Some? ==> ConstFold.Fits(c.left) && ConstFold.Fits(c.right))
    case _ => true
  }

  predicate IsPure(e: Expr) {
    match e
    case Bool(_) => true
    case Int(_) => true
    case Name(_) => true
    case Const(_) => true
    case SelfRef => true
    case Group(i) => IsPure(i)
    case Member(i, _) => IsPure(i)
    case AddressOf(i) => IsPure(i)
    case _ => false
  }

  // ----- names the checker has looked up -----

  predicate UsedInExpr(e: Expr, x: string) {
    match e
    case Name(y) => x == y
    case Group(i) => UsedInExpr(i, x)
    case Not(i) => UsedInExpr(i, x)
    case And(a, b) => UsedInExpr(a, x) || UsedInExpr(b, x)
    case Or(a, b) => UsedInExpr(a, x) || UsedInExpr(b, x)
    case Member(i, _) => UsedInExpr(i, x)
    case AddressOf(i) => UsedInExpr(i, x)
    case Else(i, fallback) => UsedInExpr(i, x) || UsedInExpr(fallback, x)
    case Call(_, args) => UsedInExprs(args, x)
    case Try(_, args) => UsedInExprs(args, x)
    case Catch(operand, _, handler) => UsedInExpr(operand, x) || UsedIn(handler, x)
    case _ => false
  }

  predicate UsedInExprs(es: Exprs, x: string) { es.More? && (UsedInExpr(es.head, x) || UsedInExprs(es.tail, x)) }

  predicate UsedInStmt(s: Stmt, x: string)
    decreases s, 0
  {
    match s
    case Let(_, e) => UsedInExpr(e, x)
    case Declare(_) => false
    case Assign(y, e) => x == y || UsedInExpr(e, x)
    case AssignField(_, e) => UsedInExpr(e, x)
    case Store(place, e) => UsedInExpr(place, x) || UsedInExpr(e, x)
    case ExprStmt(e) => UsedInExpr(e, x)
    case If(c, thn, els) => UsedInExpr(c, x) || UsedIn(thn, x) || UsedIn(els, x)
    case While(_, c, body) => UsedInExpr(c, x) || UsedIn(body, x)
    case Block(body) => UsedIn(body, x)
    case With(a, body) => UsedInExpr(a, x) || UsedIn(body, x)
    case Match(e, arms) => UsedInExpr(e, x) || UsedInArms(arms, x)
    case Return(e) => UsedInExpr(e, x)
    case Recover(e) => UsedInExpr(e, x)
    case Error(e) => UsedInExpr(e, x)
    case Trap => false
    case Break(_) => false
    case Continue(_) => false
  }

  predicate UsedInArms(arms: Arms, x: string) {
    arms.Arm? && (UsedInExpr(arms.guard, x) || UsedIn(arms.body, x) || UsedInArms(arms.rest, x))
  }

  /** Statements past one that always leaves are cut before they are looked at. */
  predicate UsedIn(ss: Stmts, x: string)
    decreases ss, 0
  {
    ss.Cons? && (UsedInStmt(ss.head, x) || (!AlwaysReturns(PruneStmt(ss.head)) && UsedIn(ss.tail, x)))
  }

  // ----- pruning -----

  /** `note_unused_local`: never read, not named `_...`, and not an `else` guard. */
  predicate Unused(s: Stmt, rest: Stmts)
    decreases rest, 1
  {
    match s
    case Let(x, e) => !UsedIn(rest, x) && !(|x| > 0 && x[0] == '_') && !e.Else?
    case Declare(x) => !UsedIn(rest, x) && !(|x| > 0 && x[0] == '_')
    case _ => false
  }

  function PruneExpr(e: Expr): Expr {
    match e
    case Group(i) => Group(PruneExpr(i))
    case Not(i) => Not(PruneExpr(i))
    case And(a, b) => And(PruneExpr(a), PruneExpr(b))
    case Or(a, b) => Or(PruneExpr(a), PruneExpr(b))
    case Member(i, f) => Member(PruneExpr(i), f)
    case AddressOf(i) => AddressOf(PruneExpr(i))
    case Else(i, fallback) => Else(PruneExpr(i), PruneExpr(fallback))
    case Call(f, args) => Call(f, PruneExprs(args))
    case Try(f, args) => Try(f, PruneExprs(args))
    case Catch(operand, x, handler) => Catch(PruneExpr(operand), x, Prune(handler))
    case _ => e
  }

  function PruneExprs(es: Exprs): Exprs {
    match es
    case NoExprs => NoExprs
    case More(e, rest) => More(PruneExpr(e), PruneExprs(rest))
  }

  /** A checked statement: its blocks pruned, a constant branch folded. */
  function PruneStmt(s: Stmt): Stmt
    decreases s, 0
  {
    match s
    case Let(x, e) => Let(x, PruneExpr(e))
    case Declare(_) => s
    case Assign(x, e) => Assign(x, PruneExpr(e))
    case AssignField(f, e) => AssignField(f, PruneExpr(e))
    case Store(place, e) => Store(PruneExpr(place), PruneExpr(e))
    case ExprStmt(e) => ExprStmt(PruneExpr(e))
    case If(c, thn, els) =>
      if ConstBool(c) == Some(true) then Block(Prune(thn))
      else if ConstBool(c) == Some(false) then Block(Prune(els))
      else If(PruneExpr(c), Prune(thn), Prune(els))
    case While(name, c, body) =>
      if ConstBool(c) == Some(false) then Block(Nil) else While(name, PruneExpr(c), Prune(body))
    case Block(body) => Block(Prune(body))
    case With(a, body) => With(PruneExpr(a), Prune(body))
    case Match(e, arms) => Match(PruneExpr(e), PruneArms(arms))
    case Return(e) => Return(PruneExpr(e))
    case Recover(e) => Recover(PruneExpr(e))
    case Error(e) => Error(PruneExpr(e))
    case Trap => s
    case Break(_) => s
    case Continue(_) => s
  }

  function PruneArms(arms: Arms): Arms {
    match arms
    case NoArms => NoArms
    case Arm(p, guard, body, rest) => Arm(p, PruneExpr(guard), Prune(body), PruneArms(rest))
  }

  /** A checked block: cut after the first statement that always leaves, unread bindings gone
      or reduced to what they evaluated. */
  function Prune(ss: Stmts): Stmts
    decreases ss, 0
  {
    match ss
    case Nil => Nil
    case Cons(s, rest) =>
      var s' := PruneStmt(s);
      var rest' := if AlwaysReturns(s') then Nil else Prune(rest);
      if Unused(s, rest) then
        if s.Declare? || IsPure(s.init) then rest' else Cons(ExprStmt(PruneExpr(s.init)), rest')
      else Cons(s', rest')
  }

  // ----- names are declared once in every scope, and folded conditions fit -----

  predicate WellFormedExpr(e: Expr, scope: set<string>) {
    match e
    case Group(i) => WellFormedExpr(i, scope)
    case Not(i) => WellFormedExpr(i, scope)
    case And(a, b) => WellFormedExpr(a, scope) && WellFormedExpr(b, scope)
    case Or(a, b) => WellFormedExpr(a, scope) && WellFormedExpr(b, scope)
    case Member(i, _) => WellFormedExpr(i, scope)
    case AddressOf(i) => WellFormedExpr(i, scope)
    case Else(i, fallback) => WellFormedExpr(i, scope) && WellFormedExpr(fallback, scope)
    case Call(_, args) => WellFormedExprs(args, scope)
    case Try(_, args) => WellFormedExprs(args, scope)
    case Catch(operand, x, handler) => WellFormedExpr(operand, scope) && x !in scope && WellFormed(handler, scope + {x})
    case _ => true
  }

  predicate WellFormedExprs(es: Exprs, scope: set<string>) {
    es.More? ==> WellFormedExpr(es.head, scope) && WellFormedExprs(es.tail, scope)
  }

  predicate WellFormedStmt(s: Stmt, scope: set<string>) {
    match s
    case Let(x, e) => x !in scope && WellFormedExpr(e, scope)
    case Declare(x) => x !in scope
    case Assign(x, e) => x in scope && WellFormedExpr(e, scope)
    case AssignField(_, e) => WellFormedExpr(e, scope)
    case Store(place, e) => WellFormedExpr(place, scope) && WellFormedExpr(e, scope)
    case ExprStmt(e) => WellFormedExpr(e, scope)
    case If(c, thn, els) => CondFits(c) && WellFormedExpr(c, scope) && WellFormed(thn, scope) && WellFormed(els, scope)
    case While(_, c, body) => CondFits(c) && WellFormedExpr(c, scope) && WellFormed(body, scope)
    case Block(body) => WellFormed(body, scope)
    case With(a, body) => WellFormedExpr(a, scope) && WellFormed(body, scope)
    case Match(e, arms) => WellFormedExpr(e, scope) && WellFormedArms(arms, scope)
    case Return(e) => WellFormedExpr(e, scope)
    case Recover(e) => WellFormedExpr(e, scope)
    case Error(e) => WellFormedExpr(e, scope)
    case Trap => true
    case Break(_) => true
    case Continue(_) => true
  }

  predicate WellFormedArms(arms: Arms, scope: set<string>) {
    arms.Arm? ==> WellFormedExpr(arms.guard, scope) && WellFormed(arms.body, scope) && WellFormedArms(arms.rest, scope)
  }

  predicate WellFormed(ss: Stmts, scope: set<string>) {
    ss.Cons? ==> WellFormedStmt(ss.head, scope) && WellFormed(ss.tail, scope + Declares(ss.head))
  }

  function Declares(s: Stmt): set<string> {
    if s.Let? || s.Declare? then {s.x} else {}
  }

  function DeclaresAll(ss: Stmts): set<string> {
    match ss
    case Nil => {}
    case Cons(s, rest) => Declares(s) + DeclaresAll(rest)
  }

  // ----- the simulation -----

  /** The states agree, but for variables in `gone` and for the log of reads of `self`. */
  ghost predicate Same(gone: set<string>, st: State, st': State) {
    && st.trace == st'.trace
    && st.fields == st'.fields && st.sets == st'.sets
    && forall x: string :: x !in gone ==> (x in st.vars <==> x in st'.vars) && Read(st.vars, x) == Read(st'.vars, x)
  }

  /** Two runs that left the same way, in states that agree but for `gone`. */
  ghost predicate SameRun(gone: set<string>, scope: set<string>, r: Run, r': Run) {
    r.out == r'.out && Same(gone, r.st, r'.st) && r.st.vars.Keys <= scope
  }

  lemma ConstBoolSound(w: World, e: Expr, st: State, fuel: nat)
    requires ConstBool(e).Some? && CondFits(e)
    ensures Eval(w, e, st, fuel) == Value(Normal, Truth(ConstBool(e).value), st)
  {
    match e
    case Bool(_) =>
    case Group(i) => ConstBoolSound(w, i, st, fuel);
    case Const(init) => ConstBoolSound(w, init, START, fuel);
    case Not(i) => ConstBoolSound(w, i, st, fuel);
    case And(l, r) =>
      ConstBoolSound(w, l, st, fuel);
      ConstBoolSound(w, r, st, fuel);
    case Or(l, r) =>
      ConstBoolSound(w, l, st, fuel);
      ConstBoolSound(w, r, st, fuel);
    case Compare(c) => ConstFoldTheorem.ComparisonSound(c);
  }

  lemma {:induction false} PureSound(w: World, e: Expr, st: State, fuel: nat)
    requires IsPure(e)
    ensures
      var r := Eval(w, e, st, fuel);
      r.out == Normal && r.st == st.(selfUses := r.st.selfUses)
    decreases e
  {
    match e
    case Group(i) => PureSound(w, i, st, fuel);
    case Member(i, _) => PureSound(w, i, st, fuel);
    case AddressOf(i) => PureSound(w, i, st, fuel);
    case _ =>
  }

  /** A pruned pure expression is the expression. */
  lemma {:induction false} PurePruned(e: Expr)
    requires IsPure(e)
    ensures PruneExpr(e) == e
  {
    match e
    case Group(i) => PurePruned(i);
    case Member(i, _) => PurePruned(i);
    case AddressOf(i) => PurePruned(i);
    case _ =>
  }

  /** Closing a scope forgets what was declared in it, dropped or not. */
  lemma CloseSame(gone: set<string>, inner: set<string>, scope: set<string>, st0: State, st0': State, r: State, r': State)
    requires Same(gone, st0, st0') && st0.vars.Keys <= scope && gone <= scope
    requires inner !! scope && Same(gone + inner, r, r')
    ensures Same(gone, Close(st0.vars, r), Close(st0'.vars, r'))
    ensures Close(st0.vars, r).vars.Keys <= scope
  {
    var c, c' := Close(st0.vars, r), Close(st0'.vars, r');
    forall x: string | x !in gone
      ensures (x in c.vars <==> x in c'.vars) && Read(c.vars, x) == Read(c'.vars, x)
    {
      if x in inner {
        assert x !in st0.vars;
      } else {
        assert Read(r.vars, x) == Read(r'.vars, x);
      }
    }
  }
}
