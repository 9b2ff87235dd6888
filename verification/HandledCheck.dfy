/** A caught failure's message stays in its handler (src/check/handled.cpp).

    The message of a failure that a `catch` handles lives until the handler finishes.  The
    checker records on every local the depth of the innermost handler whose message it may
    view, and reports a view that would be returned, recovered or stored where it outlives
    its handler.  This file has the bodies it covers, its rules, and the rules as the checker
    runs them, on one table of bindings updated in place. */
module HandledCheck {
  import opened Wrappers

  /** `str`, and the products of it: tuples, arrays, structs, and `Error`, a code and a `str`. */
  datatype Ty = TInt | TStr | TProduct(parts: seq<Ty>)

  const ERROR := TProduct([TInt, TStr])

  datatype Expr =
    | Var(x: string)
    | Int
    | Str
    | Field(e: Expr, i: nat)                     // a field or element
    | Slice(e: Expr)                             // part of a text
    | Product(es: Exprs)                         // a tuple, array literal or construction
    | Choice(a: Expr, b: Expr)                   // `a if c else b`
    | Call(ty: Ty, args: Exprs)                  // returns a value of its own
    | Try(ty: Ty, args: Exprs)                   // may fail
    | Catch(node: nat, ty: Ty, operand: Expr, name: string, handler: Stmts)

  datatype Exprs = NoExprs | More(head: Expr, tail: Exprs)

  datatype Stmt =
    | Let(x: string, e: Expr)
    | Assign(x: string, path: seq<nat>, e: Expr) // `x.path = e`
    | ExprStmt(e: Expr)
    | If(thn: Stmts, els: Stmts)
    | Block(body: Stmts)
    | Recover(e: Expr)
    | Return(e: Expr)
    | Error(e: Expr)

  datatype Stmts = Nil | Cons(head: Stmt, tail: Stmts)

  predicate HoldsView(t: Ty) {
    match t
    case TInt => false
    case TStr => true
    case TProduct(parts) => exists i :: 0 <= i < |parts| && HoldsView(parts[i])
  }

  // ----- types, as checked before the views are -----

  type Types = map<string, Ty>

  function TypeOf(g: Types, e: Expr): Option<Ty>
    decreases e
  {
    match e
    case Var(x) => if x in g then Some(g[x]) else None
    case Int => Some(TInt)
    case Str => Some(TStr)
    case Field(i, k) =>
      var t := TypeOf(g, i);
      if t.Some? && t.value.TProduct? && k < |t.value.parts| then Some(t.value.parts[k]) else None
    case Slice(i) => if TypeOf(g, i) == Some(TStr) then Some(TStr) else None
    case Product(es) => var ts := TypesOf(g, es); if ts.Some? then Some(TProduct(ts.value)) else None
    case Choice(a, b) => if TypeOf(g, a) == TypeOf(g, b) then TypeOf(g, a) else None
    case Call(ty, args) => if TypesOf(g, args).Some? then Some(ty) else None
    case Try(ty, args) => if TypesOf(g, args).Some? then Some(ty) else None
    case Catch(_, ty, operand, name, handler) =>
      if TypeOf(g, operand) == Some(ty) && name !in g && StmtsTyped(g[name := ERROR], handler, Some(ty)) then Some(ty)
      else None
  }

  function TypesOf(g: Types, es: Exprs): Option<seq<Ty>>
    decreases es
  {
    match es
    case NoExprs => Some([])
    case More(e, rest) =>
      var t, ts := TypeOf(g, e), TypesOf(g, rest);
      if t.Some? && ts.Some? then Some([t.value] + ts.value) else None
  }

  /** The type of the part of `t` that `path` leads to. */
  function PartType(t: Ty, path: seq<nat>): Option<Ty>
    decreases |path|
  {
    if path == [] then Some(t)
    else if t.TProduct? && path[0] < |t.parts| then PartType(t.parts[path[0]], path[1..])
    else None
  }

  /** Well typed, with `caught` the type the enclosing handler recovers. */
  predicate StmtTyped(g: Types, s: Stmt, caught: Option<Ty>)
    decreases s, 0
  {
    match s
    case Let(x, e) => x !in g && TypeOf(g, e).Some?
    case Assign(x, path, e) => x in g && PartType(g[x], path).Some? && TypeOf(g, e) == PartType(g[x], path)
    case ExprStmt(e) => TypeOf(g, e).Some?
    case If(thn, els) => StmtsTyped(g, thn, caught) && StmtsTyped(g, els, caught)
    case Block(body) => StmtsTyped(g, body, caught)
    case Recover(e) => caught.Some? && TypeOf(g, e) == caught
    case Return(e) => TypeOf(g, e).Some?
    case Error(e) => TypeOf(g, e).Some?
  }

  function After(g: Types, s: Stmt): Types
    decreases s, 0
  {
    if s.Let? && TypeOf(g, s.e).Some? then g[s.x := TypeOf(g, s.e).value] else g
  }

  predicate StmtsTyped(g: Types, ss: Stmts, caught: Option<Ty>)
    decreases ss, 0
  {
    ss.Cons? ==> StmtTyped(g, ss.head, caught) && StmtsTyped(After(g, ss.head), ss.tail, caught)
  }

  // ----- the rules -----

  /** A local: its type, the depth of its scope, the deepest handler whose message it views. */
  datatype Binding = Binding(ty: Ty, depth: nat, handled: nat)

  /** The checker's tables: bindings in scope, what each `catch` recovered, nothing reported. */
  datatype Tables = Tables(binds: map<string, Binding>, recovered: seq<(nat, nat)>, ok: bool)

  /** Where a statement stands: its scope's depth, the `catch` around it and that handler's depth. */
  datatype Place = Place(depth: nat, catchNode: nat, catchDepth: nat)

  function TypesIn(t: Tables): Types { map x | x in t.binds :: t.binds[x].ty }

  /** The deepest view recorded for the `catch` expression `node`. */
  function Recovered(rs: seq<(nat, nat)>, node: nat): nat
    decreases |rs|
  {
    if rs == [] then 0
    else
      var last := rs[|rs| - 1];
      Max(if last.0 == node then last.1 else 0, Recovered(rs[..|rs| - 1], node))
  }

  /** `handled_view`: the depth of the handler whose message `e` views, 0 for none. */
  function View(t: Tables, e: Expr): nat {
    match e
    case Var(x) => if x in t.binds then t.binds[x].handled else 0
    case Field(i, _) => View(t, i)
    case Slice(i) => View(t, i)
    case Product(es) => ViewAll(t, es)
    case Choice(a, b) => Max(View(t, a), View(t, b))
    case Catch(node, _, operand, _, _) => Max(View(t, operand), Recovered(t.recovered, node))
    case _ => 0
  }

  function ViewAll(t: Tables, es: Exprs): nat {
    match es
    case NoExprs => 0
    case More(e, rest) => Max(View(t, e), ViewAll(t, rest))
  }

  /** `set_handled` */
  function Taint(t: Tables, x: string, view: nat): Tables {
    if x in t.binds then t.(binds := t.binds[x := t.binds[x].(handled := Max(t.binds[x].handled, view))]) else t
  }

  /** Bindings made since `outer` leave the table; the others keep what was recorded on them. */
  function Pop(outer: map<string, Binding>, t: Tables): Tables {
    t.(binds := map x | x in t.binds && x in outer :: t.binds[x])
  }

  function TypeIn(t: Tables, e: Expr): Ty {
    var ty := TypeOf(TypesIn(t), e);
    if ty.Some? then ty.value else TInt
  }

  function CheckExpr(t: Tables, e: Expr, p: Place): Tables
    decreases e
  {
    match e
    case Field(i, _) => CheckExpr(t, i, p)
    case Slice(i) => CheckExpr(t, i, p)
    case Product(es) => CheckExprs(t, es, p)
    case Choice(a, b) => CheckExpr(CheckExpr(t, a, p), b, p)
    case Call(_, args) => CheckExprs(t, args, p)
    case Try(_, args) => CheckExprs(t, args, p)
    case Catch(node, _, operand, name, handler) =>
      var t1 := CheckExpr(t, operand, p);
      var d := p.depth + 1;
      var t2 := t1.(binds := t1.binds[name := Binding(ERROR, d, d)]);
      Pop(t1.binds, CheckBlock(t2, handler, Place(d, node, d)))
    case _ => t
  }

  function CheckExprs(t: Tables, es: Exprs, p: Place): Tables
    decreases es
  {
    match es
    case NoExprs => t
    case More(e, rest) => CheckExprs(CheckExpr(t, e, p), rest, p)
  }

  /** The hooks of `check_stmt`: `let`, assignment, `recover` and `return`. */
  function CheckStmt(t: Tables, s: Stmt, p: Place): Tables
    decreases s, 0
  {
    match s
    case Let(x, e) =>
      var t1 := CheckExpr(t, e, p);
      var t2 := t1.(binds := t1.binds[x := Binding(TypeIn(t1, e), p.depth, 0)]);
      Taint(t2, x, View(t1, e))
    case Assign(x, _, e) =>
      var t1 := CheckExpr(t, e, p);
      var view := View(t1, e);
      if view == 0 || !HoldsView(TypeIn(t1, e)) then t1
      else if x in t1.binds && t1.binds[x].depth > view then Taint(t1, x, view)
      else t1.(ok := false)
    case ExprStmt(e) => CheckExpr(t, e, p)
    case If(thn, els) => CheckBlock(CheckBlock(t, thn, p), els, p)
    case Block(body) => CheckBlock(t, body, p)
    case Recover(e) => RecoverTables(CheckExpr(t, e, p), s, p)
    case Return(e) =>
      var t1 := CheckExpr(t, e, p);
      if View(t1, e) > 0 && HoldsView(TypeIn(t1, e)) then t1.(ok := false) else t1
    case Error(e) => CheckExpr(t, e, p)
  }

  /** `handled_recovered` */
  function RecoverTables(t1: Tables, s: Stmt, p: Place): Tables
    requires s.Recover?
  {
    var view := View(t1, s.e);
    if view == 0 || !HoldsView(TypeIn(t1, s.e)) then t1
    else if view < p.catchDepth then t1.(recovered := t1.recovered + [(p.catchNode, view)])
    else t1.(ok := false)
  }

  function CheckList(t: Tables, ss: Stmts, p: Place): Tables
    decreases ss, 0
  {
    match ss
    case Nil => t
    case Cons(s, rest) => CheckList(CheckStmt(t, s, p), rest, p)
  }

  function CheckBlock(t: Tables, ss: Stmts, p: Place): Tables
    decreases ss, 1
  {
    Pop(t.binds, CheckList(t, ss, p.(depth := p.depth + 1)))
  }

  /** What a body starts with: the module's globals at depth 0, its own parameters at depth 1. */
  function Initial(globals: Types, params: Types): Tables {
    var types := globals + params;
    Tables(map x | x in types :: Binding(types[x], if x in params then 1 else 0, 0), [], true)
  }

  predicate Accepts(globals: Types, params: Types, body: Stmts) {
    CheckBlock(Initial(globals, params), body, Place(1, 0, 0)).ok
  }

  predicate WellTyped(globals: Types, params: Types, body: Stmts) {
    StmtsTyped(globals + params, body, None)
  }
}
