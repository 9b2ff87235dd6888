/** What the rules for caught messages accept: every body whose names can be labelled with the
    depth of the handlers their values may view.

    A label is not looked up by the rules; it is any guess that respects how values pass from
    name to name.  An expression passes on the names it mentions, but for those in the
    arguments of a call: a call returns a value of its own. */
module HandledAccepts {
  import opened Wrappers
  import opened HandledCheck
  import opened HandledTheorem
  import HandledRuns

  // ----- what an expression passes on -----

  function Passes(e: Expr): set<string> {
    match e
    case Var(x) => {x}
    case Field(i, _) => Passes(i)
    case Slice(i) => Passes(i)
    case Product(es) => PassesAll(es)
    case Choice(a, b) => Passes(a) + Passes(b)
    case Catch(_, _, operand, _, _) => Passes(operand)
    case _ => {}
  }

  function PassesAll(es: Exprs): set<string> {
    match es
    case NoExprs => {}
    case More(e, rest) => Passes(e) + PassesAll(rest)
  }

  /** The `catch` expressions whose recovered value it passes on. */
  function PassesCaught(e: Expr): set<nat> {
    match e
    case Field(i, _) => PassesCaught(i)
    case Slice(i) => PassesCaught(i)
    case Product(es) => PassesCaughtAll(es)
    case Choice(a, b) => PassesCaught(a) + PassesCaught(b)
    case Catch(node, _, operand, _, _) => PassesCaught(operand) + {node}
    case _ => {}
  }

  function PassesCaughtAll(es: Exprs): set<nat> {
    match es
    case NoExprs => {}
    case More(e, rest) => PassesCaught(e) + PassesCaughtAll(rest)
  }

  // ----- labels -----

  /** How deep a handler the value of a name, and of a `catch` expression, may view. */
  datatype Labels = Labels(name: string -> nat, caught: nat -> nat)

  /** Nothing the expression passes on is labelled deeper than `k`. */
  predicate UpTo(l: Labels, e: Expr, k: nat) {
    && (forall x :: x in Passes(e) ==> l.name(x) <= k)
    && (forall n :: n in PassesCaught(e) ==> l.caught(n) <= k)
  }

  predicate HasText(g: Types, e: Expr) { TypeOf(g, e).Some? && HoldsView(TypeOf(g, e).value) }

  /** The depth of each name's scope. */
  type Depths = map<string, nat>

  predicate ExprLabelled(l: Labels, g: Types, ds: Depths, e: Expr, p: Place)
    decreases e
  {
    match e
    case Field(i, _) => ExprLabelled(l, g, ds, i, p)
    case Slice(i) => ExprLabelled(l, g, ds, i, p)
    case Product(es) => ExprsLabelled(l, g, ds, es, p)
    case Choice(a, b) => ExprLabelled(l, g, ds, a, p) && ExprLabelled(l, g, ds, b, p)
    case Call(_, args) => ExprsLabelled(l, g, ds, args, p)
    case Try(_, args) => ExprsLabelled(l, g, ds, args, p)
    case Catch(node, _, operand, name, handler) =>
      var d := p.depth + 1;
      && ExprLabelled(l, g, ds, operand, p) && d <= l.name(name)
      && BlockLabelled(l, g[name := ERROR], ds[name := d], handler, Place(d, node, d))
    case _ => true
  }

  predicate ExprsLabelled(l: Labels, g: Types, ds: Depths, es: Exprs, p: Place)
    decreases es
  {
    es.More? ==> ExprLabelled(l, g, ds, es.head, p) && ExprsLabelled(l, g, ds, es.tail, p)
  }

  /** A text is returned only when it views nothing, recovered only when it views outer handlers
      alone, and stored only in a name of a scope inside the handlers it views. */
  predicate StmtLabelled(l: Labels, g: Types, ds: Depths, s: Stmt, p: Place)
    decreases s, 0
  {
    match s
    case Let(x, e) => ExprLabelled(l, g, ds, e, p) && UpTo(l, e, l.name(x))
    case Assign(x, _, e) =>
      && ExprLabelled(l, g, ds, e, p)
      && (HasText(g, e) ==>
            || UpTo(l, e, 0)
            || (x in ds && ds[x] > 0 && UpTo(l, e, ds[x] - 1) && UpTo(l, e, l.name(x))))
    case ExprStmt(e) => ExprLabelled(l, g, ds, e, p)
    case If(thn, els) => BlockLabelled(l, g, ds, thn, p) && BlockLabelled(l, g, ds, els, p)
    case Block(body) => BlockLabelled(l, g, ds, body, p)
    case Recover(e) =>
      && ExprLabelled(l, g, ds, e, p)
      && (HasText(g, e) ==>
            || UpTo(l, e, 0)
            || (p.catchDepth > 0 && UpTo(l, e, p.catchDepth - 1) && UpTo(l, e, l.caught(p.catchNode))))
    case Return(e) => ExprLabelled(l, g, ds, e, p) && (HasText(g, e) ==> UpTo(l, e, 0))
    case Error(e) => ExprLabelled(l, g, ds, e, p)
  }

  predicate ListLabelled(l: Labels, g: Types, ds: Depths, ss: Stmts, p: Place)
    decreases ss, 0
  {
    ss.Cons? ==>
      && StmtLabelled(l, g, ds, ss.head, p)
      && ListLabelled(l, After(g, ss.head), if ss.head.Let? then ds[ss.head.x := p.depth] else ds, ss.tail, p)
  }

  predicate BlockLabelled(l: Labels, g: Types, ds: Depths, ss: Stmts, p: Place)
    decreases ss, 1
  {
    ListLabelled(l, g, ds, ss, p.(depth := p.depth + 1))
  }

  // ----- the tables stay within the labels -----

  ghost predicate Labelled(l: Labels, t: Tables, ds: Depths) {
    && t.ok && ds.Keys == t.binds.Keys
    && (forall x :: x in t.binds ==> t.binds[x].depth == ds[x] && t.binds[x].handled <= l.name(x))
    && (forall n: nat :: Recovered(t.recovered, n) <= l.caught(n))
  }

  lemma {:induction false} ViewUpTo(l: Labels, t: Tables, ds: Depths, e: Expr, k: nat)
    requires Labelled(l, t, ds) && UpTo(l, e, k)
    ensures View(t, e) <= k
    decreases e
  {
    match e
    case Field(i, _) => ViewUpTo(l, t, ds, i, k);
    case Slice(i) => ViewUpTo(l, t, ds, i, k);
    case Product(es) => ViewAllUpTo(l, t, ds, es, k);
    case Choice(a, b) =>
      ViewUpTo(l, t, ds, a, k);
      ViewUpTo(l, t, ds, b, k);
    case Catch(_, _, operand, _, _) => ViewUpTo(l, t, ds, operand, k);
    case _ =>
  }

  lemma {:induction false} ViewAllUpTo(l: Labels, t: Tables, ds: Depths, es: Exprs, k: nat)
    requires Labelled(l, t, ds)
    requires forall x :: x in PassesAll(es) ==> l.name(x) <= k
    requires forall n :: n in PassesCaughtAll(es) ==> l.caught(n) <= k
    ensures ViewAll(t, es) <= k
    decreases es
  {
    if es.More? {
      ViewUpTo(l, t, ds, es.head, k);
      ViewAllUpTo(l, t, ds, es.tail, k);
    }
  }

  lemma {:induction false} ExprKeepsLabels(l: Labels, t: Tables, ds: Depths, e: Expr, p: Place)
    requires Labelled(l, t, ds) && TypeOf(TypesIn(t), e).Some? && ExprLabelled(l, TypesIn(t), ds, e, p)
    ensures Labelled(l, CheckExpr(t, e, p), ds) && TypesIn(CheckExpr(t, e, p)) == TypesIn(t)
    decreases e, 1
  {
    ExprGrows(t, e, p);
    match e
    case Field(i, _) => ExprKeepsLabels(l, t, ds, i, p);
    case Slice(i) => ExprKeepsLabels(l, t, ds, i, p);
    case Product(es) => ExprsKeepLabels(l, t, ds, es, p);
    case Choice(a, b) =>
      ExprKeepsLabels(l, t, ds, a, p);
      ExprKeepsLabels(l, CheckExpr(t, a, p), ds, b, p);
    case Call(_, args) => ExprsKeepLabels(l, t, ds, args, p);
    case Try(_, args) => ExprsKeepLabels(l, t, ds, args, p);
    case Catch(_, _, _, _, _) => CatchKeepsLabels(l, t, ds, e, p);
    case _ =>
  }

  lemma {:induction false} ExprsKeepLabels(l: Labels, t: Tables, ds: Depths, es: Exprs, p: Place)
    requires Labelled(l, t, ds) && TypesOf(TypesIn(t), es).Some? && ExprsLabelled(l, TypesIn(t), ds, es, p)
    ensures Labelled(l, CheckExprs(t, es, p), ds) && TypesIn(CheckExprs(t, es, p)) == TypesIn(t)
    decreases es, 1
  {
    if es.More? {
      ExprKeepsLabels(l, t, ds, es.head, p);
      ExprsKeepLabels(l, CheckExpr(t, es.head, p), ds, es.tail, p);
    }
  }

  lemma {:induction false} CatchKeepsLabels(l: Labels, t: Tables, ds: Depths, e: Expr, p: Place)
    requires e.Catch? && Labelled(l, t, ds) && TypeOf(TypesIn(t), e).Some? && ExprLabelled(l, TypesIn(t), ds, e, p)
    ensures Labelled(l, CheckExpr(t, e, p), ds)
    decreases e, 0
  {
    hide CheckBlock, Recovered, BlockLabelled, StmtsTyped;
    ExprKeepsLabels(l, t, ds, e.operand, p);
    var t1 := CheckExpr(t, e.operand, p);
    var d := p.depth + 1;
    var b := Binding(ERROR, d, d);
    var t2 := t1.(binds := t1.binds[e.name := b]);
    assert TypesIn(t2) == TypesIn(t1)[e.name := ERROR];
    BlockKeepsLabels(l, t2, ds[e.name := d], e.handler, Place(d, e.node, d), Some(e.ty));
    PopKeepsLabels(l, t1, ds, e.name, d, CheckBlock(t2, e.handler, Place(d, e.node, d)));
  }

  lemma PopKeepsLabels(l: Labels, t1: Tables, ds: Depths, name: string, d: nat, t3: Tables)
    requires Labelled(l, t1, ds) && Labelled(l, t3, ds[name := d]) && name !in t1.binds
    ensures Labelled(l, Pop(t1.binds, t3), ds)
  {
  }

  lemma {:induction false} StmtKeepsLabels(l: Labels, t: Tables, ds: Depths, s: Stmt, p: Place, caught: Option<Ty>)
    requires Labelled(l, t, ds) && StmtTyped(TypesIn(t), s, caught) && StmtLabelled(l, TypesIn(t), ds, s, p)
    ensures Labelled(l, CheckStmt(t, s, p), if s.Let? then ds[s.x := p.depth] else ds)
    ensures TypesIn(CheckStmt(t, s, p)) == After(TypesIn(t), s)
    decreases s, 1
  {
    StmtGrows(t, s, p, caught);
    match s
    case Let(_, e) =>
      ExprKeepsLabels(l, t, ds, e, p);
      LetKeepsLabels(l, t, ds, s, p);
    case Assign(_, _, e) =>
      ExprKeepsLabels(l, t, ds, e, p);
      StoreKeepsLabels(l, t, ds, s, p);
    case ExprStmt(e) => ExprKeepsLabels(l, t, ds, e, p);
    case If(thn, els) =>
      BlockKeepsLabels(l, t, ds, thn, p, caught);
      BlockKeepsLabels(l, CheckBlock(t, thn, p), ds, els, p, caught);
    case Block(body) => BlockKeepsLabels(l, t, ds, body, p, caught);
    case Recover(e) =>
      ExprKeepsLabels(l, t, ds, e, p);
      RecoverKeepsLabels(l, CheckExpr(t, e, p), ds, s, p);
    case Return(e) =>
      ExprKeepsLabels(l, t, ds, e, p);
      if HasText(TypesIn(t), e) { ViewUpTo(l, CheckExpr(t, e, p), ds, e, 0); }
    case Error(e) => ExprKeepsLabels(l, t, ds, e, p);
  }

  lemma LetKeepsLabels(l: Labels, t: Tables, ds: Depths, s: Stmt, p: Place)
    requires s.Let? && UpTo(l, s.e, l.name(s.x)) && s.x !in t.binds
    requires Labelled(l, CheckExpr(t, s.e, p), ds) && t.binds.Keys == ds.Keys
    ensures Labelled(l, CheckStmt(t, s, p), ds[s.x := p.depth])
  {
    hide CheckExpr, View, UpTo, Recovered;
    ViewUpTo(l, CheckExpr(t, s.e, p), ds, s.e, l.name(s.x));
  }

  lemma StoreKeepsLabels(l: Labels, t: Tables, ds: Depths, s: Stmt, p: Place)
    requires s.Assign? && StmtTyped(TypesIn(t), s, None) && StmtLabelled(l, TypesIn(t), ds, s, p)
    requires Labelled(l, CheckExpr(t, s.e, p), ds) && TypesIn(CheckExpr(t, s.e, p)) == TypesIn(t)
    ensures Labelled(l, CheckStmt(t, s, p), ds)
  {
    hide CheckExpr, View, UpTo, Recovered, ExprLabelled, HoldsView;
    var t1 := CheckExpr(t, s.e, p);
    if HasText(TypesIn(t), s.e) {
      if UpTo(l, s.e, 0) {
        ViewUpTo(l, t1, ds, s.e, 0);
      } else {
        ViewUpTo(l, t1, ds, s.e, ds[s.x] - 1);
        ViewUpTo(l, t1, ds, s.e, l.name(s.x));
      }
    }
  }

  lemma RecoverKeepsLabels(l: Labels, t1: Tables, ds: Depths, s: Stmt, p: Place)
    requires s.Recover? && StmtLabelled(l, TypesIn(t1), ds, s, p) && TypeOf(TypesIn(t1), s.e).Some?
    requires Labelled(l, t1, ds)
    ensures Labelled(l, RecoverTables(t1, s, p), ds)
  {
    hide View, UpTo, ExprLabelled, HoldsView;
    if HasText(TypesIn(t1), s.e) {
      if UpTo(l, s.e, 0) {
        ViewUpTo(l, t1, ds, s.e, 0);
      } else {
        ViewUpTo(l, t1, ds, s.e, p.catchDepth - 1);
        ViewUpTo(l, t1, ds, s.e, l.caught(p.catchNode));
        var more := t1.recovered + [(p.catchNode, View(t1, s.e))];
        assert more[..|more| - 1] == t1.recovered;
      }
    }
  }

  lemma {:induction false} ListKeepsLabels(l: Labels, t: Tables, ds: Depths, ss: Stmts, p: Place, caught: Option<Ty>)
    returns (ds': Depths)
    requires Labelled(l, t, ds) && StmtsTyped(TypesIn(t), ss, caught) && ListLabelled(l, TypesIn(t), ds, ss, p)
    ensures Labelled(l, CheckList(t, ss, p), ds')
    decreases ss, 1
  {
    ds' := ds;
    if ss.Cons? {
      StmtKeepsLabels(l, t, ds, ss.head, p, caught);
      ds' := ListKeepsLabels(
        l, CheckStmt(t, ss.head, p), if ss.head.Let? then ds[ss.head.x := p.depth] else ds, ss.tail, p, caught);
    }
  }

  lemma {:induction false} BlockKeepsLabels(l: Labels, t: Tables, ds: Depths, ss: Stmts, p: Place, caught: Option<Ty>)
    requires Labelled(l, t, ds) && StmtsTyped(TypesIn(t), ss, caught) && BlockLabelled(l, TypesIn(t), ds, ss, p)
    ensures Labelled(l, CheckBlock(t, ss, p), ds) && TypesIn(CheckBlock(t, ss, p)) == TypesIn(t)
    decreases ss, 2
  {
    BlockGrows(t, ss, p, caught);
    var _ := ListKeepsLabels(l, t, ds, ss, p.(depth := p.depth + 1), caught);
  }

  // ----- acceptance -----

  /** Globals are at depth 0 and parameters at depth 1. */
  function InitialDepths(globals: Types, params: Types): Depths {
    map x | x in globals + params :: if x in params then 1 else 0
  }

  /** A well-typed body whose names and `catch` expressions can be labelled is accepted. */
  lemma LabelledAccepted(globals: Types, params: Types, body: Stmts, l: Labels)
    requires WellTyped(globals, params, body)
    requires BlockLabelled(l, globals + params, InitialDepths(globals, params), body, Place(1, 0, 0))
    ensures Accepts(globals, params, body)
  {
    var t := Initial(globals, params);
    assert TypesIn(t) == globals + params;
    BlockKeepsLabels(l, t, InitialDepths(globals, params), body, Place(1, 0, 0), None);
  }

  // ----- types that hold a text -----

  /** A type the rules look at can really hold a view. */
  lemma {:induction false} TextHolds(ty: Ty, m: nat) returns (v: HandledRuns.Value)
    requires HoldsView(ty)
    ensures HandledRuns.Conforms(v, ty) && HandledRuns.Sees(v, m)
    decreases ty
  {
    match ty
    case TStr => v := HandledRuns.VStr({m});
    case TProduct(parts) =>
      var k :| 0 <= k < |parts| && HoldsView(parts[k]);
      var part := TextHolds(parts[k], m);
      var vs := seq(|parts|, i requires 0 <= i < |parts| => if i == k then part else HandledRuns.Fresh(parts[i]));
      forall i | 0 <= i < |parts| ensures HandledRuns.Conforms(vs[i], parts[i]) {
        HandledRuns.FreshOk(parts[i], m);
      }
      v := HandledRuns.VProduct(vs);
      assert HandledRuns.Sees(vs[k], m);
  }

  // ----- inputs -----

  /** The message of the failure named `e`. */
  function Message(): Expr { Field(Var("e"), 1) }

  /** `f() catch e:` and the handler. */
  function Handled(handler: Stmts): Stmts {
    Cons(ExprStmt(Catch(0, TInt, Try(TInt, NoExprs), "e", handler)), Nil)
  }

  /** The failure is labelled with its handler's depth, everything else with 0. */
  function FailureOnly(): Labels { Labels((x: string) => if x == "e" then 3 else 0, (n: nat) => 0) }

  lemma MessageType(g: Types)
    requires "e" in g && g["e"] == ERROR
    ensures TypeOf(g, Message()) == Some(TStr)
  {
    assert TypeOf(g, Var("e")) == Some(ERROR) && ERROR.parts[1] == TStr;
  }

  /** A handler of one `return` is as that `return` is. */
  lemma ReturningHandler(e: Expr)
    requires TypeOf(map["e" := ERROR], e).Some?
    requires ExprLabelled(FailureOnly(), map["e" := ERROR], map["e" := 3], e, Place(4, 0, 3))
    requires HasText(map["e" := ERROR], e) ==> UpTo(FailureOnly(), e, 0)
    ensures Accepts(map[], map[], Handled(Cons(Return(e), Nil)))
  {
    hide TypeOf, UpTo, ExprLabelled;
    var body := Handled(Cons(Return(e), Nil));
    CatchTyped(e);
    CatchLabelled(e);
    var none: Types := map[];
    assert none + none == none && InitialDepths(none, none) == map[];
    LabelledAccepted(map[], map[], body, FailureOnly());
  }

  lemma CatchTyped(e: Expr)
    requires TypeOf(map["e" := ERROR], e).Some?
    ensures StmtsTyped(map[], Handled(Cons(Return(e), Nil)), None)
  {
    var g: Types := map[];
    var handler := Cons(Return(e), Nil);
    assert g["e" := ERROR] == map["e" := ERROR];
    assert StmtTyped(map["e" := ERROR], Return(e), Some(TInt));
    assert StmtsTyped(map["e" := ERROR], handler, Some(TInt));
    assert TypeOf(g, Try(TInt, NoExprs)) == Some(TInt);
    assert TypeOf(g, Handled(handler).head.e) == Some(TInt);
  }

  lemma CatchLabelled(e: Expr)
    requires ExprLabelled(FailureOnly(), map["e" := ERROR], map["e" := 3], e, Place(4, 0, 3))
    requires HasText(map["e" := ERROR], e) ==> UpTo(FailureOnly(), e, 0)
    ensures BlockLabelled(FailureOnly(), map[], map[], Handled(Cons(Return(e), Nil)), Place(1, 0, 0))
  {
    hide UpTo;
    var l, g, ds := FailureOnly(), map["e" := ERROR], map["e" := 3];
    var none: Types, nowhere: Depths := map[], map[];
    assert none["e" := ERROR] == g && nowhere["e" := 3] == ds;
    var handler := Cons(Return(e), Nil);
    assert StmtLabelled(l, g, ds, Return(e), Place(4, 0, 3));
    assert ListLabelled(l, g, ds, Nil, Place(4, 0, 3));
    assert ListLabelled(l, g, ds, handler, Place(4, 0, 3));
    assert BlockLabelled(l, g, ds, handler, Place(3, 0, 3));
    assert ExprLabelled(l, none, nowhere, Try(TInt, NoExprs), Place(2, 0, 0));
    var s := Handled(handler).head;
    assert ExprLabelled(l, none, nowhere, s.e, Place(2, 0, 0));
    assert StmtLabelled(l, none, nowhere, s, Place(2, 0, 0));
    assert ListLabelled(l, none, nowhere, Cons(s, Nil), Place(2, 0, 0));
  }

  /** `f() catch e: return copy(e.message)` is accepted. */
  lemma CopyAccepted()
    ensures Accepts(map[], map[], Handled(Cons(Return(Call(TStr, More(Message(), NoExprs))), Nil)))
  {
    var args := More(Message(), NoExprs);
    var g: Types := map["e" := ERROR];
    MessageType(g);
    assert TypesOf(g, NoExprs) == Some([]);
    assert TypesOf(g, args).Some?;
    assert ExprsLabelled(FailureOnly(), g, map["e" := 3], args, Place(4, 0, 3));
    ReturningHandler(Call(TStr, args));
  }

  /** `f() catch e: return e.code` is accepted: what leaves holds no text. */
  lemma CodeAccepted()
    ensures Accepts(map[], map[], Handled(Cons(Return(Field(Var("e"), 0)), Nil)))
  {
    var g: Types := map["e" := ERROR];
    assert TypeOf(g, Var("e")) == Some(ERROR) && ERROR.parts[0] == TInt;
    ReturningHandler(Field(Var("e"), 0));
  }
}
