/** What the rules for caught messages report does escape: a handler that returns its failure, or
    anything built of it without a call, is reported, and a run of it lets the finished handler's
    message be seen. */
module HandledEscapes {
  import opened Wrappers
  import opened HandledCheck
  import opened HandledRuns

  /** The failure named `e`, its message, a part of a text, a choice, and a product, built of these
      alone or beside literals. */
  predicate Bare(x: Expr) {
    match x
    case Var(name) => name == "e"
    case Field(i, k) => i == Var("e") && k == 1
    case Slice(i) => Bare(i)
    case Choice(a, b) => Bare(a) && Bare(b)
    case Product(es) => BareAmong(es)
    case _ => false
  }

  predicate Plain(x: Expr) { x.Int? || x.Str? }

  /** All are bare or literals, and some is bare. */
  predicate BareAmong(es: Exprs) {
    es.More? &&
    if Bare(es.head) then BareOrPlain(es.tail) else Plain(es.head) && BareAmong(es.tail)
  }

  predicate BareOrPlain(es: Exprs) { es.More? ==> (Bare(es.head) || Plain(es.head)) && BareOrPlain(es.tail) }

  // ----- running -----

  ghost predicate Shows(w: World, x: Expr, st: State, m: nat) {
    var r := Eval(w, x, st);
    r.out == Normal && Sees(r.v, m) && r.st.vars == st.vars && r.st.messages == st.messages
  }

  lemma FailureSeen(m: nat)
    ensures Sees(Failure(m), m) && Failure(m).parts[1] == VStr({m})
  {
    assert Sees(Failure(m).parts[1], m);
  }

  lemma {:induction false} BareShows(w: World, x: Expr, st: State, m: nat)
    requires Bare(x) && "e" in st.vars && st.vars["e"] == Failure(m)
    ensures Shows(w, x, st, m)
    decreases x
  {
    FailureSeen(m);
    match x
    case Var(_) =>
    case Field(i, _) => assert Eval(w, i, st) == EvalR(Normal, Failure(m), st);
    case Slice(i) => BareShows(w, i, st, m);
    case Choice(a, b) => BareShows(w, if w(st.asked) then a else b, Ask(st), m);
    case Product(es) => AmongShow(w, es, st, m);
  }

  lemma {:induction false} AmongShow(w: World, es: Exprs, st: State, m: nat)
    requires (BareOrPlain(es) || BareAmong(es)) && "e" in st.vars && st.vars["e"] == Failure(m)
    ensures
      var r := EvalAll(w, es, st);
      && r.out == Normal && r.st.vars == st.vars && r.st.messages == st.messages
      && (BareAmong(es) ==> exists i :: 0 <= i < |r.vs| && Sees(r.vs[i], m))
    decreases es
  {
    if es.More? {
      if Bare(es.head) { BareShows(w, es.head, st, m); }
      var a := Eval(w, es.head, st);
      AmongShow(w, es.tail, a.st, m);
      var rest, all := EvalAll(w, es.tail, a.st).vs, EvalAll(w, es, st).vs;
      assert all == [a.v] + rest;
      if Bare(es.head) {
        assert Sees(all[0], m);
      } else if BareAmong(es.tail) {
        var i :| 0 <= i < |rest| && Sees(rest[i], m);
        assert all[i + 1] == rest[i];
      }
    }
  }

  // ----- checking -----

  lemma {:induction false} BareViews(t: Tables, x: Expr)
    requires Bare(x) && "e" in t.binds && t.binds["e"].handled > 0
    ensures View(t, x) > 0
    decreases x
  {
    match x
    case Var(_) =>
    case Field(i, _) => BareViews(t, i);
    case Slice(i) => BareViews(t, i);
    case Choice(a, _) => BareViews(t, a);
    case Product(es) => AmongViews(t, es);
  }

  lemma {:induction false} AmongViews(t: Tables, es: Exprs)
    requires BareAmong(es) && "e" in t.binds && t.binds["e"].handled > 0
    ensures ViewAll(t, es) > 0
    decreases es
  {
    if Bare(es.head) { BareViews(t, es.head); } else { AmongViews(t, es.tail); }
  }

  lemma {:induction false} BareIsText(g: Types, x: Expr)
    requires Bare(x) && "e" in g && g["e"] == ERROR && TypeOf(g, x).Some?
    ensures HoldsView(TypeOf(g, x).value)
    decreases x
  {
    assert HoldsView(ERROR.parts[1]);
    match x
    case Var(_) =>
    case Field(i, _) => assert TypeOf(g, i) == Some(ERROR);
    case Slice(_) =>
    case Choice(a, _) => BareIsText(g, a);
    case Product(es) => AmongIsText(g, es);
  }

  lemma {:induction false} AmongIsText(g: Types, es: Exprs)
    requires BareAmong(es) && "e" in g && g["e"] == ERROR && TypesOf(g, es).Some?
    ensures exists i :: 0 <= i < |TypesOf(g, es).value| && HoldsView(TypesOf(g, es).value[i])
    decreases es
  {
    var ts := TypesOf(g, es).value;
    if Bare(es.head) {
      BareIsText(g, es.head);
      assert HoldsView(ts[0]);
    } else {
      AmongIsText(g, es.tail);
      var i :| 0 <= i < |TypesOf(g, es.tail).value| && HoldsView(TypesOf(g, es.tail).value[i]);
      assert ts[i + 1] == TypesOf(g, es.tail).value[i];
    }
  }

  lemma {:induction false} BareUnchecked(t: Tables, x: Expr, p: Place)
    requires Bare(x) || Plain(x)
    ensures CheckExpr(t, x, p) == t
    decreases x
  {
    match x
    case Field(i, _) => BareUnchecked(t, i, p);
    case Slice(i) => BareUnchecked(t, i, p);
    case Choice(a, b) => BareUnchecked(t, a, p); BareUnchecked(t, b, p);
    case Product(es) => AmongUnchecked(t, es, p);
    case _ =>
  }

  lemma {:induction false} AmongUnchecked(t: Tables, es: Exprs, p: Place)
    requires BareOrPlain(es) || BareAmong(es)
    ensures CheckExprs(t, es, p) == t
    decreases es
  {
    if es.More? {
      BareUnchecked(t, es.head, p);
      AmongUnchecked(t, es.tail, p);
    }
  }

  // ----- together -----

  /** `f() catch e: return x` */
  function Returning(x: Expr): Stmts {
    Cons(ExprStmt(Catch(0, TInt, Try(TInt, NoExprs), "e", Cons(Return(x), Nil))), Nil)
  }

  /** The handler is checked at depth 3 with its failure in the tables. */
  lemma HandlerReported(t: Tables, x: Expr, q: Place)
    requires Bare(x) && "e" in t.binds && t.binds["e"] == Binding(ERROR, 3, 3) && TypeOf(TypesIn(t), x).Some?
    ensures !CheckList(t, Cons(Return(x), Nil), q).ok
  {
    hide View, TypeOf, HoldsView, CheckExpr, TypesIn;
    BareUnchecked(t, x, q);
    BareViews(t, x);
    assert TypesIn(t)["e"] == ERROR by { ErrorBound(t); }
    BareIsText(TypesIn(t), x);
    var t1 := CheckStmt(t, Return(x), q);
    assert CheckList(t, Cons(Return(x), Nil), q) == CheckList(t1, Nil, q) == t1;
  }

  lemma ErrorBound(t: Tables)
    requires "e" in t.binds && t.binds["e"].ty == ERROR
    ensures "e" in TypesIn(t) && TypesIn(t)["e"] == ERROR
  {
  }

  lemma ReturnReported(x: Expr)
    requires Bare(x) && TypeOf(map["e" := ERROR], x).Some?
    ensures !Accepts(map[], map[], Returning(x))
  {
    hide View, TypeOf, HoldsView, Bare;
    var none: Types := map[];
    var t := Initial(none, none);
    assert none + none == none && t.binds == map[];
    CatchReported(t, x);
    hide CheckExpr;
    var s := CheckStmt(t, Returning(x).head, Place(2, 0, 0));
    assert CheckList(t, Returning(x), Place(2, 0, 0)) == CheckList(s, Nil, Place(2, 0, 0)) == s;
  }

  lemma CatchReported(t: Tables, x: Expr)
    requires Bare(x) && TypeOf(map["e" := ERROR], x).Some? && t.binds == map[]
    ensures !CheckExpr(t, Returning(x).head.e, Place(2, 0, 0)).ok
  {
    hide View, TypeOf, HoldsView, Bare;
    var t2 := t.(binds := t.binds["e" := Binding(ERROR, 3, 3)]);
    assert TypesIn(t2) == map["e" := ERROR];
    HandlerReported(t2, x, Place(4, 0, 3));
    assert CheckExpr(t, Try(TInt, NoExprs), Place(2, 0, 0)) == t;
  }

  lemma ReturnEscapes(w: World, globals: Types, params: Types, x: Expr)
    requires Bare(x) && w(0)
    ensures RunBody(w, globals, params, Returning(x)).st.escaped
  {
    var types := globals + params;
    var st := State(map y | y in types :: Fresh(types[y]), 0, 0, false);
    HandlerEscapes(w, st, x);
    assert RunBody(w, globals, params, Returning(x)) == ExecBlock(w, Returning(x), st);
  }

  lemma HandlerEscapes(w: World, st: State, x: Expr)
    requires Bare(x) && w(st.asked)
    ensures ExecBlock(w, Returning(x), st).st.escaped
  {
    hide Bare, Fresh;
    var failed, m := Ask(st), st.messages;
    var inside := failed.(messages := m + 1, vars := failed.vars["e" := Failure(m)]);
    var handler := Cons(Return(x), Nil);
    var caught := Catch(0, TInt, Try(TInt, NoExprs), "e", handler);
    BareShows(w, x, inside, m);
    var r := Exec(w, Return(x), inside);
    assert ExecList(w, handler, inside) == r;
    var h := ExecBlock(w, handler, inside);
    assert h.out == r.out && OutSees(h.out, m);
    assert Eval(w, Try(TInt, NoExprs), st) == EvalR(Failing, Fresh(TInt), failed);
    assert Eval(w, caught, st).st.escaped;
    var e := Exec(w, ExprStmt(caught), st);
    assert e.out == h.out && e.st.escaped;
    assert ExecList(w, Returning(x), st) == e;
  }

  /** Such a `return` is reported, and rightly. */
  lemma BareViewsEscape(x: Expr)
    requires Bare(x) && TypeOf(map["e" := ERROR], x).Some?
    ensures !Accepts(map[], map[], Returning(x))
    ensures exists w: World :: RunBody(w, map[], map[], Returning(x)).st.escaped
  {
    hide Bare, TypeOf, Accepts, RunBody, Returning;
    ReturnReported(x);
    var w: World := (_: nat) => true;
    ReturnEscapes(w, map[], map[], x);
  }
}
