/** If the checker reports nothing, no run lets a view of a caught message outlive its handler. */
module HandledTheorem {
  import opened Wrappers
  import opened HandledCheck
  import opened HandledRuns

  // ----- checking only ever records more -----

  /** `t'` has the same bindings, with at least as much recorded. */
  ghost predicate Grows(t: Tables, t': Tables) {
    && t'.binds.Keys == t.binds.Keys
    && Keeps(t, t')
  }

  /** `t'` still has every binding of `t`, with at least as much recorded. */
  ghost predicate Keeps(t: Tables, t': Tables) {
    && t.binds.Keys <= t'.binds.Keys
    && (forall x :: x in t.binds ==>
          && t'.binds[x].ty == t.binds[x].ty
          && t'.binds[x].depth == t.binds[x].depth
          && t.binds[x].handled <= t'.binds[x].handled)
    && t.recovered <= t'.recovered
    && (t'.ok ==> t.ok)
  }

  lemma {:induction false} RecoveredGrows(rs: seq<(nat, nat)>, rs': seq<(nat, nat)>, node: nat)
    requires rs <= rs'
    ensures Recovered(rs, node) <= Recovered(rs', node)
    decreases |rs'|
  {
    if rs == rs' {
    } else {
      var front := rs'[..|rs'| - 1];
      assert rs <= front;
      RecoveredGrows(rs, front, node);
    }
  }

  lemma {:induction false} ViewGrows(t: Tables, t': Tables, e: Expr)
    requires Keeps(t, t')
    ensures View(t, e) <= View(t', e)
    decreases e
  {
    match e
    case Field(i, _) => ViewGrows(t, t', i);
    case Slice(i) => ViewGrows(t, t', i);
    case Product(es) => ViewAllGrows(t, t', es);
    case Choice(a, b) =>
      ViewGrows(t, t', a);
      ViewGrows(t, t', b);
    case Catch(node, _, operand, _, _) =>
      ViewGrows(t, t', operand);
      RecoveredGrows(t.recovered, t'.recovered, node);
    case _ =>
  }

  lemma {:induction false} ViewAllGrows(t: Tables, t': Tables, es: Exprs)
    requires Keeps(t, t')
    ensures ViewAll(t, es) <= ViewAll(t', es)
    decreases es
  {
    if es.More? {
      ViewGrows(t, t', es.head);
      ViewAllGrows(t, t', es.tail);
    }
  }

  lemma SameTypes(t: Tables, t': Tables)
    requires Grows(t, t')
    ensures TypesIn(t') == TypesIn(t)
  {
  }

  lemma {:induction false} ExprGrows(t: Tables, e: Expr, p: Place)
    requires TypeOf(TypesIn(t), e).Some?
    ensures Grows(t, CheckExpr(t, e, p)) && TypesIn(CheckExpr(t, e, p)) == TypesIn(t)
    decreases e, 1
  {
    match e
    case Field(i, _) => ExprGrows(t, i, p);
    case Slice(i) => ExprGrows(t, i, p);
    case Product(es) => ExprsGrow(t, es, p);
    case Choice(a, b) =>
      ExprGrows(t, a, p);
      ExprGrows(CheckExpr(t, a, p), b, p);
    case Call(_, args) => ExprsGrow(t, args, p);
    case Try(_, args) => ExprsGrow(t, args, p);
    case Catch(_, _, _, _, _) => CatchGrows(t, e, p);
    case _ =>
  }

  lemma {:induction false} CatchGrows(t: Tables, e: Expr, p: Place)
    requires e.Catch? && TypeOf(TypesIn(t), e).Some?
    ensures Grows(t, CheckExpr(t, e, p)) && TypesIn(CheckExpr(t, e, p)) == TypesIn(t)
    decreases e, 0
  {
    ExprGrows(t, e.operand, p);
    var t1 := CheckExpr(t, e.operand, p);
    var d := p.depth + 1;
    var t2 := t1.(binds := t1.binds[e.name := Binding(ERROR, d, d)]);
    assert TypesIn(t2) == TypesIn(t1)[e.name := ERROR];
    BlockGrows(t2, e.handler, Place(d, e.node, d), Some(e.ty));
    SameTypes(t1, CheckExpr(t, e, p));
  }

  lemma {:induction false} ExprsGrow(t: Tables, es: Exprs, p: Place)
    requires TypesOf(TypesIn(t), es).Some?
    ensures Grows(t, CheckExprs(t, es, p)) && TypesIn(CheckExprs(t, es, p)) == TypesIn(t)
    decreases es, 1
  {
    if es.More? {
      ExprGrows(t, es.head, p);
      ExprsGrow(CheckExpr(t, es.head, p), es.tail, p);
    }
  }

  lemma {:induction false} StmtGrows(t: Tables, s: Stmt, p: Place, caught: Option<Ty>)
    requires StmtTyped(TypesIn(t), s, caught)
    ensures Keeps(t, CheckStmt(t, s, p)) && TypesIn(CheckStmt(t, s, p)) == After(TypesIn(t), s)
    ensures !s.Let? ==> Grows(t, CheckStmt(t, s, p))
    decreases s, 1
  {
    match s
    case Let(_, e) =>
      ExprGrows(t, e, p);
      LetGrows(t, s, p);
    case Assign(_, _, e) =>
      ExprGrows(t, e, p);
      StoreGrows(t, s, p);
    case ExprStmt(e) => ExprGrows(t, e, p);
    case If(thn, els) =>
      BlockGrows(t, thn, p, caught);
      BlockGrows(CheckBlock(t, thn, p), els, p, caught);
    case Block(body) => BlockGrows(t, body, p, caught);
    case Recover(e) => ExprGrows(t, e, p);
    case Return(e) => ExprGrows(t, e, p);
    case Error(e) => ExprGrows(t, e, p);
  }

  lemma LetGrows(t: Tables, s: Stmt, p: Place)
    requires s.Let? && StmtTyped(TypesIn(t), s, None)
    requires Grows(t, CheckExpr(t, s.e, p)) && TypesIn(CheckExpr(t, s.e, p)) == TypesIn(t)
    ensures Keeps(t, CheckStmt(t, s, p)) && TypesIn(CheckStmt(t, s, p)) == After(TypesIn(t), s)
  {
    hide CheckExpr, View;
    assert TypesIn(CheckStmt(t, s, p)) == After(TypesIn(t), s);
  }

  lemma StoreGrows(t: Tables, s: Stmt, p: Place)
    requires s.Assign?
    requires Grows(t, CheckExpr(t, s.e, p)) && TypesIn(CheckExpr(t, s.e, p)) == TypesIn(t)
    ensures Grows(t, CheckStmt(t, s, p)) && Keeps(t, CheckStmt(t, s, p)) && TypesIn(CheckStmt(t, s, p)) == TypesIn(t)
  {
    hide CheckExpr, View;
    assert TypesIn(CheckStmt(t, s, p)) == TypesIn(t);
  }

  lemma {:induction false} ListGrows(t: Tables, ss: Stmts, p: Place, caught: Option<Ty>)
    requires StmtsTyped(TypesIn(t), ss, caught)
    ensures Keeps(t, CheckList(t, ss, p))
    decreases ss, 1
  {
    if ss.Cons? {
      StmtGrows(t, ss.head, p, caught);
      ListGrows(CheckStmt(t, ss.head, p), ss.tail, p, caught);
    }
  }

  lemma {:induction false} BlockGrows(t: Tables, ss: Stmts, p: Place, caught: Option<Ty>)
    requires StmtsTyped(TypesIn(t), ss, caught)
    ensures Grows(t, CheckBlock(t, ss, p)) && TypesIn(CheckBlock(t, ss, p)) == TypesIn(t)
    decreases ss, 2
  {
    ListGrows(t, ss, p.(depth := p.depth + 1), caught);
    SameTypes(t, CheckBlock(t, ss, p));
  }

  // ----- what the tables say about a running state -----

  /** The messages of the handlers now running, by the depth of their handler. */
  type Active = map<nat, nat>

  /** Message `m` belongs to a running handler of depth at most `k`. */
  ghost predicate Reach(h: Active, k: nat, m: nat) {
    exists d :: d in h && d <= k && h[d] == m
  }

  /** `v` views only messages of running handlers of depth at most `k`. */
  ghost predicate Within(h: Active, k: nat, v: Value) {
    forall m: nat :: Sees(v, m) ==> Reach(h, k, m)
  }

  /** The variables in `names` hold what the tables record of them. */
  ghost predicate Recorded(t: Tables, h: Active, st: State, names: set<string>) {
    && names <= t.binds.Keys
    && names <= st.vars.Keys
    && forall x :: x in names ==>
         && Conforms(st.vars[x], t.binds[x].ty)
         && Within(h, t.binds[x].handled, st.vars[x])
         && Within(h, t.binds[x].depth, st.vars[x])
  }

  /** Handlers run at depths 1 to `depth`, their messages exist, and nothing has escaped. */
  ghost predicate Live(h: Active, depth: nat, st: State) {
    && (forall d :: d in h ==> 1 <= d <= depth && h[d] < st.messages)
    && !st.escaped
  }

  ghost predicate Inv(t: Tables, h: Active, depth: nat, st: State) {
    && Live(h, depth, st)
    && st.vars.Keys == t.binds.Keys
    && (forall x :: x in t.binds ==> t.binds[x].depth <= depth)
    && Recorded(t, h, st, t.binds.Keys)
  }

  lemma WithinMore(h: Active, k: nat, k': nat, v: Value)
    requires Within(h, k, v) && k <= k'
    ensures Within(h, k', v)
  {
    forall m: nat | Sees(v, m) ensures Reach(h, k', m) {
      assert Reach(h, k, m);
    }
  }

  lemma RecordedMore(t: Tables, t': Tables, h: Active, st: State, names: set<string>)
    requires Recorded(t, h, st, names) && Keeps(t, t')
    ensures Recorded(t', h, st, names)
  {
    forall x | x in names
      ensures Conforms(st.vars[x], t'.binds[x].ty) && Within(h, t'.binds[x].handled, st.vars[x])
              && Within(h, t'.binds[x].depth, st.vars[x])
    {
      WithinMore(h, t.binds[x].handled, t'.binds[x].handled, st.vars[x]);
    }
  }

  /** Every view is of a handler now running, so of depth at most the current one. */
  lemma WithinDepth(h: Active, k: nat, depth: nat, st: State, v: Value)
    requires Live(h, depth, st) && Within(h, k, v)
    ensures Within(h, depth, v)
  {
    forall m: nat | Sees(v, m) ensures Reach(h, depth, m) {
      assert Reach(h, k, m);
    }
  }

  lemma NothingAtDepthZero(h: Active, depth: nat, st: State, v: Value)
    requires Live(h, depth, st) && Within(h, 0, v)
    ensures forall m: nat :: !Sees(v, m)
  {
    forall m: nat ensures !Sees(v, m) {
      assert !Reach(h, 0, m);
    }
  }

  /** What may be in flight: a returned value views nothing, a recovered one nothing of the
      handler it leaves, and no more than was recorded for the `catch`. */
  ghost predicate OutOk(t: Tables, h: Active, p: Place, o: Outcome) {
    match o
    case Returning(v) => forall m: nat :: !Sees(v, m)
    case Recovering(v) => Within(h - {p.catchDepth}, Recovered(t.recovered, p.catchNode), v)
    case _ => true
  }

  lemma OutOkMore(t: Tables, t': Tables, h: Active, p: Place, o: Outcome)
    requires Keeps(t, t') && OutOk(t, h, p, o)
    ensures OutOk(t', h, p, o)
  {
    if o.Recovering? {
      RecoveredGrows(t.recovered, t'.recovered, p.catchNode);
      WithinMore(h - {p.catchDepth}, Recovered(t.recovered, p.catchNode), Recovered(t'.recovered, p.catchNode), o.v);
    }
  }

  lemma InvMore(t: Tables, t': Tables, h: Active, depth: nat, st: State)
    requires Inv(t, h, depth, st) && Grows(t, t')
    ensures Inv(t', h, depth, st)
  {
    RecordedMore(t, t', h, st, t.binds.Keys);
  }

  // ----- soundness -----

  /** What checking and running an expression come to, together. */
  ghost predicate ExprOk(w: World, t: Tables, e: Expr, p: Place, h: Active, st: State)
    requires TypeOf(TypesIn(t), e).Some?
  {
    var t', r := CheckExpr(t, e, p), Eval(w, e, st);
    && Inv(t', h, p.depth, r.st)
    && !r.out.Recovering?
    && (r.out.Returning? ==> forall m: nat :: !Sees(r.out.v, m))
    && (r.out == Normal ==> Conforms(r.v, TypeOf(TypesIn(t), e).value) && Within(h, View(t', e), r.v))
  }

  lemma {:induction false} SoundExpr(w: World, t: Tables, e: Expr, p: Place, h: Active, st: State)
    requires Inv(t, h, p.depth, st) && TypeOf(TypesIn(t), e).Some? && CheckExpr(t, e, p).ok
    ensures ExprOk(w, t, e, p, h, st)
    decreases e, 2
  {
    ExprGrows(t, e, p);
    match e
    case Var(_) =>
    case Int =>
    case Str =>
    case Field(_, _) => SoundField(w, t, e, p, h, st);
    case Slice(i) => SoundExpr(w, t, i, p, h, st);
    case Product(es) =>
      SoundExprs(w, t, es, p, h, st);
      assert EvalAll(w, es, st).out == Normal ==> Eval(w, e, st).v == VProduct(EvalAll(w, es, st).vs);
    case Choice(a, b) => SoundChoice(w, t, e, p, h, st);
    case Call(ty, args) =>
      SoundExprs(w, t, args, p, h, st);
      FreshWithin(ty, h, 0);
    case Try(ty, args) =>
      SoundExprs(w, t, args, p, h, st);
      FreshWithin(ty, h, 0);
    case Catch(_, _, _, _, _) => SoundCatch(w, t, e, p, h, st);
  }

  lemma FreshWithin(ty: Ty, h: Active, k: nat)
    ensures Conforms(Fresh(ty), ty) && Within(h, k, Fresh(ty)) && forall m: nat :: !Sees(Fresh(ty), m)
  {
    FreshOk(ty, 0);
    forall m: nat ensures !Sees(Fresh(ty), m) { FreshOk(ty, m); }
  }

  lemma {:induction false} SoundField(w: World, t: Tables, e: Expr, p: Place, h: Active, st: State)
    requires e.Field? && Inv(t, h, p.depth, st) && TypeOf(TypesIn(t), e).Some? && CheckExpr(t, e, p).ok
    ensures ExprOk(w, t, e, p, h, st)
    decreases e, 1
  {
    SoundExpr(w, t, e.e, p, h, st);
    var a := Eval(w, e.e, st);
    if a.out == Normal {
      assert forall m: nat :: Sees(a.v.parts[e.i], m) ==> Sees(a.v, m);
    }
  }

  lemma {:induction false} SoundChoice(w: World, t: Tables, e: Expr, p: Place, h: Active, st: State)
    requires e.Choice? && Inv(t, h, p.depth, st) && TypeOf(TypesIn(t), e).Some? && CheckExpr(t, e, p).ok
    ensures ExprOk(w, t, e, p, h, st)
    decreases e, 0
  {
    var t1 := CheckExpr(t, e.a, p);
    var t2 := CheckExpr(t1, e.b, p);
    ExprGrows(t, e.a, p);
    ExprGrows(t1, e.b, p);
    if w(st.asked) {
      SoundExpr(w, t, e.a, p, h, Ask(st));
      var r := Eval(w, e.a, Ask(st));
      InvMore(t1, t2, h, p.depth, r.st);
      ViewGrows(t1, t2, e.a);
      if r.out == Normal {
        WithinMore(h, View(t1, e.a), View(t2, e), r.v);
      }
    } else {
      InvMore(t, t1, h, p.depth, Ask(st));
      SoundExpr(w, t1, e.b, p, h, Ask(st));
      var r := Eval(w, e.b, Ask(st));
      if r.out == Normal {
        WithinMore(h, View(t2, e.b), View(t2, e), r.v);
      }
    }
  }

  lemma {:induction false} SoundExprs(w: World, t: Tables, es: Exprs, p: Place, h: Active, st: State)
    requires Inv(t, h, p.depth, st) && TypesOf(TypesIn(t), es).Some? && CheckExprs(t, es, p).ok
    ensures
      var t', r := CheckExprs(t, es, p), EvalAll(w, es, st);
      && Inv(t', h, p.depth, r.st)
      && !r.out.Recovering?
      && (r.out.Returning? ==> forall m: nat :: !Sees(r.out.v, m))
      && (r.out == Normal ==>
            && Conforms(VProduct(r.vs), TProduct(TypesOf(TypesIn(t), es).value))
            && Within(h, ViewAll(t', es), VProduct(r.vs)))
    decreases es, 1
  {
    if es.More? {
      var t1 := CheckExpr(t, es.head, p);
      var t' := CheckExprs(t, es, p);
      ExprGrows(t, es.head, p);
      ExprsGrow(t1, es.tail, p);
      SoundExpr(w, t, es.head, p, h, st);
      var a := Eval(w, es.head, st);
      if a.out == Normal {
        SoundExprs(w, t1, es.tail, p, h, a.st);
        var r := EvalAll(w, es.tail, a.st);
        if r.out == Normal {
          ViewGrows(t1, t', es.head);
          WithinMore(h, View(t1, es.head), ViewAll(t', es), a.v);
          WithinMore(h, ViewAll(t', es.tail), ViewAll(t', es), VProduct(r.vs));
          PairUp(h, ViewAll(t', es), a.v, r.vs);
        }
      } else {
        InvMore(t1, t', h, p.depth, a.st);
      }
    }
  }

  lemma PairUp(h: Active, k: nat, v: Value, vs: seq<Value>)
    requires Within(h, k, v) && Within(h, k, VProduct(vs))
    ensures Within(h, k, VProduct([v] + vs))
  {
    forall m: nat | Sees(VProduct([v] + vs), m) ensures Reach(h, k, m) {
      var i :| 0 <= i < |[v] + vs| && Sees(([v] + vs)[i], m);
      if i > 0 {
        assert Sees(vs[i - 1], m);
        assert Sees(VProduct(vs), m);
      }
    }
  }

  lemma PopGrows(t1: Tables, name: string, b: Binding, t3: Tables)
    requires name !in t1.binds && Grows(t1.(binds := t1.binds[name := b]), t3)
    ensures Grows(t1, Pop(t1.binds, t3))
  {
  }

  lemma {:induction false} SoundCatch(w: World, t: Tables, e: Expr, p: Place, h: Active, st: State)
    requires e.Catch? && Inv(t, h, p.depth, st) && TypeOf(TypesIn(t), e).Some? && CheckExpr(t, e, p).ok
    ensures ExprOk(w, t, e, p, h, st)
    decreases e, 1
  {
    hide Inv, Within, Conforms, CheckBlock, ExecBlock, Finish, Close, View, Grows;
    var t1, t4 := CheckExpr(t, e.operand, p), CheckExpr(t, e, p);
    CatchTables(t, e, p);
    SoundExpr(w, t, e.operand, p, h, st);
    var a := Eval(w, e.operand, st);
    if a.out != Failing {
      InvMore(t1, t4, h, p.depth, a.st);
      if a.out == Normal {
        WithinMore(h, View(t1, e.operand), View(t4, e), a.v);
      }
    } else {
      SoundHandler(w, t1, e, p, h, a.st);
    }
  }

  lemma {:induction false} CatchTables(t: Tables, e: Expr, p: Place)
    requires e.Catch? && TypeOf(TypesIn(t), e).Some? && CheckExpr(t, e, p).ok
    ensures
      var t1, t4 := CheckExpr(t, e.operand, p), CheckExpr(t, e, p);
      && t1.ok && TypesIn(t1) == TypesIn(t) && Grows(t1, t4) && View(t1, e.operand) <= View(t4, e)
    decreases e, 0
  {
    hide CheckBlock;
    var d := p.depth + 1;
    var t1, t4 := CheckExpr(t, e.operand, p), CheckExpr(t, e, p);
    var t2 := t1.(binds := t1.binds[e.name := Binding(ERROR, d, d)]);
    ExprGrows(t, e.operand, p);
    assert TypesIn(t2) == TypesIn(t1)[e.name := ERROR];
    BlockGrows(t2, e.handler, Place(d, e.node, d), Some(e.ty));
    PopGrows(t1, e.name, Binding(ERROR, d, d), CheckBlock(t2, e.handler, Place(d, e.node, d)));
    ViewGrows(t1, t4, e.operand);
  }

  /** The handler, once the operand has failed in state `st` with tables `t1`. */
  lemma {:induction false} SoundHandler(w: World, t1: Tables, e: Expr, p: Place, h: Active, st: State)
    requires e.Catch? && Inv(t1, h, p.depth, st) && e.name !in t1.binds
    requires StmtsTyped(TypesIn(t1)[e.name := ERROR], e.handler, Some(e.ty))
    requires
      var d := p.depth + 1;
      CheckBlock(t1.(binds := t1.binds[e.name := Binding(ERROR, d, d)]), e.handler, Place(d, e.node, d)).ok
    ensures
      var d, m := p.depth + 1, st.messages;
      var t3 := CheckBlock(t1.(binds := t1.binds[e.name := Binding(ERROR, d, d)]), e.handler, Place(d, e.node, d));
      var b := ExecBlock(w, e.handler, st.(messages := m + 1, vars := st.vars[e.name := Failure(m)]));
      var t4, v := Pop(t1.binds, t3), if b.out.Recovering? then b.out.v else Fresh(e.ty);
      var o := if b.out.Recovering? then Normal else b.out;
      && Inv(t4, h, p.depth, Finish(m, o, v, Close(st.vars, b.st)))
      && Conforms(v, e.ty) && Within(h, View(t4, e), v)
      && (o.Returning? ==> forall k: nat :: !Sees(o.v, k))
    decreases e, 0
  {
    hide Inv, Within, Conforms, CheckBlock, ExecBlock, Finish, Close, View;
    var d, m := p.depth + 1, st.messages;
    var t2 := t1.(binds := t1.binds[e.name := Binding(ERROR, d, d)]);
    var q, st1 := Place(d, e.node, d), st.(messages := m + 1, vars := st.vars[e.name := Failure(m)]);
    assert TypesIn(t2) == TypesIn(t1)[e.name := ERROR];
    BlockGrows(t2, e.handler, q, Some(e.ty));
    HandlerStarts(t1, e.name, h, p.depth, st);
    SoundBlock(w, t2, e.handler, q, Some(e.ty), h[d := m], st1);
    HandlerEnds(w, t1, CheckBlock(t2, e.handler, q), e, p, h, st, ExecBlock(w, e.handler, st1));
  }

  /** Entering a handler of depth `depth + 1`: its failure's name views its message. */
  lemma HandlerStarts(t: Tables, name: string, h: Active, depth: nat, st: State)
    requires Inv(t, h, depth, st) && name !in t.binds
    ensures
      var d, m := depth + 1, st.messages;
      Inv(t.(binds := t.binds[name := Binding(ERROR, d, d)]), h[d := m], d,
          st.(messages := m + 1, vars := st.vars[name := Failure(m)]))
  {
    var d, m := depth + 1, st.messages;
    var h' := h[d := m];
    var f := Failure(m);
    assert Conforms(f, ERROR) by {
      assert f.parts == [VInt, VStr({m})] && ERROR.parts == [TInt, TStr];
    }
    forall k: nat | Sees(f, k) ensures Reach(h', d, k) {
      var i :| 0 <= i < |f.parts| && Sees(f.parts[i], k);
      assert k == m && h'[d] == m;
    }
    forall x | x in t.binds
      ensures Within(h', t.binds[x].handled, st.vars[x]) && Within(h', t.binds[x].depth, st.vars[x])
    {
      WithinAdded(h, d, m, t.binds[x].handled, st.vars[x]);
      WithinAdded(h, d, m, t.binds[x].depth, st.vars[x]);
    }
  }

  lemma WithinAdded(h: Active, d: nat, m: nat, k: nat, v: Value)
    requires d !in h && Within(h, k, v)
    ensures Within(h[d := m], k, v)
  {
    forall n: nat | Sees(v, n) ensures Reach(h[d := m], k, n) {
      assert Reach(h, k, n);
      var c :| c in h && c <= k && h[c] == n;
      assert h[d := m][c] == n;
    }
  }

  /** A value within the outer handlers does not view the message of the one that ends. */
  lemma NotTheirs(h: Active, k: nat, v: Value, m: nat)
    requires Within(h, k, v) && forall d :: d in h ==> h[d] < m
    ensures !Sees(v, m)
  {
    assert Sees(v, m) ==> Reach(h, k, m);
  }

  /** Dropping the ended handler `d` from what a variable of an outer scope may view. */
  lemma WithinOuter(h: Active, d: nat, m: nat, outer: nat, k: nat, v: Value)
    requires outer < d && d !in h && (forall c :: c in h ==> h[c] < m)
    requires Within(h[d := m], outer, v) && Within(h[d := m], k, v)
    ensures Within(h, outer, v) && Within(h, k, v)
  {
    var h' := h[d := m];
    forall n: nat | Sees(v, n) ensures Reach(h, outer, n) && Reach(h, k, n) {
      assert Reach(h', outer, n) && Reach(h', k, n);
      var a :| a in h' && a <= outer && h'[a] == n;
      var b :| b in h' && b <= k && h'[b] == n;
      assert a in h && h[a] == n;
      assert b != d;
      assert b in h && h[b] == n;
    }
  }

  /** What outlives a handler was never given a view of its message. */
  lemma OuterVariables(t1: Tables, t3: Tables, e: Expr, p: Place, h: Active, st: State, b: Run)
    requires e.Catch? && Inv(t1, h, p.depth, st) && e.name !in t1.binds
    requires
      var d, m := p.depth + 1, st.messages;
      && Grows(t1.(binds := t1.binds[e.name := Binding(ERROR, d, d)]), t3)
      && Inv(t3, h[d := m], d, b.st)
    ensures
      var m, t4, st' := st.messages, Pop(t1.binds, t3), Close(st.vars, b.st);
      && st'.vars.Keys == t4.binds.Keys
      && forall x :: x in t4.binds ==>
           && Within(h, t4.binds[x].handled, st'.vars[x]) && Within(h, t4.binds[x].depth, st'.vars[x])
           && !Sees(st'.vars[x], m)
  {
    hide Sees, Conforms;
    var d, m, t4, st' := p.depth + 1, st.messages, Pop(t1.binds, t3), Close(st.vars, b.st);
    assert st'.vars.Keys == t4.binds.Keys;
    forall x | x in t4.binds
      ensures Within(h, t4.binds[x].handled, st'.vars[x]) && Within(h, t4.binds[x].depth, st'.vars[x])
      ensures !Sees(st'.vars[x], m)
    {
      assert t4.binds[x].depth <= p.depth;
      WithinOuter(h, d, m, t4.binds[x].depth, t4.binds[x].handled, st'.vars[x]);
      NotTheirs(h, t4.binds[x].depth, st'.vars[x], m);
    }
  }

  lemma HandlerEnds(w: World, t1: Tables, t3: Tables, e: Expr, p: Place, h: Active, st: State, b: Run)
    requires e.Catch? && Inv(t1, h, p.depth, st) && e.name !in t1.binds
    requires
      var d, m := p.depth + 1, st.messages;
      && Grows(t1.(binds := t1.binds[e.name := Binding(ERROR, d, d)]), t3)
      && Inv(t3, h[d := m], d, b.st)
      && OutOk(t3, h[d := m], Place(d, e.node, d), b.out)
      && (b.out.Recovering? ==> Conforms(b.out.v, e.ty))
    ensures
      var m, t4 := st.messages, Pop(t1.binds, t3);
      var v := if b.out.Recovering? then b.out.v else Fresh(e.ty);
      var o := if b.out.Recovering? then Normal else b.out;
      && Inv(t4, h, p.depth, Finish(m, o, v, Close(st.vars, b.st)))
      && Conforms(v, e.ty) && Within(h, View(t4, e), v)
      && (o.Returning? ==> forall k: nat :: !Sees(o.v, k))
  {
    var d, m, t4 := p.depth + 1, st.messages, Pop(t1.binds, t3);
    var h' := h[d := m];
    var st' := Close(st.vars, b.st);
    var v := if b.out.Recovering? then b.out.v else Fresh(e.ty);
    OuterVariables(t1, t3, e, p, h, st, b);
    if b.out.Recovering? {
      assert h' - {d} == h;
      WithinMore(h, Recovered(t3.recovered, e.node), View(t4, e), v);
      NotTheirs(h, View(t4, e), v, m);
    } else {
      FreshWithin(e.ty, h, View(t4, e));
    }
    var o := if b.out.Recovering? then Normal else b.out;
    assert !Sees(v, m) && !OutSees(o, m);
    assert st'.vars.Keys == t4.binds.Keys;
    assert !Finish(m, o, v, st').escaped;
    forall c | c in h ensures h[c] < b.st.messages {
      assert h'[c] == h[c];
    }
  }

  lemma {:induction false} SoundStmt(
    w: World, t: Tables, s: Stmt, p: Place, caught: Option<Ty>, h: Active, st: State)
    requires Inv(t, h, p.depth, st) && StmtTyped(TypesIn(t), s, caught) && CheckStmt(t, s, p).ok
    ensures
      var t', r := CheckStmt(t, s, p), Exec(w, s, st);
      && Live(h, p.depth, r.st) && Recorded(t', h, r.st, t.binds.Keys)
      && OutOk(t', h, p, r.out)
      && (r.out.Recovering? ==> caught.Some? && Conforms(r.out.v, caught.value))
      && (r.out == Normal ==> Inv(t', h, p.depth, r.st))
      && (!s.Let? ==> Inv(t', h, p.depth, r.st))
    decreases s, 1
  {
    StmtGrows(t, s, p, caught);
    match s
    case Let(x, e) => SoundLet(w, t, s, p, h, st);
    case Assign(_, _, _) => SoundAssign(w, t, s, p, h, st);
    case ExprStmt(e) => SoundExpr(w, t, e, p, h, st);
    case If(_, _) => SoundIf(w, t, s, p, caught, h, st);
    case Block(body) => SoundBlock(w, t, body, p, caught, h, st);
    case Recover(e) => SoundRecover(w, t, s, p, caught, h, st);
    case Return(e) => SoundReturn(w, t, s, p, h, st);
    case Error(e) => SoundExpr(w, t, e, p, h, st);
  }

  lemma {:induction false} SoundIf(
    w: World, t: Tables, s: Stmt, p: Place, caught: Option<Ty>, h: Active, st: State)
    requires s.If? && Inv(t, h, p.depth, st) && StmtTyped(TypesIn(t), s, caught) && CheckStmt(t, s, p).ok
    ensures
      var t', r := CheckStmt(t, s, p), Exec(w, s, st);
      && Inv(t', h, p.depth, r.st) && OutOk(t', h, p, r.out)
      && (r.out.Recovering? ==> caught.Some? && Conforms(r.out.v, caught.value))
    decreases s, 0
  {
    var t1 := CheckBlock(t, s.thn, p);
    var t2 := CheckBlock(t1, s.els, p);
    BlockGrows(t, s.thn, p, caught);
    BlockGrows(t1, s.els, p, caught);
    if w(st.asked) {
      SoundBlock(w, t, s.thn, p, caught, h, Ask(st));
      var r := ExecBlock(w, s.thn, Ask(st));
      InvMore(t1, t2, h, p.depth, r.st);
      OutOkMore(t1, t2, h, p, r.out);
    } else {
      InvMore(t, t1, h, p.depth, Ask(st));
      SoundBlock(w, t1, s.els, p, caught, h, Ask(st));
    }
  }

  lemma {:induction false} SoundLet(w: World, t: Tables, s: Stmt, p: Place, h: Active, st: State)
    requires s.Let? && Inv(t, h, p.depth, st) && StmtTyped(TypesIn(t), s, None) && CheckStmt(t, s, p).ok
    ensures
      var t', r := CheckStmt(t, s, p), Exec(w, s, st);
      && Live(h, p.depth, r.st) && Recorded(t', h, r.st, t.binds.Keys)
      && OutOk(t', h, p, r.out) && !r.out.Recovering?
      && (r.out == Normal ==> Inv(t', h, p.depth, r.st))
    decreases s, 0
  {
    ExprGrows(t, s.e, p);
    StmtGrows(t, s, p, None);
    SoundExpr(w, t, s.e, p, h, st);
    var t1, a := CheckExpr(t, s.e, p), Eval(w, s.e, st);
    RecordedMore(t1, CheckStmt(t, s, p), h, a.st, t.binds.Keys);
    if a.out == Normal {
      WithinDepth(h, View(t1, s.e), p.depth, a.st, a.v);
      LetKeepsInv(t1, s.x, TypeIn(t1, s.e), View(t1, s.e), h, p.depth, a.st, a.v);
    }
  }

  /** A new local, tainted with the view of its initialiser. */
  lemma LetKeepsInv(t: Tables, x: string, ty: Ty, view: nat, h: Active, depth: nat, st: State, v: Value)
    requires Inv(t, h, depth, st) && x !in t.binds && Conforms(v, ty) && Within(h, view, v) && Within(h, depth, v)
    ensures Inv(Taint(t.(binds := t.binds[x := Binding(ty, depth, 0)]), x, view), h, depth, st.(vars := st.vars[x := v]))
  {
    hide Conforms, Within;
  }

  lemma {:induction false} SoundAssign(w: World, t: Tables, s: Stmt, p: Place, h: Active, st: State)
    requires s.Assign? && Inv(t, h, p.depth, st) && StmtTyped(TypesIn(t), s, None) && CheckStmt(t, s, p).ok
    ensures
      var t', r := CheckStmt(t, s, p), Exec(w, s, st);
      Inv(t', h, p.depth, r.st) && OutOk(t', h, p, r.out) && !r.out.Recovering?
    decreases s, 0
  {
    hide Inv, Grows, Within, Conforms, View, CheckExpr, Eval;
    ExprGrows(t, s.e, p);
    SoundExpr(w, t, s.e, p, h, st);
    var t1, t', a := CheckExpr(t, s.e, p), CheckStmt(t, s, p), Eval(w, s.e, st);
    AssignGrows(t, t1, t', s, p);
    InvMore(t1, t', h, p.depth, a.st);
    if a.out == Normal {
      StoreKeepsInv(t1, t', h, p.depth, a.st, s, View(t1, s.e), a.v);
    }
  }

  lemma AssignGrows(t: Tables, t1: Tables, t': Tables, s: Stmt, p: Place)
    requires s.Assign? && t1 == CheckExpr(t, s.e, p) && t' == CheckStmt(t, s, p) && t'.ok
    ensures Grows(t1, t')
    ensures
      var view := View(t1, s.e);
      || (t' == t1 && (view == 0 || !HoldsView(TypeIn(t1, s.e))))
      || (s.x in t1.binds && t1.binds[s.x].depth > view && t' == Taint(t1, s.x, view))
  {
    hide CheckExpr, View;
  }

  lemma StoreKeepsInv(
    t1: Tables, t': Tables, h: Active, depth: nat, st: State, s: Stmt, view: nat, v: Value)
    requires s.Assign? && Inv(t1, h, depth, st) && Inv(t', h, depth, st)
    requires s.x in t1.binds && Grows(t1, t') && PartType(t1.binds[s.x].ty, s.path).Some?
    requires Conforms(v, PartType(t1.binds[s.x].ty, s.path).value) && Within(h, view, v)
    requires
      || (t' == t1 && (view == 0 || !HoldsView(PartType(t1.binds[s.x].ty, s.path).value)))
      || (t1.binds[s.x].depth > view && t' == Taint(t1, s.x, view))
    ensures Inv(t', h, depth, st.(vars := st.vars[s.x := Update(st.vars[s.x], s.path, v)]))
  {
    hide Within, Conforms, Update, PartType, HoldsView;
    var ty := t1.binds[s.x].ty;
    var after := Update(st.vars[s.x], s.path, v);
    var b := t'.binds[s.x];
    StoredWithin(h, depth, st, t1, view, v, PartType(ty, s.path).value, s.x);
    WithinMore(h, if t' == t1 then t1.binds[s.x].handled else Max(t1.binds[s.x].handled, view), b.handled, v);
    UpdateOk(st.vars[s.x], ty, s.path, v, 0);
    UpdateWithin(h, b.handled, st.vars[s.x], ty, s.path, v);
    UpdateWithin(h, b.depth, st.vars[s.x], ty, s.path, v);
    RebindKeepsInv(t', h, depth, st, s.x, after);
  }

  lemma UpdateWithin(h: Active, k: nat, v: Value, ty: Ty, path: seq<nat>, part: Value)
    requires Conforms(v, ty) && PartType(ty, path).Some? && Conforms(part, PartType(ty, path).value)
    requires Within(h, k, v) && Within(h, k, part)
    ensures Within(h, k, Update(v, path, part))
  {
    forall m: nat | Sees(Update(v, path, part), m) ensures Reach(h, k, m) {
      UpdateOk(v, ty, path, part, m);
    }
  }

  lemma RebindKeepsInv(t: Tables, h: Active, depth: nat, st: State, x: string, v: Value)
    requires Inv(t, h, depth, st) && x in t.binds && Conforms(v, t.binds[x].ty)
    requires Within(h, t.binds[x].handled, v) && Within(h, t.binds[x].depth, v)
    ensures Inv(t, h, depth, st.(vars := st.vars[x := v]))
  {
    hide Within, Conforms;
  }

  /** An accepted store: the value views nothing, or only handlers outside the variable's scope. */
  lemma StoredWithin(h: Active, depth: nat, st: State, t: Tables, view: nat, v: Value, ty: Ty, x: string)
    requires Live(h, depth, st) && x in t.binds && Within(h, view, v) && Conforms(v, ty)
    requires view == 0 || !HoldsView(ty) || t.binds[x].depth > view
    ensures
      var k := if view == 0 || !HoldsView(ty) then t.binds[x].handled else Max(t.binds[x].handled, view);
      Within(h, k, v) && Within(h, t.binds[x].depth, v)
  {
    if view == 0 {
      NothingAtDepthZero(h, depth, st, v);
    } else if !HoldsView(ty) {
      forall m: nat ensures !Sees(v, m) { NoViewNoSight(v, ty, m); }
    } else {
      WithinMore(h, view, Max(t.binds[x].handled, view), v);
      WithinMore(h, view, t.binds[x].depth, v);
    }
  }

  lemma {:induction false} SoundRecover(
    w: World, t: Tables, s: Stmt, p: Place, caught: Option<Ty>, h: Active, st: State)
    requires s.Recover? && Inv(t, h, p.depth, st) && StmtTyped(TypesIn(t), s, caught) && CheckStmt(t, s, p).ok
    ensures
      var t', r := CheckStmt(t, s, p), Exec(w, s, st);
      && Inv(t', h, p.depth, r.st) && OutOk(t', h, p, r.out)
      && (r.out.Recovering? ==> caught.Some? && Conforms(r.out.v, caught.value))
    decreases s, 0
  {
    ExprGrows(t, s.e, p);
    SoundExpr(w, t, s.e, p, h, st);
    var t1, t', a := CheckExpr(t, s.e, p), CheckStmt(t, s, p), Eval(w, s.e, st);
    hide CheckExpr, Eval, View, Conforms, HoldsView, Recovered, Within, Inv;
    assert Grows(t1, t');
    InvMore(t1, t', h, p.depth, a.st);
    if a.out == Normal {
      assert Live(h, p.depth, a.st) by { InvIsLive(t1, h, p.depth, a.st); }
      RecoveredWithin(t1, t', s, p, h, a.st, a.v);
    }
  }

  lemma InvIsLive(t: Tables, h: Active, depth: nat, st: State)
    requires Inv(t, h, depth, st)
    ensures Live(h, depth, st)
  {
  }

  /** A recovered value views only handlers outside the one it leaves. */
  lemma RecoveredWithin(t1: Tables, t': Tables, s: Stmt, p: Place, h: Active, st: State, v: Value)
    requires s.Recover? && Live(h, p.depth, st)
    requires Conforms(v, TypeIn(t1, s.e)) && Within(h, View(t1, s.e), v)
    requires t'.ok && t' == RecoverTables(t1, s, p)
    ensures Within(h - {p.catchDepth}, Recovered(t'.recovered, p.catchNode), v)
  {
    hide View, Conforms, HoldsView;
    var view, ty := View(t1, s.e), TypeIn(t1, s.e);
    var h', k := h - {p.catchDepth}, Recovered(t'.recovered, p.catchNode);
    forall m: nat | Sees(v, m) ensures Reach(h', k, m) {
      assert Reach(h, view, m);
      var d :| d in h && d <= view && h[d] == m;
      if !HoldsView(ty) {
        NoViewNoSight(v, ty, m);
      }
      assert t'.recovered[..|t'.recovered| - 1] == t1.recovered;
      assert d in h' && h'[d] == m && d <= k;
    }
  }

  lemma {:induction false} SoundReturn(w: World, t: Tables, s: Stmt, p: Place, h: Active, st: State)
    requires s.Return? && Inv(t, h, p.depth, st) && StmtTyped(TypesIn(t), s, None) && CheckStmt(t, s, p).ok
    ensures
      var t', r := CheckStmt(t, s, p), Exec(w, s, st);
      Inv(t', h, p.depth, r.st) && OutOk(t', h, p, r.out) && !r.out.Recovering?
    decreases s, 0
  {
    ExprGrows(t, s.e, p);
    SoundExpr(w, t, s.e, p, h, st);
    var t1, a := CheckExpr(t, s.e, p), Eval(w, s.e, st);
    if a.out == Normal {
      if HoldsView(TypeIn(t1, s.e)) {
        NothingAtDepthZero(h, p.depth, a.st, a.v);
      } else {
        forall m: nat ensures !Sees(a.v, m) { NoViewNoSight(a.v, TypeIn(t1, s.e), m); }
      }
    }
  }

  lemma {:induction false} SoundList(
    w: World, t: Tables, ss: Stmts, p: Place, caught: Option<Ty>, h: Active, st: State)
    requires Inv(t, h, p.depth, st) && StmtsTyped(TypesIn(t), ss, caught) && CheckList(t, ss, p).ok
    ensures
      var t', r := CheckList(t, ss, p), ExecList(w, ss, st);
      && Live(h, p.depth, r.st) && Recorded(t', h, r.st, t.binds.Keys)
      && OutOk(t', h, p, r.out)
      && (r.out.Recovering? ==> caught.Some? && Conforms(r.out.v, caught.value))
    decreases ss, 0
  {
    if ss.Cons? {
      var t1, t' := CheckStmt(t, ss.head, p), CheckList(t, ss, p);
      StmtGrows(t, ss.head, p, caught);
      ListGrows(t1, ss.tail, p, caught);
      SoundStmt(w, t, ss.head, p, caught, h, st);
      var r := Exec(w, ss.head, st);
      if r.out == Normal {
        SoundList(w, t1, ss.tail, p, caught, h, r.st);
      } else {
        RecordedMore(t1, t', h, r.st, t.binds.Keys);
        OutOkMore(t1, t', h, p, r.out);
      }
    }
  }

  lemma {:induction false} SoundBlock(
    w: World, t: Tables, ss: Stmts, p: Place, caught: Option<Ty>, h: Active, st: State)
    requires Inv(t, h, p.depth, st) && StmtsTyped(TypesIn(t), ss, caught) && CheckBlock(t, ss, p).ok
    ensures
      var t', r := CheckBlock(t, ss, p), ExecBlock(w, ss, st);
      && Inv(t', h, p.depth, r.st)
      && OutOk(t', h, p, r.out)
      && (r.out.Recovering? ==> caught.Some? && Conforms(r.out.v, caught.value))
    decreases ss, 2
  {
    var p1 := p.(depth := p.depth + 1);
    ListGrows(t, ss, p1, caught);
    SoundList(w, t, ss, p1, caught, h, st);
    var t1, r := CheckList(t, ss, p1), ExecList(w, ss, st);
    var st' := Close(st.vars, r.st);
    assert st'.vars.Keys == t.binds.Keys;
  }

  /** Caught messages stay in their handlers: an accepted body never lets a global, a local, a
      returned value or a recovered value view the message of a handler that has finished. */
  lemma CaughtMessagesStay(w: World, globals: Types, params: Types, body: Stmts)
    requires WellTyped(globals, params, body) && Accepts(globals, params, body)
    ensures
      var r := RunBody(w, globals, params, body);
      && !r.st.escaped
      && (r.out.Returning? ==> forall m: nat :: !Sees(r.out.v, m))
      && (forall x, m: nat :: x in r.st.vars ==> !Sees(r.st.vars[x], m))
  {
    var types, t := globals + params, Initial(globals, params);
    var st := State(map x | x in types :: Fresh(types[x]), 0, 0, false);
    assert TypesIn(t) == types;
    forall x, m: nat | x in types ensures Conforms(st.vars[x], types[x]) && !Sees(st.vars[x], m) {
      FreshOk(types[x], m);
    }
    assert forall x :: x in types ==> Conforms(st.vars[x], types[x]) && Within(map[], 0, st.vars[x]) by {
      forall x | x in types ensures Conforms(st.vars[x], types[x]) { FreshOk(types[x], 0); }
    }
    SoundBlock(w, t, body, Place(1, 0, 0), None, map[], st);
    var t', r := CheckBlock(t, body, Place(1, 0, 0)), RunBody(w, globals, params, body);
    forall x | x in r.st.vars ensures forall m: nat :: !Sees(r.st.vars[x], m) {
      assert Within(map[], t'.binds[x].depth, r.st.vars[x]);
    }
  }
}
