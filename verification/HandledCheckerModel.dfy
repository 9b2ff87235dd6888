/** The same rules as the checker runs them: bindings and recovered views are tables updated in
    place, scopes are pushed and popped by depth, and `catch` saves and restores the handler it
    is in.  Each method is proved to leave the tables HandledCheck computes. */
module HandledCheckerModel {
  import opened Wrappers
  import opened HandledCheck

  class HandledChecker {
    var binds: map<string, Binding>
    var recovered: seq<(nat, nat)>
    var ok: bool
    var depth: nat
    var catchNode: nat
    var catchDepth: nat

    constructor (globals: Types, params: Types)
      ensures Now() == Initial(globals, params)
      ensures Here() == Place(1, 0, 0)
    {
      binds := Initial(globals, params).binds;
      recovered, ok := [], true;
      depth, catchNode, catchDepth := 1, 0, 0;
    }

    function Now(): Tables reads this { Tables(binds, recovered, ok) }

    function Here(): Place reads this { Place(depth, catchNode, catchDepth) }

    /** `handled_view` of a `catch`: the loop over `recovered_views`. */
    method DeepestRecovered(node: nat, operandView: nat) returns (deepest: nat)
      ensures deepest == Max(operandView, Recovered(recovered, node))
    {
      deepest := operandView;
      var i := 0;
      assert recovered[..|recovered|] == recovered;
      while i < |recovered|
        invariant 0 <= i <= |recovered|
        invariant deepest == Max(operandView, Recovered(recovered[..i], node))
      {
        assert recovered[..i + 1][..i] == recovered[..i];
        if recovered[i].0 == node && recovered[i].1 > deepest {
          deepest := recovered[i].1;
        }
        i := i + 1;
      }
    }

    method HandledView(e: Expr) returns (view: nat)
      ensures view == View(Now(), e)
      decreases e
    {
      match e
      case Var(x) => view := if x in binds then binds[x].handled else 0;
      case Field(i, _) => view := HandledView(i);
      case Slice(i) => view := HandledView(i);
      case Product(es) => view := DeepestOf(es);
      case Choice(a, b) =>
        var va := HandledView(a);
        var vb := HandledView(b);
        view := Max(va, vb);
      case Catch(node, _, operand, _, _) =>
        var v := HandledView(operand);
        view := DeepestRecovered(node, v);
      case _ => view := 0;
    }

    /** `handled_view` of what holds several values: the loop over its parts. */
    method DeepestOf(es: Exprs) returns (deepest: nat)
      ensures deepest == ViewAll(Now(), es)
      decreases es
    {
      deepest := 0;
      var rest := es;
      while rest.More?
        invariant ViewAll(Now(), es) == Max(deepest, ViewAll(Now(), rest))
        invariant rest == es || rest < es
        decreases rest
      {
        var view := HandledView(rest.head);
        deepest := Max(deepest, view);
        rest := rest.tail;
      }
    }

    method SetHandled(x: string, view: nat)
      modifies this`binds
      ensures Now() == Taint(old(Now()), x, view)
    {
      if x in binds {
        binds := binds[x := binds[x].(handled := Max(binds[x].handled, view))];
      }
    }

    method HandledRecovered(e: Expr)
      modifies this`recovered, this`ok
      ensures
        var t, view := old(Now()), View(old(Now()), e);
        Now() == if view == 0 || !HoldsView(TypeIn(t, e)) then t
                 else if view < catchDepth then t.(recovered := t.recovered + [(catchNode, view)])
                 else t.(ok := false)
    {
      var view: nat := HandledView(e);
      if view == 0 || !HoldsView(TypeIn(Now(), e)) {
        return;
      }
      if view < catchDepth {
        recovered := recovered + [(catchNode, view)];
        return;
      }
      HandledLeaves(e);
    }

    method HandledLeaves(e: Expr)
      modifies this`ok
      ensures ok == (old(ok) && !(View(old(Now()), e) > 0 && HoldsView(TypeIn(old(Now()), e))))
    {
      var view := HandledView(e);
      if view > 0 && HoldsView(TypeIn(Now(), e)) {
        ok := false;
      }
    }

    method HandledStored(x: string, e: Expr)
      modifies this`binds, this`ok
      ensures
        var t, view := old(Now()), View(old(Now()), e);
        Now() == if view == 0 || !HoldsView(TypeIn(t, e)) then t
                 else if x in t.binds && t.binds[x].depth > view then Taint(t, x, view)
                 else t.(ok := false)
    {
      var view: nat := HandledView(e);
      if view == 0 || !HoldsView(TypeIn(Now(), e)) {
        return;
      }
      // `handled_root`: a global, at depth 0, is no local's storage
      if x in binds && binds[x].depth != 0 && binds[x].depth > view {
        SetHandled(x, view);
        return;
      }
      ok := false;
    }

    method CheckExpression(e: Expr)
      modifies this
      ensures Now() == CheckExpr(old(Now()), e, old(Here())) && Here() == old(Here())
      decreases e
    {
      match e
      case Field(i, _) => CheckExpression(i);
      case Slice(i) => CheckExpression(i);
      case Product(es) => CheckArguments(es);
      case Choice(a, b) =>
        CheckExpression(a);
        CheckExpression(b);
      case Call(_, args) => CheckArguments(args);
      case Try(_, args) => CheckArguments(args);
      case Catch(node, _, operand, name, handler) =>
        CheckExpression(operand);
        var outer, savedNode, savedDepth := binds, catchNode, catchDepth;
        depth := depth + 1;
        catchNode, catchDepth := node, depth;
        binds := binds[name := Binding(ERROR, depth, 0)];
        SetHandled(name, depth);
        assert binds == outer[name := Binding(ERROR, depth, depth)];
        CheckSuite(handler);
        PopScope(outer);
        catchNode, catchDepth := savedNode, savedDepth;
      case _ =>
    }

    method CheckArguments(es: Exprs)
      modifies this
      ensures Now() == CheckExprs(old(Now()), es, old(Here())) && Here() == old(Here())
      decreases es
    {
      if es.More? {
        CheckExpression(es.head);
        CheckArguments(es.tail);
      }
    }

    /** The bindings made since `outer` leave. */
    method PopScope(outer: map<string, Binding>)
      requires depth > 0
      modifies this`binds, this`depth
      ensures Now() == Pop(outer, old(Now())) && depth == old(depth) - 1
    {
      binds := map x | x in binds && x in outer :: binds[x];
      depth := depth - 1;
    }

    method CheckStatement(s: Stmt)
      modifies this
      ensures Now() == CheckStmt(old(Now()), s, old(Here())) && Here() == old(Here())
      decreases s, 0
    {
      match s
      case Let(x, e) =>
        CheckExpression(e);
        var view := HandledView(e);
        var ty := TypeIn(Now(), e);
        binds := binds[x := Binding(ty, depth, 0)];
        SetHandled(x, view);
      case Assign(x, _, e) =>
        CheckExpression(e);
        HandledStored(x, e);
      case ExprStmt(e) => CheckExpression(e);
      case If(thn, els) =>
        CheckSuite(thn);
        CheckSuite(els);
      case Block(body) => CheckSuite(body);
      case Recover(e) =>
        CheckExpression(e);
        HandledRecovered(e);
      case Return(e) =>
        CheckExpression(e);
        HandledLeaves(e);
      case Error(e) => CheckExpression(e);
    }

    method CheckSuite(ss: Stmts)
      modifies this
      ensures Now() == CheckBlock(old(Now()), ss, old(Here())) && Here() == old(Here())
      decreases ss, 1
    {
      var outer := binds;
      depth := depth + 1;
      var rest := ss;
      ghost var t, p := Now(), Here();
      while rest.Cons?
        invariant CheckList(Now(), rest, p) == CheckList(t, ss, p) && Here() == p
        invariant rest == ss || rest < ss
        decreases rest
      {
        CheckStatement(rest.head);
        rest := rest.tail;
      }
      PopScope(outer);
    }
  }

  method CheckBody(globals: Types, params: Types, body: Stmts) returns (accepted: bool)
    ensures accepted == Accepts(globals, params, body)
  {
    var c := new HandledChecker(globals, params);
    c.CheckSuite(body);
    accepted := c.ok;
  }
}
