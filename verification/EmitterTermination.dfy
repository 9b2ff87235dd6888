/** Whether the emitter finishes.  At an exit it writes out what the scopes it passes have
    deferred, and what is deferred may hold exits of its own: the checker refuses only some of
    them.  The emitter, which has no bound on this, calls itself without end exactly when
    something deferred is written whose own exits write it again: anything under `defer` that can
    leave, and anything under `errdefer` that can fail where a failure passes. */
module EmitterTermination {
  import opened Wrappers
  import opened LuceSource
  import opened CTarget
  import opened Lowering

  // ----- the emitter's calls of itself -----

  /** What the emitter is asked to write. */
  datatype Node = E(e: Expr) | S(s: Stmt) | L(ss: Stmts)

  datatype Way = ByReturn | ByFailure | ByRecover | ByJump(name: string)

  /** The scope an exit unwinds to, as the emitter finds it. */
  function Target(ctx: Ctx, way: Way): nat {
    match way
    case ByReturn => 0
    case ByFailure => if ctx.failure.Some? then ctx.failureScope else 0
    case ByRecover => if ctx.catching.Some? then ctx.catchScope else 0
    case ByJump(name) => JumpScope(ctx.scopes, name)
  }

  /** Unwinding to `from` writes what some scope has deferred. */
  predicate Unwinds(ctx: Ctx, from: nat, failing: bool, y: Node) {
    exists at, i :: from <= at < |ctx.scopes| && 0 <= i < |ctx.scopes[at].defers|
      && (failing || !ctx.scopes[at].defers[i].onFailure) && y == S(ctx.scopes[at].defers[i].what)
  }

  predicate Exits(ctx: Ctx, way: Way, y: Node) { Unwinds(ctx, Target(ctx, way), way == ByFailure, y) }

  /** To write `x` in the state `ctx`, the emitter writes `y` in the state `ctx'`.  A list stands
      for the rest of a block whose scope is on top. */
  ghost predicate Writes(ctx: Ctx, x: Node, ctx': Ctx, y: Node) {
    match x
    case E(Call(_, arg)) => ctx' == ctx && y == E(arg)
    case E(Try(_, arg)) => ctx' == ctx && (y == E(arg) || Exits(ctx, ByFailure, y))
    case E(Catch(operand, _, handler)) =>
      || (exists n :: ctx' == OperandCtx(ctx, n) && y == E(operand))
      || (Well(ctx) && exists n :: ctx' == Push(HandlerCtx(ctx, n), PLAIN) && y == L(handler))
    case E(_) => false
    case S(ExprStmt(e)) => ctx' == ctx && y == E(e)
    case S(Assign(_, e)) => ctx' == ctx && y == E(e)
    case S(SetAllocator(e)) => ctx' == ctx && y == E(e)
    case S(If(c, thn, els)) =>
      || (ctx' == ctx && y == E(c))
      || (Well(ctx) && ctx' == Push(ctx, PLAIN) && (y == L(thn) || y == L(els)))
    case S(While(name, c, body)) =>
      Well(ctx) && var inner := Push(ctx, LoopScope(name));
      (ctx' == inner && y == E(c)) || (ctx' == Push(inner, PLAIN) && y == L(body))
    case S(Block(body)) => Well(ctx) && ctx' == Push(ctx, PLAIN) && y == L(body)
    case S(With(a, body)) =>
      || (ctx' == ctx && y == E(a))
      || (Well(ctx) && exists t :: ctx' == Push(Push(ctx, PLAIN.(save := Some(t))), PLAIN) && y == L(body))
    case S(Return(e)) => ctx' == ctx && (y == E(e) || Exits(ctx, ByReturn, y))
    case S(ReturnUnit) => ctx' == ctx && Exits(ctx, ByReturn, y)
    case S(Error(e)) => ctx' == ctx && (y == E(e) || Exits(ctx, ByFailure, y))
    case S(Break(name)) => ctx' == ctx && Exits(ctx, ByJump(name), y)
    case S(Continue(name)) => ctx' == ctx && Exits(ctx, ByJump(name), y)
    case S(Recover(e)) => ctx' == ctx && (y == E(e) || Exits(ctx, ByRecover, y))
    case S(Defer(_)) => false
    case L(Nil) => ctx.scopes != [] && ctx' == ctx && Unwinds(ctx, |ctx.scopes| - 1, false, y)
    case L(Cons(s, rest)) =>
      if s.Defer? then ctx.base < |ctx.scopes| && ctx' == Registered(ctx, s.d) && y == L(rest)
      else ctx' == ctx && (y == S(s) || y == L(rest))
  }

  /** The emitter calls itself to depth `k`. */
  ghost predicate Nests(ctx: Ctx, x: Node, k: nat)
    decreases k
  {
    k == 0 || exists ctx': Ctx, y: Node :: Writes(ctx, x, ctx', y) && Nests(ctx', y, k - 1)
  }

  /** The emitter never finishes with `x`. */
  ghost predicate NeverEnds(ctx: Ctx, x: Node) { forall k: nat :: Nests(ctx, x, k) }

  lemma {:induction false} NestsFewer(ctx: Ctx, x: Node, k: nat)
    requires Nests(ctx, x, k + 1)
    ensures Nests(ctx, x, k)
    decreases k
  {
    hide Writes;
    if k > 0 {
      var ctx': Ctx, y: Node :| Writes(ctx, x, ctx', y) && Nests(ctx', y, k);
      NestsFewer(ctx', y, k - 1);
    }
  }

  lemma NestsVia(ctx: Ctx, x: Node, ctx': Ctx, y: Node, k: nat)
    requires Writes(ctx, x, ctx', y) && Nests(ctx', y, k)
    ensures Nests(ctx, x, k + 1) && Nests(ctx, x, k)
  {
    hide Writes;
    assert Nests(ctx, x, k + 1);
    NestsFewer(ctx, x, k);
  }

  lemma NestsNone(ctx: Ctx, x: Node)
    ensures Nests(ctx, x, 0)
  {
  }

  // ----- what leaves -----

  /** Somewhere in `e` it is left this way, past its own handlers and loops as the emitter sees
      them: a loop's condition stands under the loop. */
  predicate ExprEscapes(e: Expr, way: Way) {
    match e
    case Lit(_) => false
    case Name(_) => false
    case Call(_, arg) => ExprEscapes(arg, way)
    case Try(_, arg) => way == ByFailure || ExprEscapes(arg, way)
    case Catch(operand, _, handler) =>
      (way != ByFailure && ExprEscapes(operand, way)) || (way != ByRecover && ListEscapes(handler, way))
  }

  predicate StmtEscapes(s: Stmt, way: Way) {
    match s
    case If(c, thn, els) => ExprEscapes(c, way) || ListEscapes(thn, way) || ListEscapes(els, way)
    case While(name, c, body) =>
      !(way.ByJump? && Aims(way.name, name)) && (ExprEscapes(c, way) || ListEscapes(body, way))
    case Block(body) => ListEscapes(body, way)
    case With(a, body) => ExprEscapes(a, way) || ListEscapes(body, way)
    case Return(e) => way == ByReturn || ExprEscapes(e, way)
    case ReturnUnit => way == ByReturn
    case Error(e) => way == ByFailure || ExprEscapes(e, way)
    case Recover(e) => way == ByRecover || ExprEscapes(e, way)
    case Break(name) => way == ByJump(name)
    case Continue(name) => way == ByJump(name)
    case Defer(_) => false
    case ExprStmt(e) => ExprEscapes(e, way)
    case Assign(_, e) => ExprEscapes(e, way)
    case SetAllocator(e) => ExprEscapes(e, way)
  }

  predicate ListEscapes(ss: Stmts, way: Way) {
    ss.Cons? && (StmtEscapes(ss.head, way) || ListEscapes(ss.tail, way))
  }

  predicate Escapes(x: Node, way: Way) {
    match x
    case E(e) => ExprEscapes(e, way)
    case S(s) => StmtEscapes(s, way)
    case L(ss) => ListEscapes(ss, way)
  }

  ghost predicate Leaves(s: Stmt) { exists way :: StmtEscapes(s, way) }

  /** Its own exits would write it again: at any exit for `defer`, at a failure for `errdefer`. */
  ghost predicate Wild(d: Deferred) { if d.onFailure then StmtEscapes(d.what, ByFailure) else Leaves(d.what) }

  /** With `rest` after it in its block it is written at all: at the end of the block, or where a
      failure passes. */
  predicate Written(d: Deferred, rest: Stmts) { d.onFailure ==> ListEscapes(rest, ByFailure) }

  /** Somewhere something wild is deferred and written. */
  ghost predicate ExprEndless(e: Expr) {
    match e
    case Lit(_) => false
    case Name(_) => false
    case Call(_, arg) => ExprEndless(arg)
    case Try(_, arg) => ExprEndless(arg)
    case Catch(operand, _, handler) => ExprEndless(operand) || ListEndless(handler)
  }

  ghost predicate StmtEndless(s: Stmt) {
    match s
    case If(c, thn, els) => ExprEndless(c) || ListEndless(thn) || ListEndless(els)
    case While(_, c, body) => ExprEndless(c) || ListEndless(body)
    case Block(body) => ListEndless(body)
    case With(a, body) => ExprEndless(a) || ListEndless(body)
    case ReturnUnit => false
    case Break(_) => false
    case Continue(_) => false
    case Defer(d) => DeferEndless(d)
    case Return(e) => ExprEndless(e)
    case Error(e) => ExprEndless(e)
    case Recover(e) => ExprEndless(e)
    case ExprStmt(e) => ExprEndless(e)
    case Assign(_, e) => ExprEndless(e)
    case SetAllocator(e) => ExprEndless(e)
  }

  ghost predicate DeferEndless(d: Deferred) { Wild(d) || (!d.what.Defer? && StmtEndless(d.what)) }

  ghost predicate ListEndless(ss: Stmts) {
    ss.Cons? &&
    ((StmtEndless(ss.head) && (ss.head.Defer? ==> Written(ss.head.d, ss.tail))) || ListEndless(ss.tail))
  }

  ghost predicate Endless(x: Node) {
    match x
    case E(e) => ExprEndless(e)
    case S(s) => !s.Defer? && StmtEndless(s)
    case L(ss) => ListEndless(ss)
  }

  // ----- without end -----

  /** The scopes failures and `recover` go to are open. */
  predicate Bounded(ctx: Ctx) {
    ctx.base == 0 && ctx.failureScope <= |ctx.scopes| && ctx.catchScope <= |ctx.scopes|
  }

  /** And were open before the block on top. */
  predicate InBlock(ctx: Ctx) {
    ctx.base == 0 && ctx.failureScope < |ctx.scopes| && ctx.catchScope < |ctx.scopes|
  }

  /** The scope `at` has deferred `d`, as its number `i`, and an exit this way writes it. */
  predicate Passing(ctx: Ctx, d: Deferred, at: nat, i: nat, way: Way) {
    && Bounded(ctx) && at < |ctx.scopes| && i < |ctx.scopes[at].defers| && ctx.scopes[at].defers[i] == d
    && (d.onFailure ==> way == ByFailure) && Target(ctx, way) <= at
  }

  /** Wherever an exit this way writes `d`, the emitter gets to depth `k`. */
  ghost predicate Deep(d: Deferred, at: nat, i: nat, way: Way, k: nat) {
    forall ctx: Ctx :: Passing(ctx, d, at, i, way) ==> Nests(ctx, S(d.what), k)
  }

  /** A jump this way is not one to the loop whose scope this is. */
  predicate Through(sc: Scope, way: Way) { way.ByJump? && sc.loop ==> !Aims(way.name, sc.name) }

  lemma TargetPush(ctx: Ctx, sc: Scope, way: Way)
    requires Well(ctx)
    ensures Target(Push(ctx, sc), way) == if Through(sc, way) then Target(ctx, way) else |ctx.scopes|
  {
    hide ScopesSize;
    var after := Push(ctx, sc).scopes;
    assert after[..|after| - 1] == ctx.scopes;
  }

  lemma TargetRegister(ctx: Ctx, d: Deferred, way: Way)
    requires ctx.base < |ctx.scopes|
    ensures Target(Registered(ctx, d), way) == Target(ctx, way)
  {
    hide ScopesSize, JumpScope;
    if way.ByJump? { SameLoops(ctx.scopes, Registered(ctx, d).scopes, way.name); }
  }

  /** Which loop a jump names does not depend on what is deferred. */
  lemma {:induction false} SameLoops(a: seq<Scope>, b: seq<Scope>, name: string)
    requires |a| == |b| && forall i :: 0 <= i < |a| ==> a[i].loop == b[i].loop && a[i].name == b[i].name
    ensures JumpScope(a, name) == JumpScope(b, name)
    decreases |a|
  {
    if a != [] { SameLoops(a[..|a| - 1], b[..|b| - 1], name); }
  }

  lemma PassingPush(ctx: Ctx, sc: Scope, d: Deferred, at: nat, i: nat, way: Way)
    requires Passing(ctx, d, at, i, way) && Through(sc, way)
    ensures Passing(Push(ctx, sc), d, at, i, way)
  {
    hide ScopesSize, Target;
    assert Push(ctx, sc).scopes[at] == ctx.scopes[at];
    TargetPush(ctx, sc, way);
  }

  lemma PassingRegister(ctx: Ctx, more: Deferred, d: Deferred, at: nat, i: nat, way: Way)
    requires Passing(ctx, d, at, i, way)
    ensures Passing(Registered(ctx, more), d, at, i, way)
  {
    hide ScopesSize, Target;
    assert Registered(ctx, more).scopes[at].defers[i] == ctx.scopes[at].defers[i];
    TargetRegister(ctx, more, way);
  }

  /** An exit that passes the scope writes what it deferred. */
  lemma ExitReaches(ctx: Ctx, x: Node, d: Deferred, at: nat, i: nat, way: Way, k: nat)
    requires Passing(ctx, d, at, i, way) && Deep(d, at, i, way, k)
    requires forall y :: Exits(ctx, way, y) ==> Writes(ctx, x, ctx, y)
    ensures Nests(ctx, x, k + 1)
  {
    hide Writes, Nests;
    assert Unwinds(ctx, Target(ctx, way), way == ByFailure, S(d.what));
    assert Nests(ctx, S(d.what), k);
    NestsVia(ctx, x, ctx, S(d.what), k);
  }

  lemma {:induction false} ExprReaches(ctx: Ctx, e: Expr, d: Deferred, at: nat, i: nat, way: Way, k: nat)
    requires Passing(ctx, d, at, i, way) && Deep(d, at, i, way, k) && ExprEscapes(e, way)
    ensures Nests(ctx, E(e), k + 1)
    decreases e
  {
    hide Nests, Deep, ScopesSize;
    match e
    case Call(_, arg) =>
      ExprReaches(ctx, arg, d, at, i, way, k);
      NestsVia(ctx, E(e), ctx, E(arg), k + 1);
    case Try(_, arg) =>
      if way == ByFailure {
        ExitReaches(ctx, E(e), d, at, i, way, k);
      } else {
        ExprReaches(ctx, arg, d, at, i, way, k);
        NestsVia(ctx, E(e), ctx, E(arg), k + 1);
      }
    case Catch(operand, _, handler) =>
      if way != ByFailure && ExprEscapes(operand, way) {
        ExprReaches(OperandCtx(ctx, 0), operand, d, at, i, way, k);
        NestsVia(ctx, E(e), OperandCtx(ctx, 0), E(operand), k + 1);
      } else {
        var inner := Push(HandlerCtx(ctx, 0), PLAIN);
        PassingPush(HandlerCtx(ctx, 0), PLAIN, d, at, i, way);
        ListReaches(inner, handler, d, at, i, way, k);
        NestsVia(ctx, E(e), inner, L(handler), k + 1);
      }
  }

  lemma {:induction false} StmtReaches(ctx: Ctx, s: Stmt, d: Deferred, at: nat, i: nat, way: Way, k: nat)
    requires Passing(ctx, d, at, i, way) && Deep(d, at, i, way, k) && StmtEscapes(s, way)
    ensures Nests(ctx, S(s), k + 1)
    decreases s
  {
    hide Nests, Deep, ScopesSize;
    if s.ReturnUnit? || s.Break? || s.Continue? || (s.Return? && way == ByReturn) || (s.Error? && way == ByFailure)
       || (s.Recover? && way == ByRecover) {
      ExitReaches(ctx, S(s), d, at, i, way, k);
    } else if s.Return? || s.Error? || s.Recover? || s.ExprStmt? || s.Assign? || s.SetAllocator? {
      ExprReaches(ctx, s.e, d, at, i, way, k);
      NestsVia(ctx, S(s), ctx, E(s.e), k + 1);
    } else {
      CompoundReaches(ctx, s, d, at, i, way, k);
    }
  }

  lemma {:induction false} CompoundReaches(ctx: Ctx, s: Stmt, d: Deferred, at: nat, i: nat, way: Way, k: nat)
    requires Passing(ctx, d, at, i, way) && Deep(d, at, i, way, k) && StmtEscapes(s, way)
    requires s.If? || s.While? || s.Block? || s.With?
    ensures Nests(ctx, S(s), k + 1)
    decreases s, 0
  {
    hide Nests, Deep, ScopesSize;
    var inner := Push(ctx, PLAIN);
    PassingPush(ctx, PLAIN, d, at, i, way);
    match s
    case If(c, thn, els) =>
      if ExprEscapes(c, way) {
        ExprReaches(ctx, c, d, at, i, way, k);
        NestsVia(ctx, S(s), ctx, E(c), k + 1);
      } else {
        var branch := if ListEscapes(thn, way) then thn else els;
        ListReaches(inner, branch, d, at, i, way, k);
        NestsVia(ctx, S(s), inner, L(branch), k + 1);
      }
    case While(name, c, body) =>
      var loop := Push(ctx, LoopScope(name));
      PassingPush(ctx, LoopScope(name), d, at, i, way);
      if ExprEscapes(c, way) {
        ExprReaches(loop, c, d, at, i, way, k);
        NestsVia(ctx, S(s), loop, E(c), k + 1);
      } else {
        PassingPush(loop, PLAIN, d, at, i, way);
        ListReaches(Push(loop, PLAIN), body, d, at, i, way, k);
        NestsVia(ctx, S(s), Push(loop, PLAIN), L(body), k + 1);
      }
    case Block(body) =>
      ListReaches(inner, body, d, at, i, way, k);
      NestsVia(ctx, S(s), inner, L(body), k + 1);
    case With(a, body) =>
      if ExprEscapes(a, way) {
        ExprReaches(ctx, a, d, at, i, way, k);
        NestsVia(ctx, S(s), ctx, E(a), k + 1);
      } else {
        var save := PLAIN.(save := Some(Temp(SavedAlloc, 0)));
        PassingPush(ctx, save, d, at, i, way);
        PassingPush(Push(ctx, save), PLAIN, d, at, i, way);
        ListReaches(Push(Push(ctx, save), PLAIN), body, d, at, i, way, k);
        NestsVia(ctx, S(s), Push(Push(ctx, save), PLAIN), L(body), k + 1);
      }
  }

  /** A list is written as its first statement, if that is not deferred, and its rest. */
  lemma ListWrites(ctx: Ctx, ss: Stmts)
    requires ss.Cons?
    ensures ss.head.Defer? && ctx.base < |ctx.scopes| ==> Writes(ctx, L(ss), Registered(ctx, ss.head.d), L(ss.tail))
    ensures !ss.head.Defer? ==> Writes(ctx, L(ss), ctx, S(ss.head)) && Writes(ctx, L(ss), ctx, L(ss.tail))
  {
  }

  lemma PassingOpen(ctx: Ctx, d: Deferred, at: nat, i: nat, way: Way)
    requires Passing(ctx, d, at, i, way)
    ensures ctx.base == 0 && at < |ctx.scopes|
  {
  }

  lemma {:induction false} ListReaches(ctx: Ctx, ss: Stmts, d: Deferred, at: nat, i: nat, way: Way, k: nat)
    requires Passing(ctx, d, at, i, way) && Deep(d, at, i, way, k) && ListEscapes(ss, way)
    ensures Nests(ctx, L(ss), k + 1)
    decreases ss
  {
    hide Nests, Deep, Writes, Passing, ScopesSize;
    ListWrites(ctx, ss);
    assert ctx.base == 0 && at < |ctx.scopes| by { PassingOpen(ctx, d, at, i, way); }
    var s := ss.head;
    if StmtEscapes(s, way) {
      StmtReaches(ctx, s, d, at, i, way, k);
      NestsVia(ctx, L(ss), ctx, S(s), k + 1);
    } else if s.Defer? {
      PassingRegister(ctx, s.d, d, at, i, way);
      ListReaches(Registered(ctx, s.d), ss.tail, d, at, i, way, k);
      NestsVia(ctx, L(ss), Registered(ctx, s.d), L(ss.tail), k + 1);
    } else {
      ListReaches(ctx, ss.tail, d, at, i, way, k);
      NestsVia(ctx, L(ss), ctx, L(ss.tail), k + 1);
    }
  }

  /** What leaves this way and is written when it does is written to any depth. */
  lemma {:induction false} WildNests(d: Deferred, at: nat, i: nat, way: Way, k: nat)
    requires StmtEscapes(d.what, way)
    ensures Deep(d, at, i, way, k)
    decreases k
  {
    hide Nests, StmtEscapes;
    if k > 0 { WildNests(d, at, i, way, k - 1); }
    forall ctx: Ctx | Passing(ctx, d, at, i, way) ensures Nests(ctx, S(d.what), k) {
      if k == 0 { NestsNone(ctx, S(d.what)); } else { StmtReaches(ctx, d.what, d, at, i, way, k - 1); }
    }
  }

  /** The end of a block writes what the block has deferred. */
  lemma {:induction false} EndReaches(ctx: Ctx, ss: Stmts, d: Deferred, i: nat, way: Way, k: nat)
    requires ctx.scopes != [] && Passing(ctx, d, |ctx.scopes| - 1, i, way) && !d.onFailure
    requires Deep(d, |ctx.scopes| - 1, i, way, k)
    ensures Nests(ctx, L(ss), k)
    decreases ss
  {
    hide Nests, ScopesSize;
    var at := |ctx.scopes| - 1;
    match ss
    case Nil =>
      assert Unwinds(ctx, at, false, S(d.what));
      NestsVia(ctx, L(ss), ctx, S(d.what), k);
    case Cons(s, rest) =>
      var after := if s.Defer? then Registered(ctx, s.d) else ctx;
      if s.Defer? { PassingRegister(ctx, s.d, d, at, i, way); }
      EndReaches(after, rest, d, i, way, k);
      NestsVia(ctx, L(ss), after, L(rest), k);
  }

  lemma {:induction false} EndlessExpr(ctx: Ctx, e: Expr, k: nat)
    requires Bounded(ctx) && ExprEndless(e)
    ensures Nests(ctx, E(e), k)
    decreases e, 0
  {
    hide Nests;
    match e
    case Call(_, arg) =>
      EndlessExpr(ctx, arg, k);
      NestsVia(ctx, E(e), ctx, E(arg), k);
    case Try(_, arg) =>
      EndlessExpr(ctx, arg, k);
      NestsVia(ctx, E(e), ctx, E(arg), k);
    case Catch(operand, _, handler) =>
      if ExprEndless(operand) {
        EndlessExpr(OperandCtx(ctx, 0), operand, k);
        NestsVia(ctx, E(e), OperandCtx(ctx, 0), E(operand), k);
      } else {
        var inner := Push(HandlerCtx(ctx, 0), PLAIN);
        EndlessList(inner, handler, k);
        NestsVia(ctx, E(e), inner, L(handler), k);
      }
  }

  lemma {:induction false} EndlessStmt(ctx: Ctx, s: Stmt, k: nat)
    requires Bounded(ctx) && StmtEndless(s) && !s.Defer?
    ensures Nests(ctx, S(s), k)
    decreases s
  {
    hide Nests, ScopesSize;
    var inner := Push(ctx, PLAIN);
    match s
    case If(c, thn, els) =>
      if ExprEndless(c) {
        EndlessExpr(ctx, c, k);
        NestsVia(ctx, S(s), ctx, E(c), k);
      } else {
        var branch := if ListEndless(thn) then thn else els;
        EndlessList(inner, branch, k);
        NestsVia(ctx, S(s), inner, L(branch), k);
      }
    case While(name, c, body) =>
      var loop := Push(ctx, LoopScope(name));
      if ExprEndless(c) {
        EndlessExpr(loop, c, k);
        NestsVia(ctx, S(s), loop, E(c), k);
      } else {
        EndlessList(Push(loop, PLAIN), body, k);
        NestsVia(ctx, S(s), Push(loop, PLAIN), L(body), k);
      }
    case Block(body) =>
      EndlessList(inner, body, k);
      NestsVia(ctx, S(s), inner, L(body), k);
    case With(a, body) =>
      if ExprEndless(a) {
        EndlessExpr(ctx, a, k);
        NestsVia(ctx, S(s), ctx, E(a), k);
      } else {
        var saving := Push(ctx, PLAIN.(save := Some(Temp(SavedAlloc, 0))));
        EndlessList(Push(saving, PLAIN), body, k);
        NestsVia(ctx, S(s), Push(saving, PLAIN), L(body), k);
      }
    case ExprStmt(e) => EndlessPart(ctx, s, e, k);
    case Assign(_, e) => EndlessPart(ctx, s, e, k);
    case SetAllocator(e) => EndlessPart(ctx, s, e, k);
    case Return(e) => EndlessPart(ctx, s, e, k);
    case Error(e) => EndlessPart(ctx, s, e, k);
    case Recover(e) => EndlessPart(ctx, s, e, k);
  }

  lemma {:induction false} EndlessPart(ctx: Ctx, s: Stmt, e: Expr, k: nat)
    requires Bounded(ctx) && ExprEndless(e) && Writes(ctx, S(s), ctx, E(e))
    ensures Nests(ctx, S(s), k)
    decreases e, 1
  {
    hide Nests, Writes;
    EndlessExpr(ctx, e, k);
    NestsVia(ctx, S(s), ctx, E(e), k);
  }

  lemma {:induction false} EndlessList(ctx: Ctx, ss: Stmts, k: nat)
    requires InBlock(ctx) && ListEndless(ss)
    ensures Nests(ctx, L(ss), k)
    decreases ss
  {
    hide Nests, ScopesSize;
    var s, rest := ss.head, ss.tail;
    var after := if s.Defer? then Registered(ctx, s.d) else ctx;
    if ListEndless(rest) {
      EndlessList(after, rest, k);
      NestsVia(ctx, L(ss), after, L(rest), k);
    } else if s.Defer? {
      EndlessDefer(ctx, s.d, rest, k);
      NestsVia(ctx, L(ss), after, L(rest), k);
    } else {
      EndlessStmt(ctx, s, k);
      NestsVia(ctx, L(ss), ctx, S(s), k);
    }
  }

  lemma {:induction false} EndlessDefer(ctx: Ctx, d: Deferred, rest: Stmts, k: nat)
    requires InBlock(ctx) && DeferEndless(d) && Written(d, rest)
    ensures Nests(Registered(ctx, d), L(rest), k)
    decreases d
  {
    hide Nests, StmtEscapes, StmtEndless, ScopesSize;
    var after, at := Registered(ctx, d), |ctx.scopes| - 1;
    var i := |ctx.scopes[at].defers|;
    assert after.scopes[at].defers[i] == d;
    var way := ByFailure;
    if Wild(d) {
      if !d.onFailure { way :| StmtEscapes(d.what, way); }
      WildNests(d, at, i, way, k);
    } else {
      forall c: Ctx | Passing(c, d, at, i, way) ensures Nests(c, S(d.what), k) { EndlessStmt(c, d.what, k); }
    }
    TargetRegister(ctx, d, way);
    TargetBelow(ctx, way);
    if d.onFailure {
      ListReaches(after, rest, d, at, i, way, k);
      NestsFewer(after, L(rest), k);
    } else {
      EndReaches(after, rest, d, i, way, k);
    }
  }

  lemma TargetBelow(ctx: Ctx, way: Way)
    requires InBlock(ctx)
    ensures Target(ctx, way) < |ctx.scopes|
  {
    if way.ByJump? { JumpBelow(ctx.scopes, way.name); }
  }

  lemma {:induction false} JumpBelow(scopes: seq<Scope>, name: string)
    requires scopes != []
    ensures JumpScope(scopes, name) < |scopes|
    decreases |scopes|
  {
    if |scopes| > 1 { JumpBelow(scopes[..|scopes| - 1], name); }
  }

  // ----- to an end -----

  /** An `errdefer` inside something deferred, in its `text`, does not leave.  In a deferred suite
      the checker refuses `errdefer` altogether. */
  ghost predicate ExprSane(e: Expr, text: bool) {
    match e
    case Lit(_) => true
    case Name(_) => true
    case Call(_, arg) => ExprSane(arg, text)
    case Try(_, arg) => ExprSane(arg, text)
    case Catch(operand, _, handler) => ExprSane(operand, text) && ListSane(handler, text)
  }

  ghost predicate StmtSane(s: Stmt, text: bool) {
    match s
    case If(c, thn, els) => ExprSane(c, text) && ListSane(thn, text) && ListSane(els, text)
    case While(_, c, body) => ExprSane(c, text) && ListSane(body, text)
    case Block(body) => ListSane(body, text)
    case With(a, body) => ExprSane(a, text) && ListSane(body, text)
    case ReturnUnit => true
    case Break(_) => true
    case Continue(_) => true
    case Defer(d) => (text && d.onFailure ==> !Leaves(d.what)) && DeferSane(d)
    case Return(e) => ExprSane(e, text)
    case Error(e) => ExprSane(e, text)
    case Recover(e) => ExprSane(e, text)
    case ExprStmt(e) => ExprSane(e, text)
    case Assign(_, e) => ExprSane(e, text)
    case SetAllocator(e) => ExprSane(e, text)
  }

  ghost predicate DeferSane(d: Deferred) { StmtSane(d.what, true) }

  ghost predicate ListSane(ss: Stmts, text: bool) { ss.Cons? ==> StmtSane(ss.head, text) && ListSane(ss.tail, text) }

  ghost predicate Sane(x: Node, text: bool) {
    match x
    case E(e) => ExprSane(e, text)
    case S(s) => StmtSane(s, text)
    case L(ss) => ListSane(ss, text)
  }

  /** Written, it comes to an end. */
  ghost predicate Tame(d: Deferred) { !DeferEndless(d) && DeferSane(d) }

  /** Writing `x` is under control: other exits than failures stay at `low` or above, failures at
      `high` or above, and what they can write is tame.  A text of something deferred has its
      `high` where it began. */
  ghost predicate Safe(ctx: Ctx, x: Node, low: nat, high: nat) {
    && Bounded(ctx) && low <= high <= |ctx.scopes| && (x.L? ==> high < |ctx.scopes|)
    && !Endless(x) && Sane(x, high > 0)
    && (Escapes(x, ByFailure) ==> high <= Target(ctx, ByFailure) && FailuresTame(ctx))
    && (forall way :: way != ByFailure && Escapes(x, way) ==> low <= Target(ctx, way))
    && PlainTame(ctx, low) && (high > 0 ==> ErrdefersStay(ctx, high))
  }

  ghost predicate FailuresTame(ctx: Ctx) {
    forall at, i :: Target(ctx, ByFailure) <= at < |ctx.scopes| && 0 <= i < |ctx.scopes[at].defers| ==>
      (ctx.scopes[at].defers[i].onFailure ==> Tame(ctx.scopes[at].defers[i]))
  }

  ghost predicate PlainTame(ctx: Ctx, low: nat) {
    forall at, i :: low <= at < |ctx.scopes| && 0 <= i < |ctx.scopes[at].defers| ==>
      (!ctx.scopes[at].defers[i].onFailure ==> Tame(ctx.scopes[at].defers[i]))
  }

  ghost predicate ErrdefersStay(ctx: Ctx, high: nat) {
    forall at, i :: high <= at < |ctx.scopes| && 0 <= i < |ctx.scopes[at].defers| ==>
      (ctx.scopes[at].defers[i].onFailure ==> !Leaves(ctx.scopes[at].defers[i].what))
  }

  function NodeSize(x: Node): nat {
    match x
    case E(e) => ExprSize(e)
    case S(s) => StmtSize(s)
    case L(ss) => ListSize(ss)
  }

  /** The size of what `defer` alone has deferred. */
  function PlainDefers(ds: seq<Deferred>): nat {
    if ds == [] then 0
    else PlainDefers(ds[..|ds| - 1]) + (if ds[|ds| - 1].onFailure then 0 else DeferSize(ds[|ds| - 1]))
  }

  /** In the first `high` scopes, from `low` on. */
  function PlainSize(scopes: seq<Scope>, low: nat, high: nat): nat
    requires high <= |scopes|
    decreases high
  {
    if high <= low then 0 else PlainSize(scopes, low, high - 1) + PlainDefers(scopes[high - 1].defers)
  }

  /** What is left to write falls at every call. */
  function Weight(ctx: Ctx, x: Node, low: nat, high: nat): nat
    requires high <= |ctx.scopes|
  {
    ScopesSize(ctx.scopes, high) + NodeSize(x) + PlainSize(ctx.scopes, low, high)
  }

  lemma {:induction false} PlainPart(ds: seq<Deferred>, i: nat)
    requires i < |ds|
    ensures PlainDefers(ds) + (if ds[i].onFailure then DeferSize(ds[i]) else 0) <= DefersSize(ds)
    ensures !ds[i].onFailure ==> DeferSize(ds[i]) <= PlainDefers(ds)
    decreases |ds|
  {
    if i < |ds| - 1 { PlainPart(ds[..|ds| - 1], i); } else { PlainFits(ds[..|ds| - 1]); }
  }

  lemma {:induction false} PlainFits(ds: seq<Deferred>)
    ensures PlainDefers(ds) <= DefersSize(ds)
    decreases |ds|
  {
    if ds != [] { PlainFits(ds[..|ds| - 1]); }
  }

  lemma {:induction false} PlainWithin(scopes: seq<Scope>, low: nat, high: nat, at: nat, i: nat)
    requires low <= at < high <= |scopes| && i < |scopes[at].defers| && !scopes[at].defers[i].onFailure
    ensures DeferSize(scopes[at].defers[i]) <= PlainSize(scopes, low, high)
    decreases high
  {
    if at < high - 1 { PlainWithin(scopes, low, high - 1, at, i); } else { PlainPart(scopes[at].defers, i); }
  }

  /** From `high` on, everything deferred weighs at least the plain of it, and an `errdefer` among
      them more. */
  lemma {:induction false} PlainBelow(scopes: seq<Scope>, low: nat, high: nat, n: nat)
    requires low <= high <= n <= |scopes|
    ensures PlainSize(scopes, low, n) <= PlainSize(scopes, low, high) + ScopesSize(scopes[..n], high)
    decreases n
  {
    if high < n {
      PlainBelow(scopes, low, high, n - 1);
      assert scopes[..n][..n - 1] == scopes[..n - 1];
      PlainFits(scopes[n - 1].defers);
    }
  }

  lemma {:induction false} PlainBeside(scopes: seq<Scope>, low: nat, high: nat, at: nat, i: nat, n: nat)
    requires low <= high <= at < n <= |scopes| && i < |scopes[at].defers| && scopes[at].defers[i].onFailure
    ensures PlainSize(scopes, low, n) + DeferSize(scopes[at].defers[i])
         <= PlainSize(scopes, low, high) + ScopesSize(scopes[..n], high)
    decreases n
  {
    assert scopes[..n][..n - 1] == scopes[..n - 1];
    if at < n - 1 {
      PlainBeside(scopes, low, high, at, i, n - 1);
      PlainFits(scopes[n - 1].defers);
    } else {
      PlainBelow(scopes, low, high, n - 1);
      PlainPart(scopes[at].defers, i);
    }
  }

  lemma {:induction false} PlainSame(a: seq<Scope>, b: seq<Scope>, low: nat, high: nat)
    requires high <= |a| && high <= |b| && a[..high] == b[..high]
    ensures PlainSize(a, low, high) == PlainSize(b, low, high)
    decreases high
  {
    if low < high {
      assert a[..high - 1] == a[..high][..high - 1] && b[..high - 1] == b[..high][..high - 1];
      assert a[high - 1] == a[..high][high - 1] && b[high - 1] == b[..high][high - 1];
      PlainSame(a, b, low, high - 1);
    }
  }

  /** Something tame that is written: a text of its own, and less than there was. */
  lemma DeferredStep(ctx: Ctx, x: Node, low: nat, high: nat, at: nat, i: nat) returns (low': nat, high': nat)
    requires Safe(ctx, x, low, high) && low <= at < |ctx.scopes| && i < |ctx.scopes[at].defers|
    requires Tame(ctx.scopes[at].defers[i]) && (ctx.scopes[at].defers[i].onFailure ==> high <= at)
    ensures
      var y := S(ctx.scopes[at].defers[i].what);
      Safe(ctx, y, low', high') && Weight(ctx, y, low', high') < Weight(ctx, x, low, high)
  {
    hide StmtEscapes, StmtEndless, StmtSane, ExprEscapes, ListEscapes, ExprEndless, ListEndless;
    var scopes, n, d := ctx.scopes, |ctx.scopes|, ctx.scopes[at].defers[i];
    high' := n;
    low' := if d.onFailure && high == 0 then low else n;
    assert scopes[..n] == scopes;
    assert ScopesSize(scopes, n) == 0;
    if d.onFailure && high == 0 {
      PlainBeside(scopes, low, high, at, i, n);
    } else {
      if at < high { PlainWithin(scopes, low, high, at, i); } else { PartOfScopes(scopes, high, at, i); }
      assert !Leaves(d.what);
    }
  }

  /** No more is deferred, and scopes are only added. */
  predicate Deeper(ctx: Ctx, ctx': Ctx) {
    && |ctx.scopes| <= |ctx'.scopes| && ctx'.scopes[..|ctx.scopes|] == ctx.scopes
    && forall at :: |ctx.scopes| <= at < |ctx'.scopes| ==> ctx'.scopes[at].defers == []
  }

  /** The ways out of a part are ways out of the whole, or stop at what is new. */
  predicate Inside(ctx: Ctx, x: Node, ctx': Ctx, y: Node, way: Way) {
    Escapes(y, way) ==> (Escapes(x, way) && Target(ctx', way) == Target(ctx, way)) || Target(ctx', way) >= |ctx.scopes|
  }

  lemma {:induction false} DeeperSize(a: seq<Scope>, b: seq<Scope>, high: nat)
    requires high <= |a| <= |b| && b[..|a|] == a && forall at :: |a| <= at < |b| ==> b[at].defers == []
    ensures ScopesSize(b, high) == ScopesSize(a, high)
    decreases |b|
  {
    if |a| < |b| {
      var c := b[..|b| - 1];
      assert c[..|a|] == b[..|a|];
      DeeperSize(a, c, high);
    } else {
      assert a == b;
    }
  }

  /** A part of `x`, written in its place. */
  lemma Descend(ctx: Ctx, x: Node, low: nat, high: nat, ctx': Ctx, y: Node)
    requires Safe(ctx, x, low, high) && Bounded(ctx') && Deeper(ctx, ctx') && (y.L? ==> high < |ctx'.scopes|)
    requires !Endless(y) && Sane(y, high > 0) && NodeSize(y) < NodeSize(x)
    requires forall way :: Inside(ctx, x, ctx', y, way)
    ensures Safe(ctx', y, low, high) && Weight(ctx', y, low, high) < Weight(ctx, x, low, high)
  {
    hide Endless, Sane, Escapes, NodeSize, Tame, ScopesSize, PlainSize;
    DeeperSize(ctx.scopes, ctx'.scopes, high);
    assert ctx'.scopes[..high] == ctx'.scopes[..|ctx.scopes|][..high];
    PlainSame(ctx.scopes, ctx'.scopes, low, high);
    assert forall at :: 0 <= at < |ctx.scopes| ==> ctx'.scopes[at] == ctx'.scopes[..|ctx.scopes|][at];
    assert Inside(ctx, x, ctx', y, ByFailure);
    forall way | way != ByFailure && Escapes(y, way) ensures low <= Target(ctx', way) {
      assert Inside(ctx, x, ctx', y, way);
    }
  }

  lemma PushedDeeper(ctx: Ctx, sc: Scope)
    requires Bounded(ctx) && sc.defers == []
    ensures Bounded(Push(ctx, sc)) && Deeper(ctx, Push(ctx, sc))
  {
  }

  /** A part under one scope more: jumps to it stop there. */
  lemma DescendPush(ctx: Ctx, x: Node, low: nat, high: nat, base: Ctx, sc: Scope, y: Node)
    requires Safe(ctx, x, low, high) && Bounded(base) && base.scopes == ctx.scopes && sc.defers == []
    requires !Endless(y) && Sane(y, high > 0) && NodeSize(y) < NodeSize(x)
    requires forall way :: Inside(ctx, x, base, y, way) || !Through(sc, way)
    ensures Safe(Push(base, sc), y, low, high) && Weight(Push(base, sc), y, low, high) < Weight(ctx, x, low, high)
  {
    hide Endless, Sane, Escapes, NodeSize, Safe, Weight;
    forall way ensures Inside(ctx, x, Push(base, sc), y, way) { TargetPush(base, sc, way); }
    assert high <= |ctx.scopes| by { SafeHigh(ctx, x, low, high); }
    Descend(ctx, x, low, high, Push(base, sc), y);
  }

  lemma SafeHigh(ctx: Ctx, x: Node, low: nat, high: nat)
    requires Safe(ctx, x, low, high)
    ensures high <= |ctx.scopes| && Bounded(ctx)
  {
  }

  // ----- one call -----

  /** Under control, and less than before. */
  ghost predicate Falls(ctx: Ctx, x: Node, low: nat, high: nat, ctx': Ctx, y: Node, low': nat, high': nat)
    requires high <= |ctx.scopes|
  {
    Safe(ctx', y, low', high') && Weight(ctx', y, low', high') < Weight(ctx, x, low, high)
  }

  lemma ExitStep(ctx: Ctx, x: Node, low: nat, high: nat, way: Way, y: Node) returns (low': nat, high': nat)
    requires Safe(ctx, x, low, high) && Escapes(x, way) && Exits(ctx, way, y)
    ensures Falls(ctx, x, low, high, ctx, y, low', high')
  {
    hide Endless, Sane, Escapes, Tame;
    var from := Target(ctx, way);
    var at, i :| from <= at < |ctx.scopes| && 0 <= i < |ctx.scopes[at].defers|
      && (way == ByFailure || !ctx.scopes[at].defers[i].onFailure) && y == S(ctx.scopes[at].defers[i].what);
    low', high' := DeferredStep(ctx, x, low, high, at, i);
  }

  lemma EndStep(ctx: Ctx, low: nat, high: nat, y: Node) returns (low': nat, high': nat)
    requires Safe(ctx, L(Nil), low, high) && Unwinds(ctx, |ctx.scopes| - 1, false, y)
    ensures Falls(ctx, L(Nil), low, high, ctx, y, low', high')
  {
    hide Endless, Sane, Escapes, Tame;
    var at, i :| |ctx.scopes| - 1 <= at < |ctx.scopes| && 0 <= i < |ctx.scopes[at].defers|
      && !ctx.scopes[at].defers[i].onFailure && y == S(ctx.scopes[at].defers[i].what);
    low', high' := DeferredStep(ctx, L(Nil), low, high, at, i);
  }

  lemma DeeperSelf(ctx: Ctx)
    ensures Deeper(ctx, ctx)
  {
  }

  /** A part written in the same state. */
  lemma PartStep(ctx: Ctx, x: Node, low: nat, high: nat, y: Node)
    requires Safe(ctx, x, low, high) && (y.L? ==> x.L?)
    requires !Endless(y) && Sane(y, high > 0) && NodeSize(y) < NodeSize(x) && forall way :: Escapes(y, way) ==> Escapes(x, way)
    ensures Falls(ctx, x, low, high, ctx, y, low, high)
  {
    hide Endless, Sane, Escapes, NodeSize, Tame, Weight;
    DeeperSelf(ctx);
    Descend(ctx, x, low, high, ctx, y);
  }

  lemma ExprStep(ctx: Ctx, e: Expr, low: nat, high: nat, ctx': Ctx, y: Node) returns (low': nat, high': nat)
    requires Safe(ctx, E(e), low, high) && Writes(ctx, E(e), ctx', y)
    ensures Falls(ctx, E(e), low, high, ctx', y, low', high')
  {
    hide Safe, Weight;
    SafeHigh(ctx, E(e), low, high);
    SafeNode(ctx, E(e), low, high);
    low', high' := low, high;
    match e
    case Call(_, arg) => PartStep(ctx, E(e), low, high, y);
    case Try(_, arg) =>
      if y == E(arg) {
        PartStep(ctx, E(e), low, high, y);
      } else {
        low', high' := ExitStep(ctx, E(e), low, high, ByFailure, y);
      }
    case Catch(operand, _, handler) =>
      if y == E(operand) {
        var n :| ctx' == OperandCtx(ctx, n) && y == E(operand);
        OperandStep(ctx, e, low, high, n);
      } else {
        var n :| ctx' == Push(HandlerCtx(ctx, n), PLAIN) && y == L(handler);
        HandlerStep(ctx, e, low, high, n);
      }
  }

  /** The operand of a `catch`: its failures stop at the handler. */
  lemma OperandStep(ctx: Ctx, e: Expr, low: nat, high: nat, n: nat)
    requires Safe(ctx, E(e), low, high) && e.Catch?
    ensures high <= |ctx.scopes| && Falls(ctx, E(e), low, high, OperandCtx(ctx, n), E(e.operand), low, high)
  {
    hide ScopesSize, Safe, Weight, ListEscapes;
    SafeHigh(ctx, E(e), low, high);
    SafeNode(ctx, E(e), low, high);
    var inner := OperandCtx(ctx, n);
    DeeperSelf(ctx);
    forall way ensures Inside(ctx, E(e), inner, E(e.operand), way) {
      if way == ByFailure { assert Target(inner, way) == |ctx.scopes|; }
    }
    Descend(ctx, E(e), low, high, inner, E(e.operand));
  }

  /** The handler: its `recover`s stop at the `catch`. */
  lemma HandlerStep(ctx: Ctx, e: Expr, low: nat, high: nat, n: nat)
    requires Safe(ctx, E(e), low, high) && e.Catch?
    ensures high <= |ctx.scopes| && ctx.base == 0
    ensures Falls(ctx, E(e), low, high, Push(HandlerCtx(ctx, n), PLAIN), L(e.handler), low, high)
  {
    hide ScopesSize, Safe, Weight, ListEscapes;
    SafeHigh(ctx, E(e), low, high);
    SafeNode(ctx, E(e), low, high);
    var inner := HandlerCtx(ctx, n);
    forall way ensures Inside(ctx, E(e), inner, L(e.handler), way) {
      if way == ByRecover { assert Target(inner, way) == |ctx.scopes|; }
    }
    DescendPush(ctx, E(e), low, high, inner, PLAIN, L(e.handler));
  }

  lemma SafeNode(ctx: Ctx, x: Node, low: nat, high: nat)
    requires Safe(ctx, x, low, high)
    ensures !Endless(x) && Sane(x, high > 0) && (x.L? ==> high < |ctx.scopes|)
  {
  }

  lemma StmtStep(ctx: Ctx, s: Stmt, low: nat, high: nat, ctx': Ctx, y: Node) returns (low': nat, high': nat)
    requires Safe(ctx, S(s), low, high) && Writes(ctx, S(s), ctx', y)
    ensures Falls(ctx, S(s), low, high, ctx', y, low', high')
  {
    hide Safe, Weight;
    SafeHigh(ctx, S(s), low, high);
    SafeNode(ctx, S(s), low, high);
    low', high' := low, high;
    match s
    case If(_, _, _) => CompoundStep(ctx, s, low, high, ctx', y);
    case While(_, _, _) => CompoundStep(ctx, s, low, high, ctx', y);
    case Block(_) => CompoundStep(ctx, s, low, high, ctx', y);
    case With(_, _) => CompoundStep(ctx, s, low, high, ctx', y);
    case ReturnUnit => low', high' := ExitStep(ctx, S(s), low, high, ByReturn, y);
    case Break(name) => low', high' := ExitStep(ctx, S(s), low, high, ByJump(name), y);
    case Continue(name) => low', high' := ExitStep(ctx, S(s), low, high, ByJump(name), y);
    case ExprStmt(_) => PartStep(ctx, S(s), low, high, y);
    case Assign(_, _) => PartStep(ctx, S(s), low, high, y);
    case SetAllocator(_) => PartStep(ctx, S(s), low, high, y);
    case Return(e) =>
      if y == E(e) { PartStep(ctx, S(s), low, high, y); } else { low', high' := ExitStep(ctx, S(s), low, high, ByReturn, y); }
    case Error(e) =>
      if y == E(e) { PartStep(ctx, S(s), low, high, y); } else { low', high' := ExitStep(ctx, S(s), low, high, ByFailure, y); }
    case Recover(e) =>
      if y == E(e) { PartStep(ctx, S(s), low, high, y); } else { low', high' := ExitStep(ctx, S(s), low, high, ByRecover, y); }
  }

  lemma CompoundStep(ctx: Ctx, s: Stmt, low: nat, high: nat, ctx': Ctx, y: Node)
    requires Safe(ctx, S(s), low, high) && Writes(ctx, S(s), ctx', y) && (s.If? || s.While? || s.Block? || s.With?)
    ensures high <= |ctx.scopes| && Falls(ctx, S(s), low, high, ctx', y, low, high)
  {
    hide ScopesSize, Safe, Weight;
    SafeHigh(ctx, S(s), low, high);
    SafeNode(ctx, S(s), low, high);
    match s
    case If(c, thn, els) =>
      if y == E(c) {
        PartStep(ctx, S(s), low, high, y);
      } else {
        DescendPush(ctx, S(s), low, high, ctx, PLAIN, y);
      }
    case While(_, _, _) => LoopStep(ctx, s, low, high, ctx', y);
    case Block(_) => DescendPush(ctx, S(s), low, high, ctx, PLAIN, y);
    case With(a, body) =>
      if y == E(a) {
        PartStep(ctx, S(s), low, high, y);
      } else {
        var t :| ctx' == Push(Push(ctx, PLAIN.(save := Some(t))), PLAIN) && y == L(body);
        TwoScopes(ctx, S(s), low, high, PLAIN.(save := Some(t)), y);
      }
  }

  lemma LoopStep(ctx: Ctx, s: Stmt, low: nat, high: nat, ctx': Ctx, y: Node)
    requires Safe(ctx, S(s), low, high) && Writes(ctx, S(s), ctx', y) && s.While?
    ensures high <= |ctx.scopes| && Falls(ctx, S(s), low, high, ctx', y, low, high)
  {
    hide ScopesSize, Safe, Weight;
    SafeHigh(ctx, S(s), low, high);
    SafeNode(ctx, S(s), low, high);
    if y == E(s.cond) {
      DescendPush(ctx, S(s), low, high, ctx, LoopScope(s.loopName), y);
    } else {
      TwoScopes(ctx, S(s), low, high, LoopScope(s.loopName), y);
    }
  }

  /** A block under a scope of its statement's own. */
  lemma TwoScopes(ctx: Ctx, x: Node, low: nat, high: nat, sc: Scope, y: Node)
    requires Safe(ctx, x, low, high) && sc.defers == [] && y.L?
    requires !Endless(y) && Sane(y, high > 0) && NodeSize(y) < NodeSize(x)
    requires forall way :: Through(sc, way) && Escapes(y, way) ==> Escapes(x, way)
    ensures high <= |ctx.scopes| && Well(ctx) && Falls(ctx, x, low, high, Push(Push(ctx, sc), PLAIN), y, low, high)
  {
    hide Endless, Sane, Escapes, NodeSize, Safe, Weight;
    SafeHigh(ctx, x, low, high);
    var mid := Push(ctx, sc);
    var ctx' := Push(mid, PLAIN);
    PushedDeeper(ctx, sc);
    PushedDeeper(mid, PLAIN);
    assert ctx'.scopes[..|ctx.scopes|] == ctx'.scopes[..|mid.scopes|][..|ctx.scopes|];
    assert ctx'.scopes[|ctx.scopes|] == mid.scopes[|ctx.scopes|];
    forall way ensures Inside(ctx, x, ctx', y, way) {
      TargetPush(ctx, sc, way);
      TargetPush(mid, PLAIN, way);
    }
    Descend(ctx, x, low, high, ctx', y);
  }

  lemma ListStep(ctx: Ctx, ss: Stmts, low: nat, high: nat, ctx': Ctx, y: Node) returns (low': nat, high': nat)
    requires Safe(ctx, L(ss), low, high) && Writes(ctx, L(ss), ctx', y)
    ensures Falls(ctx, L(ss), low, high, ctx', y, low', high')
  {
    hide Safe, Weight;
    SafeHigh(ctx, L(ss), low, high);
    SafeNode(ctx, L(ss), low, high);
    low', high' := low, high;
    match ss
    case Nil => low', high' := EndStep(ctx, low, high, y);
    case Cons(s, rest) =>
      if s.Defer? {
        RegisterStep(ctx, s.d, rest, low, high);
      } else {
        PartStep(ctx, L(ss), low, high, y);
      }
  }

  lemma RegisterStep(ctx: Ctx, d: Deferred, rest: Stmts, low: nat, high: nat)
    requires Safe(ctx, L(Cons(Defer(d), rest)), low, high)
    ensures high <= |ctx.scopes| && ctx.base < |ctx.scopes|
    ensures Falls(ctx, L(Cons(Defer(d), rest)), low, high, Registered(ctx, d), L(rest), low, high)
  {
    hide ScopesSize, PlainSize;
    var n, after := |ctx.scopes| - 1, Registered(ctx, d);
    forall way ensures Target(after, way) == Target(ctx, way) { TargetRegister(ctx, d, way); }
    assert after.scopes[..high] == ctx.scopes[..high];
    PlainSame(ctx.scopes, after.scopes, low, high);
    RegisteredSize(ctx, d, high);
    assert after.scopes[n].defers == ctx.scopes[n].defers + [d];
    RestOf(d, rest, high > 0);
    assert forall way :: Escapes(L(rest), way) ==> Escapes(L(Cons(Defer(d), rest)), way);
    assert Bounded(after);
    assert PlainTame(after, low);
    assert high > 0 ==> ErrdefersStay(after, high);
    assert Escapes(L(rest), ByFailure) ==> FailuresTame(after);
    assert Safe(after, L(rest), low, high);
    assert StmtSize(Defer(d)) == 1 + DeferSize(d);
    assert NodeSize(L(Cons(Defer(d), rest))) == 2 + DeferSize(d) + NodeSize(L(rest));
  }

  lemma RestOf(d: Deferred, rest: Stmts, text: bool)
    requires !ListEndless(Cons(Defer(d), rest)) && ListSane(Cons(Defer(d), rest), text)
    ensures !ListEndless(rest) && ListSane(rest, text) && (text && d.onFailure ==> !Leaves(d.what))
    ensures Written(d, rest) ==> Tame(d)
  {
    assert StmtEndless(Defer(d)) == DeferEndless(d);
  }

  lemma RegisteredSize(ctx: Ctx, d: Deferred, high: nat)
    requires ctx.base < |ctx.scopes| && high < |ctx.scopes|
    ensures ScopesSize(Registered(ctx, d).scopes, high) == ScopesSize(ctx.scopes, high) + DeferSize(d)
  {
    var n, after := |ctx.scopes| - 1, Registered(ctx, d);
    assert after.scopes[..n] == ctx.scopes[..n];
    var ds := ctx.scopes[n].defers;
    assert after.scopes[n].defers == ds + [d];
    assert (ds + [d])[..|ds|] == ds;
  }

  /** No deeper than its weight. */
  lemma {:induction false} SafeEnds(ctx: Ctx, x: Node, low: nat, high: nat, k: nat)
    requires Safe(ctx, x, low, high) && Nests(ctx, x, k)
    ensures high <= |ctx.scopes| && k <= Weight(ctx, x, low, high)
    decreases k
  {
    hide Safe, Weight, Writes;
    SafeHigh(ctx, x, low, high);
    if k > 0 {
      var ctx': Ctx, y: Node :| Writes(ctx, x, ctx', y) && Nests(ctx', y, k - 1);
      var low', high' := NodeStep(ctx, x, low, high, ctx', y);
      SafeEnds(ctx', y, low', high', k - 1);
    }
  }

  lemma NodeStep(ctx: Ctx, x: Node, low: nat, high: nat, ctx': Ctx, y: Node) returns (low': nat, high': nat)
    requires Safe(ctx, x, low, high) && Writes(ctx, x, ctx', y)
    ensures Falls(ctx, x, low, high, ctx', y, low', high')
  {
    hide Safe, Weight, Writes, Falls;
    match x
    case E(e) => low', high' := ExprStep(ctx, e, low, high, ctx', y);
    case S(s) => low', high' := StmtStep(ctx, s, low, high, ctx', y);
    case L(ss) => low', high' := ListStep(ctx, ss, low, high, ctx', y);
  }

  /** The emitter never finishes with a function exactly when something wild is deferred in it and
      written. */
  lemma NeverEndsIffEndless(body: Stmts)
    requires ListSane(body, false)
    ensures NeverEnds(Push(TOP, PLAIN), L(body)) <==> ListEndless(body)
  {
    hide Nests;
    var ctx := Push(TOP, PLAIN);
    if ListEndless(body) {
      forall k: nat ensures Nests(ctx, L(body), k) { EndlessList(ctx, body, k); }
    } else {
      assert Safe(ctx, L(body), 0, 0);
      var k := Weight(ctx, L(body), 0, 0) + 1;
      if Nests(ctx, L(body), k) { SafeEnds(ctx, L(body), 0, 0, k); }
      assert !Nests(ctx, L(body), k);
    }
  }

  // ----- inputs -----

  lemma EndlessNeverEnds(ctx: Ctx, ss: Stmts)
    requires InBlock(ctx) && ListEndless(ss)
    ensures NeverEnds(ctx, L(ss))
  {
    hide Nests;
    forall k: nat ensures Nests(ctx, L(ss), k) { EndlessList(ctx, ss, k); }
  }

  /** `defer try f()` in a fallible function: accepted, and never written to the end. */
  lemma DeferTryNeverEnds(f: nat, rest: Stmts)
    ensures
      var d := Deferred(ExprStmt(Try(f, Lit(0))), false);
      && DeferOk(d, Body(false)) && !DeferOk(d, Body(true))
      && NeverEnds(Push(TOP, PLAIN), L(Cons(Defer(d), rest)))
  {
    var d, e := Deferred(ExprStmt(Try(f, Lit(0))), false), Try(f, Lit(0));
    TryLeaves(e, Body(false));
    assert StmtOk(d.what, Body(false)) && !StmtOk(d.what, SEALED);
    assert StmtEscapes(d.what, ByFailure);
    WildList(Push(TOP, PLAIN), d, rest);
  }

  lemma TryLeaves(e: Expr, p: Place)
    requires e.Try? && e.arg.Lit? && p.mayFail
    ensures ExprOk(e, p) && !ExprOk(e, SEALED)
  {
  }

  lemma WildList(ctx: Ctx, d: Deferred, rest: Stmts)
    requires InBlock(ctx) && Wild(d) && Written(d, rest)
    ensures ListEndless(Cons(Defer(d), rest)) && NeverEnds(ctx, L(Cons(Defer(d), rest)))
  {
    assert StmtEndless(Defer(d));
    EndlessNeverEnds(ctx, Cons(Defer(d), rest));
  }

  /** `recover` in something deferred in a handler: accepted too. */
  lemma DeferRecoverNeverEnds(n: nat, rest: Stmts)
    ensures
      var d := Deferred(Block(Cons(Recover(Lit(0)), Nil)), false);
      var p := Body(false).(inCatch := true);
      && DeferOk(d, p) && !DeferOk(d, p.(strict := true))
      && NeverEnds(Push(HandlerCtx(Push(TOP, PLAIN), n), PLAIN), L(Cons(Defer(d), rest)))
  {
    hide ScopesSize;
    var d := Deferred(Block(Recovers(0)), false);
    RecoversOk(0);
    assert StmtEscapes(d.what, ByRecover);
    hide StmtEscapes, ListEscapes, NeverEnds;
    WildList(Push(HandlerCtx(Push(TOP, PLAIN), n), PLAIN), d, rest);
  }

  function Recovers(n: nat): Stmts { Cons(Recover(Lit(n)), Nil) }

  lemma RecoversOk(n: nat)
    ensures StmtsOk(Recovers(n), Place({}, false, true, false, false, false)) && !StmtsOk(Recovers(n), SEALED)
    ensures ListEscapes(Recovers(n), ByRecover) && !ListEscapes(Recovers(n), ByFailure)
    ensures !ListEndless(Recovers(n)) && ListSane(Recovers(n), true)
  {
    var s := Recover(Lit(n));
    assert StmtOk(s, Place({}, false, true, false, false, false)) && !StmtOk(s, SEALED);
    assert StmtEscapes(s, ByRecover) && !StmtEscapes(s, ByFailure);
    assert !StmtEndless(s) && StmtSane(s, true);
  }

  /** `errdefer try f()` and then `error(1)`: accepted, and never written to the end. */
  lemma ErrdeferTryNeverEnds(f: nat)
    ensures
      var d, rest := Deferred(ExprStmt(Try(f, Lit(0))), true), Cons(Error(Lit(1)), Nil);
      && StmtsOk(Cons(Defer(d), rest), Body(false))
      && NeverEnds(Push(TOP, PLAIN), L(Cons(Defer(d), rest)))
  {
    var d, rest := Deferred(ExprStmt(Try(f, Lit(0))), true), Cons(Error(Lit(1)), Nil);
    TryLeaves(Try(f, Lit(0)), Body(false));
    assert StmtOk(d.what, Body(false)) && DeferOk(d, Body(false)) && StmtOk(Defer(d), Body(false));
    assert StmtOk(rest.head, Body(false)) && StmtsOk(rest, Body(false));
    assert StmtEscapes(d.what, ByFailure) && StmtEscapes(rest.head, ByFailure);
    WildList(Push(TOP, PLAIN), d, rest);
  }

  /** The same `errdefer` where nothing fails is never written, and the emitter ends. */
  lemma UnusedErrdeferEnds(f: nat)
    ensures
      var body := Cons(Defer(Deferred(ExprStmt(Try(f, Lit(0))), true)), Nil);
      !NeverEnds(Push(TOP, PLAIN), L(body))
  {
    var d := Deferred(ExprStmt(Try(f, Lit(0))), true);
    var body := Cons(Defer(d), Nil);
    assert ExprSane(Try(f, Lit(0)), true) && StmtSane(d.what, true) && StmtSane(Defer(d), false);
    assert !Written(d, Nil) && !ListEndless(Nil);
    NeverEndsIffEndless(body);
  }

  /** The block that is the body of a loop in a function. */
  function InLoopBlock(): Ctx { Push(Push(Push(TOP, PLAIN), LoopScope("")), PLAIN) }

  /** `defer f() catch e: break` in a loop: accepted, and never written to the end. */
  lemma DeferBreakNeverEnds(f: nat, rest: Stmts)
    ensures
      var d := Deferred(ExprStmt(Catch(Try(f, Lit(0)), "e", Cons(Break(""), Nil))), false);
      DeferOk(d, InLoop(Body(false), "")) && NeverEnds(InLoopBlock(), L(Cons(Defer(d), rest)))
  {
    var p, h := InLoop(Body(false), ""), Cons(Break(""), Nil);
    var e := Catch(Try(f, Lit(0)), "e", h);
    var d := Deferred(ExprStmt(e), false);
    TryLeaves(Try(f, Lit(0)), p.(mayFail := true));
    assert StmtOk(h.head, p.(inCatch := true)) && StmtsOk(h, p.(inCatch := true));
    assert ExprOk(e, p) && StmtOk(d.what, p);
    assert StmtEscapes(h.head, ByJump("")) && ListEscapes(h, ByJump(""));
    assert ExprEscapes(e, ByJump("")) && StmtEscapes(d.what, ByJump(""));
    WildList(InLoopBlock(), d, rest);
  }

  /** `f() catch e:` with `errdefer: recover 1` and then `error(2)`. */
  function Recovering(f: nat): Expr {
    Catch(Try(f, Lit(0)), "e", Cons(Defer(Deferred(Block(Recovers(1)), true)), Cons(Error(Lit(2)), Nil)))
  }

  /** Accepted, and the emitter ends: a `recover` is no failure, and writes no `errdefer`.  What it
      writes is another matter: see LoweringLimits. */
  lemma RecoveringEnds(f: nat)
    ensures StmtOk(ExprStmt(Recovering(f)), Body(false)) && !NeverEnds(Push(TOP, PLAIN), L(Cons(ExprStmt(Recovering(f)), Nil)))
  {
    var d, p := Deferred(Block(Recovers(1)), true), Body(false).(inCatch := true);
    var h := Cons(Defer(d), Cons(Error(Lit(2)), Nil));
    RecoversOk(1);
    TryLeaves(Try(f, Lit(0)), Body(false));
    assert StmtOk(d.what, Place({}, false, true, false, false, false)) && DeferOk(d, p) && StmtOk(Defer(d), p);
    assert StmtsOk(h.tail, p) by { assert StmtOk(h.tail.head, p); }
    assert !StmtEscapes(d.what, ByFailure) && !StmtEndless(d.what) && StmtSane(d.what, true);
    assert !ListEndless(h) && ListSane(h, false) by {
      assert !StmtEndless(h.tail.head) && !ListEndless(h.tail) && ListSane(h.tail, false) && !StmtEndless(Defer(d));
    }
    var e := Recovering(f);
    assert !ExprEndless(e) && ExprSane(e, false) by { assert !ExprEndless(e.operand) && ExprSane(e.operand, false); }
    var body := Cons(ExprStmt(e), Nil);
    assert !StmtEndless(body.head) && StmtSane(body.head, false) && !ListEndless(body);
    NeverEndsIffEndless(body);
  }
}
