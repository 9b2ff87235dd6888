/** Labels of the emitted C.  A C label belongs to its whole function (section 6.2.1 of ISO C11),
    so a function whose code carries one label twice is not C.  Handlers are numbered and never
    collide.  Loops keep their source label, the checker only refuses a label that is still
    open, and what is deferred is written once for every exit that passes it.  So the code is
    well labelled exactly when no loop label is written twice, counting a loop in something
    deferred once for each of those exits. */
module LoweringLabels {
  import opened LuceSource
  import opened CTarget
  import opened Lowering

  // ----- counting labels in C -----

  function InExpr(e: CExpr, l: Label): nat {
    match e
    case CLit(_) => 0
    case CVar(_) => 0
    case CCall(_, arg) => InExpr(arg, l)
    case StmtExpr(body, _) => InCode(body, l)
  }

  function InStmt(s: CStmt, l: Label): nat {
    match s
    case Eval(e) => InExpr(e, l)
    case SetVar(_, e) => InExpr(e, l)
    case SetTemp(_, _, e) => InExpr(e, l)
    case CallInto(_, _, arg) => InExpr(arg, l)
    case SetAlloc(e) => InExpr(e, l)
    case ReturnOk(e) => InExpr(e, l)
    case IfFailed(_, thn) => InCode(thn, l)
    case CIf(c, thn, els) => InExpr(c, l) + InCode(thn, l) + InCode(els, l)
    case BreakUnless(c) => InExpr(c, l)
    case Loop(body) => InCode(body, l)
    case Braces(body) => InCode(body, l)
    case LabelHere(name) => if name == l then 1 else 0
    case _ => 0
  }

  function InCode(code: seq<CStmt>, l: Label): nat {
    if code == [] then 0 else InStmt(code[0], l) + InCode(code[1..], l)
  }

  lemma {:induction false} InAppend(a: seq<CStmt>, b: seq<CStmt>, l: Label)
    ensures InCode(a + b, l) == InCode(a, l) + InCode(b, l)
  {
    if a == [] {
      assert a + b == b;
    } else {
      assert (a + b)[1..] == a[1..] + b;
      InAppend(a[1..], b, l);
    }
  }

  lemma InNothing(l: Label)
    ensures InCode([], l) == 0
  {
  }

  lemma InOne(s: CStmt, l: Label)
    ensures InCode([s], l) == InStmt(s, l)
  {
    assert [s][1..] == [];
  }

  lemma InTwo(a: CStmt, b: CStmt, l: Label)
    ensures InCode([a, b], l) == InStmt(a, l) + InStmt(b, l)
  {
    InOne(a, l);
    InOne(b, l);
    InAppend([a], [b], l);
    assert [a, b] == [a] + [b];
  }

  // ----- exits of the source -----

  /** What surrounds a place, from some scope inwards: the loops opened, and whether failures and
      `recover` are caught before they reach the scope. */
  datatype Inside = Inside(loops: seq<string>, failCaught: bool, recoverCaught: bool)

  const HERE := Inside([], false, false)

  /** How many exits pass the scope, with and without a failure. */
  datatype Exits = Exits(failing: nat, quiet: nat)

  const NONE := Exits(0, 0)
  const QUIET := Exits(0, 1)

  function Both(a: Exits, b: Exits): Exits { Exits(a.failing + b.failing, a.quiet + b.quiet) }

  function FailExit(k: Inside): Exits { if k.failCaught then NONE else Exits(1, 0) }

  /** A jump stops at the innermost loop it aims at. */
  predicate AimedInside(aim: string, loops: seq<string>) {
    exists i :: 0 <= i < |loops| && Aims(aim, loops[i])
  }

  function ExprExits(e: Expr, k: Inside): Exits {
    match e
    case Lit(_) => NONE
    case Name(_) => NONE
    case Call(_, arg) => ExprExits(arg, k)
    case Try(_, arg) => Both(ExprExits(arg, k), FailExit(k))
    case Catch(operand, _, handler) =>
      Both(ExprExits(operand, k.(failCaught := true)), ListExits(handler, k.(recoverCaught := true)))
  }

  function StmtExits(s: Stmt, k: Inside): Exits {
    match s
    case ExprStmt(e) => ExprExits(e, k)
    case Assign(_, e) => ExprExits(e, k)
    case SetAllocator(e) => ExprExits(e, k)
    case If(c, thn, els) => Both(ExprExits(c, k), Both(ListExits(thn, k), ListExits(els, k)))
    case While(name, c, body) =>
      var k' := k.(loops := k.loops + [name]);
      Both(ExprExits(c, k'), ListExits(body, k'))
    case Block(body) => ListExits(body, k)
    case With(a, body) => Both(ExprExits(a, k), ListExits(body, k))
    case Return(e) => Both(ExprExits(e, k), QUIET)
    case ReturnUnit => QUIET
    case Error(e) => Both(ExprExits(e, k), FailExit(k))
    case Break(name) => if AimedInside(name, k.loops) then NONE else QUIET
    case Continue(name) => if AimedInside(name, k.loops) then NONE else QUIET
    case Recover(e) => Both(ExprExits(e, k), if k.recoverCaught then NONE else QUIET)
    case Defer(_) => NONE
  }

  function ListExits(ss: Stmts, k: Inside): Exits {
    match ss
    case Nil => NONE
    case Cons(s, rest) => Both(StmtExits(s, k), ListExits(rest, k))
  }

  /** How many of these exits write something deferred. */
  function Count(x: Exits, onFailure: bool): nat { x.failing + if onFailure then 0 else x.quiet }

  /** How often something deferred is written: at each exit from the rest of its block, and at
      the block's end. */
  function Inlined(d: Deferred, rest: Stmts): nat {
    Count(ListExits(rest, HERE), d.onFailure) + if d.onFailure then 0 else 1
  }

  // ----- loops of the source, as often as they are written -----

  function ExprLoops(e: Expr, name: string): nat {
    match e
    case Lit(_) => 0
    case Name(_) => 0
    case Call(_, arg) => ExprLoops(arg, name)
    case Try(_, arg) => ExprLoops(arg, name)
    case Catch(operand, _, handler) => ExprLoops(operand, name) + ListLoops(handler, name)
  }

  function StmtLoops(s: Stmt, name: string): nat {
    match s
    case If(c, thn, els) => ExprLoops(c, name) + ListLoops(thn, name) + ListLoops(els, name)
    case While(own, c, body) =>
      (if own == name && name != "" then 1 else 0) + ExprLoops(c, name) + ListLoops(body, name)
    case Block(body) => ListLoops(body, name)
    case With(a, body) => ExprLoops(a, name) + ListLoops(body, name)
    case ReturnUnit => 0
    case Break(_) => 0
    case Continue(_) => 0
    case Defer(_) => 0
    case ExprStmt(e) => ExprLoops(e, name)
    case Assign(_, e) => ExprLoops(e, name)
    case SetAllocator(e) => ExprLoops(e, name)
    case Return(e) => ExprLoops(e, name)
    case Error(e) => ExprLoops(e, name)
    case Recover(e) => ExprLoops(e, name)
  }

  function Copies(times: nat, loops: nat): nat { times * loops }

  function DeferLoops(d: Deferred, name: string): nat { StmtLoops(d.what, name) }

  function ListLoops(ss: Stmts, name: string): nat {
    match ss
    case Nil => 0
    case Cons(s, rest) =>
      (if s.Defer? then Copies(Inlined(s.d, rest), DeferLoops(s.d, name)) else StmtLoops(s, name)) + ListLoops(rest, name)
  }

  // ----- what each exit of a place costs -----

  /** The loops that cleanup writes at a failure, a return, a `recover`, and a jump to each open
      loop, outermost first. */
  datatype Costs = Costs(fail: nat, ret: nat, recover: nat, jumps: seq<(string, nat)>)

  function JumpCost(c: Costs, aim: string, i: nat): nat
    requires i <= |c.jumps|
  {
    if i == 0 then c.ret
    else if Aims(aim, c.jumps[i - 1].0) then c.jumps[i - 1].1
    else JumpCost(c, aim, i - 1)
  }

  function ToLoop(c: Costs, aim: string): nat { JumpCost(c, aim, |c.jumps|) }

  function OpenLoop(c: Costs, name: string): Costs { c.(jumps := c.jumps + [(name, 0)]) }

  function ExprCost(e: Expr, c: Costs): nat {
    match e
    case Lit(_) => 0
    case Name(_) => 0
    case Call(_, arg) => ExprCost(arg, c)
    case Try(_, arg) => ExprCost(arg, c) + c.fail
    case Catch(operand, _, handler) => ExprCost(operand, c.(fail := 0)) + ListCost(handler, c.(recover := 0))
  }

  function StmtCost(s: Stmt, c: Costs): nat {
    match s
    case ExprStmt(e) => ExprCost(e, c)
    case Assign(_, e) => ExprCost(e, c)
    case SetAllocator(e) => ExprCost(e, c)
    case If(i, thn, els) => ExprCost(i, c) + ListCost(thn, c) + ListCost(els, c)
    case While(name, i, body) => ExprCost(i, OpenLoop(c, name)) + ListCost(body, OpenLoop(c, name))
    case Block(body) => ListCost(body, c)
    case With(a, body) => ExprCost(a, c) + ListCost(body, c)
    case Return(e) => ExprCost(e, c) + c.ret
    case ReturnUnit => c.ret
    case Error(e) => ExprCost(e, c) + c.fail
    case Break(name) => ToLoop(c, name)
    case Continue(name) => ToLoop(c, name)
    case Recover(e) => ExprCost(e, c) + c.recover
    case Defer(_) => 0
  }

  function ListCost(ss: Stmts, c: Costs): nat {
    match ss
    case Nil => 0
    case Cons(s, rest) => StmtCost(s, c) + ListCost(rest, c)
  }

  // ----- one more thing deferred raises the cost of every exit that passes it -----

  function More(v: nat, more: nat, raised: bool): nat { if raised then v + more else v }

  /** Costs once a scope has deferred `more` more loops; `k` is what has been opened inside it. */
  function Raise(c: Costs, k: Inside, onFailure: bool, more: nat): (r: Costs)
    ensures |r.jumps| == |c.jumps|
  {
    Costs(More(c.fail, more, !k.failCaught), More(c.ret, more, !onFailure), More(c.recover, more, !onFailure && !k.recoverCaught),
          seq(|c.jumps|, i requires 0 <= i < |c.jumps| =>
            (c.jumps[i].0, More(c.jumps[i].1, more, !onFailure && i < |c.jumps| - |k.loops|))))
  }

  /** The loops opened inside are the innermost ones. */
  predicate Opened(c: Costs, k: Inside) {
    && |k.loops| <= |c.jumps|
    && forall i :: 0 <= i < |k.loops| ==> c.jumps[|c.jumps| - |k.loops| + i].0 == k.loops[i]
  }

  lemma {:induction false} RaiseJump(c: Costs, k: Inside, onFailure: bool, more: nat, aim: string, i: nat)
    requires Opened(c, k) && i <= |c.jumps|
    ensures
      var caught := exists j :: |c.jumps| - |k.loops| <= j < i && Aims(aim, c.jumps[j].0);
      JumpCost(Raise(c, k, onFailure, more), aim, i) == More(JumpCost(c, aim, i), more, !onFailure && !caught)
    decreases i
  {
    if i > 0 && !Aims(aim, c.jumps[i - 1].0) {
      RaiseJump(c, k, onFailure, more, aim, i - 1);
    }
  }

  lemma RaiseToLoop(c: Costs, k: Inside, onFailure: bool, more: nat, aim: string)
    requires Opened(c, k)
    ensures ToLoop(Raise(c, k, onFailure, more), aim) == More(ToLoop(c, aim), more, !onFailure && !AimedInside(aim, k.loops))
  {
    var m := |c.jumps| - |k.loops|;
    RaiseJump(c, k, onFailure, more, aim, |c.jumps|);
    if AimedInside(aim, k.loops) {
      var i :| 0 <= i < |k.loops| && Aims(aim, k.loops[i]);
      assert c.jumps[m + i].0 == k.loops[i];
    }
    if j :| m <= j < |c.jumps| && Aims(aim, c.jumps[j].0) {
      assert c.jumps[m + (j - m)].0 == k.loops[j - m];
    }
  }

  lemma RaiseOpen(c: Costs, k: Inside, onFailure: bool, more: nat, name: string)
    requires Opened(c, k)
    ensures
      var k' := k.(loops := k.loops + [name]);
      Opened(OpenLoop(c, name), k') && Raise(OpenLoop(c, name), k', onFailure, more) == OpenLoop(Raise(c, k, onFailure, more), name)
  {
    var k' := k.(loops := k.loops + [name]);
    assert Raise(OpenLoop(c, name), k', onFailure, more).jumps == OpenLoop(Raise(c, k, onFailure, more), name).jumps;
  }

  /** `more` for each exit. */
  function Times(x: Exits, onFailure: bool, more: nat): nat { Copies(Count(x, onFailure), more) }

  lemma TimesBoth(a: Exits, b: Exits, onFailure: bool, more: nat)
    ensures Times(Both(a, b), onFailure, more) == Times(a, onFailure, more) + Times(b, onFailure, more)
  {
    assert Count(Both(a, b), onFailure) == Count(a, onFailure) + Count(b, onFailure);
    Distributes(Count(a, onFailure), Count(b, onFailure), more);
  }

  lemma Distributes(a: nat, b: nat, more: nat)
    ensures Copies(a + b, more) == Copies(a, more) + Copies(b, more)
    ensures Copies(0, more) == 0 && Copies(1, more) == more
  {
  }

  lemma TimesOne(onFailure: bool, more: nat)
    ensures Times(NONE, onFailure, more) == 0
    ensures Times(QUIET, onFailure, more) == if onFailure then 0 else more
    ensures Times(Exits(1, 0), onFailure, more) == more
  {
  }

  lemma {:induction false} ExprRaise(e: Expr, c: Costs, k: Inside, onFailure: bool, more: nat)
    requires Opened(c, k)
    ensures ExprCost(e, Raise(c, k, onFailure, more)) == ExprCost(e, c) + Times(ExprExits(e, k), onFailure, more)
    decreases e
  {
    hide Times, Opened, Raise;
    TimesOne(onFailure, more);
    RaisedFields(c, k, onFailure, more);
    match e
    case Lit(_) =>
    case Name(_) =>
    case Call(_, arg) => ExprRaise(arg, c, k, onFailure, more);
    case Try(_, arg) =>
      ExprRaise(arg, c, k, onFailure, more);
      TimesBoth(ExprExits(arg, k), FailExit(k), onFailure, more);
    case Catch(operand, _, handler) =>
      var ko, kh := k.(failCaught := true), k.(recoverCaught := true);
      RaiseCatch(c, k, onFailure, more);
      ExprRaise(operand, c.(fail := 0), ko, onFailure, more);
      ListRaise(handler, c.(recover := 0), kh, onFailure, more);
      TimesBoth(ExprExits(operand, ko), ListExits(handler, kh), onFailure, more);
  }

  lemma RaiseCatch(c: Costs, k: Inside, onFailure: bool, more: nat)
    requires Opened(c, k)
    ensures Opened(c.(fail := 0), k.(failCaught := true)) && Opened(c.(recover := 0), k.(recoverCaught := true))
    ensures
      var r := Raise(c, k, onFailure, more);
      && Raise(c.(fail := 0), k.(failCaught := true), onFailure, more) == r.(fail := 0)
      && Raise(c.(recover := 0), k.(recoverCaught := true), onFailure, more) == r.(recover := 0)
  {
  }

  lemma {:induction false} StmtRaise(s: Stmt, c: Costs, k: Inside, onFailure: bool, more: nat)
    requires Opened(c, k)
    ensures StmtCost(s, Raise(c, k, onFailure, more)) == StmtCost(s, c) + Times(StmtExits(s, k), onFailure, more)
    decreases s
  {
    hide Times, Raise, Opened, ToLoop, AimedInside;
    TimesOne(onFailure, more);
    match s
    case ExprStmt(e) => ExprRaise(e, c, k, onFailure, more);
    case Assign(_, e) => ExprRaise(e, c, k, onFailure, more);
    case SetAllocator(e) => ExprRaise(e, c, k, onFailure, more);
    case If(i, thn, els) =>
      ExprRaise(i, c, k, onFailure, more);
      ListRaise(thn, c, k, onFailure, more);
      ListRaise(els, c, k, onFailure, more);
      TimesBoth(ListExits(thn, k), ListExits(els, k), onFailure, more);
      TimesBoth(ExprExits(i, k), Both(ListExits(thn, k), ListExits(els, k)), onFailure, more);
    case While(name, i, body) =>
      var k' := k.(loops := k.loops + [name]);
      RaiseOpen(c, k, onFailure, more, name);
      ExprRaise(i, OpenLoop(c, name), k', onFailure, more);
      ListRaise(body, OpenLoop(c, name), k', onFailure, more);
      TimesBoth(ExprExits(i, k'), ListExits(body, k'), onFailure, more);
    case Block(body) => ListRaise(body, c, k, onFailure, more);
    case With(a, body) =>
      ExprRaise(a, c, k, onFailure, more);
      ListRaise(body, c, k, onFailure, more);
      TimesBoth(ExprExits(a, k), ListExits(body, k), onFailure, more);
    case Break(name) => RaiseToLoop(c, k, onFailure, more, name);
    case Continue(name) => RaiseToLoop(c, k, onFailure, more, name);
    case Defer(_) =>
    case _ => ExitRaise(s, c, k, onFailure, more);
  }

  lemma {:induction false} ExitRaise(s: Stmt, c: Costs, k: Inside, onFailure: bool, more: nat)
    requires Opened(c, k) && (s.Return? || s.ReturnUnit? || s.Error? || s.Recover?)
    ensures StmtCost(s, Raise(c, k, onFailure, more)) == StmtCost(s, c) + Times(StmtExits(s, k), onFailure, more)
    decreases s, 0
  {
    hide Times, Opened, Raise, ExprCost, ExprExits;
    TimesOne(onFailure, more);
    RaisedFields(c, k, onFailure, more);
    match s
    case ReturnUnit =>
    case Return(e) =>
      ExprRaise(e, c, k, onFailure, more);
      TimesBoth(ExprExits(e, k), QUIET, onFailure, more);
    case Error(e) =>
      ExprRaise(e, c, k, onFailure, more);
      TimesBoth(ExprExits(e, k), FailExit(k), onFailure, more);
    case Recover(e) =>
      ExprRaise(e, c, k, onFailure, more);
      TimesBoth(ExprExits(e, k), if k.recoverCaught then NONE else QUIET, onFailure, more);
  }

  lemma RaisedFields(c: Costs, k: Inside, onFailure: bool, more: nat)
    ensures
      var r := Raise(c, k, onFailure, more);
      && r.fail == More(c.fail, more, !k.failCaught) && r.ret == More(c.ret, more, !onFailure)
      && r.recover == More(c.recover, more, !onFailure && !k.recoverCaught)
  {
  }

  lemma {:induction false} ListRaise(ss: Stmts, c: Costs, k: Inside, onFailure: bool, more: nat)
    requires Opened(c, k)
    ensures ListCost(ss, Raise(c, k, onFailure, more)) == ListCost(ss, c) + Times(ListExits(ss, k), onFailure, more)
    decreases ss
  {
    hide Times, Raise, Opened;
    TimesOne(onFailure, more);
    if ss.Cons? {
      StmtRaise(ss.head, c, k, onFailure, more);
      ListRaise(ss.tail, c, k, onFailure, more);
      TimesBoth(StmtExits(ss.head, k), ListExits(ss.tail, k), onFailure, more);
    }
  }

  // ----- exits that cost nothing -----

  predicate Free(c: Costs) {
    c.fail == 0 && c.ret == 0 && c.recover == 0 && forall i :: 0 <= i < |c.jumps| ==> c.jumps[i].1 == 0
  }

  lemma {:induction false} FreeJump(c: Costs, aim: string, i: nat)
    requires Free(c) && i <= |c.jumps|
    ensures JumpCost(c, aim, i) == 0
    decreases i
  {
    if i > 0 { FreeJump(c, aim, i - 1); }
  }

  lemma {:induction false} FreeExpr(e: Expr, c: Costs)
    requires Free(c)
    ensures ExprCost(e, c) == 0
    decreases e
  {
    match e
    case Lit(_) =>
    case Name(_) =>
    case Call(_, arg) => FreeExpr(arg, c);
    case Try(_, arg) => FreeExpr(arg, c);
    case Catch(operand, _, handler) =>
      FreeExpr(operand, c.(fail := 0));
      FreeList(handler, c.(recover := 0));
  }

  lemma {:induction false} FreeStmt(s: Stmt, c: Costs)
    requires Free(c)
    ensures StmtCost(s, c) == 0
    decreases s
  {
    match s
    case If(i, thn, els) =>
      FreeExpr(i, c);
      FreeList(thn, c);
      FreeList(els, c);
    case While(name, i, body) =>
      FreeExpr(i, OpenLoop(c, name));
      FreeList(body, OpenLoop(c, name));
    case Block(body) => FreeList(body, c);
    case With(a, body) =>
      FreeExpr(a, c);
      FreeList(body, c);
    case Break(name) => FreeJump(c, name, |c.jumps|);
    case Continue(name) => FreeJump(c, name, |c.jumps|);
    case ReturnUnit =>
    case Defer(_) =>
    case _ => FreeExpr(s.e, c);
  }

  lemma {:induction false} FreeList(ss: Stmts, c: Costs)
    requires Free(c)
    ensures ListCost(ss, c) == 0
    decreases ss
  {
    if ss.Cons? {
      FreeStmt(ss.head, c);
      FreeList(ss.tail, c);
    }
  }
}
