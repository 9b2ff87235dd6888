/** The interpreter as it runs, on fields updated in place: each method leaves exactly the machine
    Executor computes.  A block keeps the list of what it has deferred, sets the flags aside while
    that runs, and puts them back. */
module ExecutorModel {
  import opened LuceSource
  import opened Executor
  import Lowering

  /** What is deferred, run newest first. */
  function Unwound(w: World, ds: seq<Deferred>, ended: Machine, now: Machine): Machine
    decreases |ds|
  {
    if ds == [] then now else Unwound(w, ds[..|ds| - 1], ended, RunDeferred(w, ds[|ds| - 1], ended, now))
  }

  lemma UnwoundMore(w: World, ds: seq<Deferred>, d: Deferred, ended: Machine, now: Machine)
    ensures Unwound(w, ds + [d], ended, now) == Unwound(w, ds, ended, RunDeferred(w, d, ended, now))
  {
    assert (ds + [d])[..|ds|] == ds;
  }

  lemma {:induction false} UnwoundSpent(w: World, ds: seq<Deferred>, ended: Machine, now: Machine)
    requires now.spent
    ensures Unwound(w, ds, ended, now) == now
    decreases |ds|
  {
    if ds != [] { UnwoundSpent(w, ds[..|ds| - 1], ended, now); }
  }

  /** One statement of a list, and the rest of it. */
  lemma NodesStep(w: World, s: Stmt, rest: Stmts, m: Machine)
    ensures
      ExecNodes(w, Cons(s, rest), m) ==
      if s.Defer? then
        var r := if Flagged(m) then (m, m) else ExecNodes(w, rest, m);
        (r.0, RunDeferred(w, s.d, r.0, r.1))
      else
        var now := ExecNode(w, s, m);
        if Flagged(now) then (now, now) else ExecNodes(w, rest, now)
  {
    hide ExecNode, RunDeferred;
  }

  lemma NoNodes(w: World, m: Machine)
    ensures ExecNodes(w, Nil, m) == (m, m)
  {
  }

  lemma UnwoundNone(w: World, ended: Machine, now: Machine)
    ensures Unwound(w, [], ended, now) == now
  {
  }

  class Interp {
    const w: World
    var st: State
    var returning: bool
    var ret: Ret
    var breaking: bool
    var continuing: bool
    var aim: string
    var recovered: bool
    var recoverVal: nat
    var spent: bool

    constructor (w: World, st: State)
      ensures this.w == w && Now() == Fresh(st)
    {
      this.w, this.st := w, st;
      returning, ret, breaking, continuing, aim := false, Ret(false, 0), false, false, "";
      recovered, recoverVal, spent := false, 0, false;
    }

    ghost function Now(): Machine
      reads this
    {
      Machine(st, returning, ret, breaking, continuing, aim, recovered, recoverVal, spent)
    }

    method Eval(e: Expr) returns (v: nat)
      modifies this
      ensures EvalNode(w, e, old(Now())) == (v, Now())
      decreases st.turns, Lowering.ExprSize(e), 0
    {
      hide ExecNode, ExecSuite;
      match e
      case Lit(n) => v := n;
      case Name(x) => v := Read(st.vars, x);
      case Call(f, arg) =>
        var a := Eval(arg);
        if spent || returning {
          v := 0;
        } else {
          v := Answer(w, f, a, st).value;
          st := Perform(w, f, a, st);
        }
      case Try(f, arg) =>
        var a := Eval(arg);
        if spent || returning {
          v := 0;
        } else {
          var r := Answer(w, f, a, st);
          st := Perform(w, f, a, st);
          v := r.value;
          if r.failed {
            v, returning, ret := 0, true, Ret(true, r.value);
          }
        }
      case Catch(operand, x, handler) =>
        v := Eval(operand);
        if !spent && returning && ret.failed {
          returning := false;
          v := RunHandler(x, handler);
        }
    }

    /** `run_catch_handler`, and the value of the `catch`. */
    method RunHandler(x: string, handler: Stmts) returns (v: nat)
      requires !returning
      modifies this
      ensures
        var h := ExecSuite(w, handler, Handling(old(Now()), x));
        && Now() == (if h.recovered then h.(returning := false, recovered := false) else h)
        && v == if !Flagged(h) then 0 else h.recoverVal
      decreases st.turns, Lowering.ListSize(handler), 2
    {
      recoverVal, recovered := 0, false;
      st := st.(vars := st.vars[x := ret.v]);
      ExecBlock(handler);
      v := if spent || returning || breaking || continuing then recoverVal else 0;
      if recovered {
        returning, recovered := false, false;
      }
    }

    method Exec(s: Stmt)
      modifies this
      ensures Now() == ExecNode(w, s, old(Now()))
      decreases st.turns, Lowering.StmtSize(s), 2
    {
      hide EvalNode, ExecSuite, ExecLoop;
      if spent || returning {
        return;
      }
      match s
      case ExprStmt(e) => var _ := Eval(e);
      case Assign(x, e) =>
        var v := Eval(e);
        if !spent { st := st.(vars := st.vars[x := v]); }
      case SetAllocator(e) =>
        var v := Eval(e);
        if !spent { st := st.(alloc := v); }
      case If(c, thn, els) =>
        var v := Eval(c);
        if !spent && !returning {
          if v != 0 { ExecBlock(thn); } else { ExecBlock(els); }
        }
      case While(_, _, _) => ExecWhile(s);
      case Block(body) => ExecBlock(body);
      case With(_, _) => ExecWith(s);
      case Return(_) => ExecExit(s);
      case ReturnUnit => ret, returning := Ret(false, 0), true;
      case Error(_) => ExecExit(s);
      case Break(loopName) => breaking, aim := true, loopName;
      case Continue(loopName) => continuing, aim := true, loopName;
      case Recover(_) => ExecExit(s);
      case Defer(_) =>
    }

    method ExecWith(s: Stmt)
      requires s.With? && !spent && !returning
      modifies this
      ensures Now() == ExecNode(w, s, old(Now()))
      decreases st.turns, Lowering.StmtSize(s), 0
    {
      hide EvalNode, ExecSuite, ExecLoop;
      var saved := st.alloc;
      var v := Eval(s.allocator);
      if spent { return; }
      st := st.(alloc := v);
      if !returning { ExecBlock(s.body); }
      if !spent { st := st.(alloc := saved); }
    }

    method ExecExit(s: Stmt)
      requires (s.Return? || s.Error? || s.Recover?) && !spent && !returning
      modifies this
      ensures Now() == ExecNode(w, s, old(Now()))
      decreases st.turns, Lowering.StmtSize(s), 0
    {
      hide EvalNode, ExecSuite, ExecLoop;
      var v := Eval(s.e);
      if spent { return; }
      match s
      case Return(_) =>
        if !(returning && ret.failed) { ret := Ret(false, v); }
        returning := true;
      case Error(_) =>
        if !returning { ret, returning := Ret(true, v), true; }
      case Recover(_) =>
        recoverVal := v;
        if returning && ret.failed { return; }
        ret, recovered, returning := Ret(false, 0), true, true;
    }

    method ExecWhile(s: Stmt)
      requires s.While?
      modifies this
      ensures Now() == ExecLoop(w, s, old(Now()))
      decreases st.turns, Lowering.StmtSize(s), 1
    {
      var over := false;
      while !over && !spent && !returning && !breaking
        invariant ExecLoop(w, s, old(Now())) == if over then Now() else ExecLoop(w, s, Now())
        invariant st.turns <= old(st.turns)
        decreases st.turns, if over then 0 else 1
      {
        if st.turns == 0 {
          spent, over := true, true;
        } else {
          over := Turn(s);
        }
      }
    }

    /** One turn: the condition, the body, and whether the loop is over. */
    method Turn(s: Stmt) returns (over: bool)
      requires s.While? && !spent && !returning && !breaking && st.turns > 0
      modifies this
      ensures ExecLoop(w, s, old(Now())) == if over then Now() else ExecLoop(w, s, Now())
      ensures st.turns < old(st.turns)
      decreases st.turns, Lowering.StmtSize(s), 0
    {
      hide EvalNode, ExecSuite;
      continuing := false;
      st := st.(turns := st.turns - 1);
      var c := Eval(s.cond);
      if spent || c == 0 {
        return true;
      }
      if !returning { ExecBlock(s.body); }
      over := LeaveLoop(s.loopName);
    }

    method LeaveLoop(loopName: string) returns (over: bool)
      modifies this
      ensures
        var b := old(Now());
        && over == (b.breaking || (b.continuing && !Aims(b.aim, loopName)))
        && Now() == if b.breaking then b.(breaking := !Aims(b.aim, loopName))
                    else if over then b else b.(continuing := false)
    {
      if breaking {
        if aim == "" || aim == loopName { breaking := false; }
        return true;
      }
      if continuing {
        if aim == "" || aim == loopName {
          continuing := false;
          return false;
        }
        return true;
      }
      return false;
    }

    method ExecBlock(ss: Stmts)
      modifies this
      ensures Now() == ExecSuite(w, ss, old(Now()))
      decreases st.turns, Lowering.ListSize(ss), 1
    {
      hide ExecNode, EvalNode, Unwound;
      var mine := RunStatements(ss);
      if !spent {
        var wasReturning, wasRet, wasBreaking, wasContinuing, wasAim := returning, ret, breaking, continuing, aim;
        var wasRecovered, wasRecoverVal := recovered, recoverVal;
        RunAll(mine, Lowering.ListSize(ss));
        returning, ret, breaking, continuing, aim := wasReturning, wasRet, wasBreaking, wasContinuing, wasAim;
        recovered, recoverVal := wasRecovered, wasRecoverVal;
      } else {
        UnwoundSpent(w, mine, Now(), Now());
      }
    }

    /** The loop over what was deferred, newest first. */
    method RunAll(mine: seq<Deferred>, ghost size: nat)
      requires !spent && forall i :: 0 <= i < |mine| ==> Lowering.DeferSize(mine[i]) < size
      modifies this
      ensures Now() == Unwound(w, mine, old(Now()), old(Now()))
      decreases st.turns, size, 0
    {
      hide ExecNode;
      var failing := returning && ret.failed;
      var i := |mine|;
      assert mine[..i] == mine;
      while i > 0 && !spent
        invariant 0 <= i <= |mine| && st.turns <= old(st.turns)
        invariant Unwound(w, mine[..i], old(Now()), Now()) == Unwound(w, mine, old(Now()), old(Now()))
        decreases i
      {
        i := i - 1;
        assert mine[..i + 1][..i] == mine[..i];
        if !(mine[i].onFailure && !failing) {
          returning, breaking, continuing := false, false, false;
          Exec(mine[i].what);
        }
      }
      if spent { UnwoundSpent(w, mine[..i], old(Now()), Now()); }
    }

    /** The statements up to the first that leaves, and what they deferred. */
    method RunStatements(ss: Stmts) returns (mine: seq<Deferred>)
      modifies this
      ensures var m := Now(); ExecNodes(w, ss, old(Now())) == (m, Unwound(w, mine, m, m))
      ensures st.turns <= old(st.turns)
      ensures forall i :: 0 <= i < |mine| ==> Lowering.DeferSize(mine[i]) < Lowering.ListSize(ss)
      decreases st.turns, Lowering.ListSize(ss), 0
    {
      hide ExecNode, EvalNode, ExecNodes, Unwound, RunDeferred;
      mine := [];
      var rest, over := ss, false;
      UnwoundNone(w, ExecNodes(w, ss, Now()).0, ExecNodes(w, ss, Now()).1);
      while rest.Cons? && !over
        invariant st.turns <= old(st.turns) && Lowering.ListSize(rest) <= Lowering.ListSize(ss)
        invariant forall i :: 0 <= i < |mine| ==> Lowering.DeferSize(mine[i]) < Lowering.ListSize(ss)
        invariant
          var r, m := ExecNodes(w, ss, old(Now())), Now();
          if over then r == (m, Unwound(w, mine, m, m))
          else var q := ExecNodes(w, rest, m); r == (q.0, Unwound(w, mine, q.0, q.1))
        decreases rest
      {
        var s := rest.head;
        NodesStep(w, s, rest.tail, Now());
        if s.Defer? {
          ghost var m := Now();
          ghost var q := if Flagged(m) then (m, m) else ExecNodes(w, rest.tail, m);
          UnwoundMore(w, mine, s.d, q.0, q.1);
          mine := mine + [s.d];
        } else {
          Exec(s);
        }
        rest := rest.tail;
        over := spent || returning || breaking || continuing;
      }
      if !over { NoNodes(w, Now()); }
    }
  }

  /** A call of the function. */
  method CallFunction(w: World, body: Stmts, unit: bool, st: State) returns (r: Result, after: State)
    ensures (r, after) == RunInterpreter(w, body, unit, st)
  {
    var i := new Interp(w, st);
    i.ExecBlock(body);
    after := i.st;
    if i.spent {
      r := Diverged;
    } else if i.returning {
      r := if i.ret.failed then Err(i.ret.v) else Ok(i.ret.v);
    } else {
      r := if unit then Ok(0) else Trapped;
    }
  }
}
