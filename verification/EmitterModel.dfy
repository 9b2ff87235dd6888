/** The emitter as it is written: one object whose methods push and pop scopes, append to and
    swap the output, count temporaries, and set and restore the failure and catch targets.
    Each method is proved to write exactly the code of Lowering.dfy and to put every field it
    borrows back.  The emitter calls itself for everything deferred that an exit passes; that
    it ends, and that what it writes there stays within what is deferred, is because nothing
    leaves what is deferred. */
module EmitterModel {
  import opened Wrappers
  import opened LuceSource
  import opened CTarget
  import opened Lowering
  import opened LoweringProof

  // ----- exits stay inside what is being written -----

  /** Every way out the place has ends at or above the scopes that were open before what is
      being written. */
  ghost predicate Reaches(p: Place, ctx: Ctx) {
    && Well(ctx) && p.strict
    && (p.mayReturn ==> ctx.base == 0)
    && (p.mayFail ==> if ctx.failure.Some? then ctx.base <= ctx.failureScope else ctx.base == 0)
    && (p.inCatch ==> ctx.catching.Some? && ctx.base <= ctx.catchScope)
    && (p.inLoop ==> ctx.base <= JumpScope(ctx.scopes, ""))
    && (forall name :: name in p.open ==> ctx.base <= JumpScope(ctx.scopes, name))
  }

  lemma JumpPush(ctx: Ctx, sc: Scope, name: string)
    requires Well(ctx)
    ensures JumpScope(Push(ctx, sc).scopes, name)
         == if sc.loop && Aims(name, sc.name) then |ctx.scopes| else JumpScope(ctx.scopes, name)
  {
  }

  lemma ReachesPush(p: Place, ctx: Ctx, sc: Scope)
    requires Reaches(p, ctx)
    ensures Reaches(p, Push(ctx, sc))
    ensures sc.loop ==> Reaches(InLoop(p, sc.name), Push(ctx, sc))
  {
    hide JumpScope;
    JumpPush(ctx, sc, "");
    forall name ensures
      JumpScope(Push(ctx, sc).scopes, name)
      == if sc.loop && Aims(name, sc.name) then |ctx.scopes| else JumpScope(ctx.scopes, name)
    {
      JumpPush(ctx, sc, name);
    }
  }

  lemma {:induction false} JumpAlike(a: seq<Scope>, b: seq<Scope>, name: string)
    requires |a| == |b| && forall i :: 0 <= i < |a| ==> a[i].loop == b[i].loop && a[i].name == b[i].name
    ensures JumpScope(a, name) == JumpScope(b, name)
    decreases |a|
  {
    if a != [] { JumpAlike(a[..|a| - 1], b[..|b| - 1], name); }
  }

  lemma ReachesRegister(p: Place, ctx: Ctx, d: Deferred)
    requires Reaches(p, ctx) && ctx.base < |ctx.scopes|
    ensures Reaches(p, Registered(ctx, d))
  {
    hide JumpScope;
    forall name ensures JumpScope(Registered(ctx, d).scopes, name) == JumpScope(ctx.scopes, name) {
      JumpAlike(Registered(ctx, d).scopes, ctx.scopes, name);
    }
  }

  lemma ReachesCatch(p: Place, ctx: Ctx, n: nat)
    requires Reaches(p, ctx)
    ensures Reaches(p.(mayFail := true), OperandCtx(ctx, n)) && Reaches(p.(inCatch := true), HandlerCtx(ctx, n))
  {
  }

  lemma ReachesSealed(ctx: Ctx)
    ensures Reaches(SEALED, Sealed(ctx))
  {
  }

  // ----- cleanup, piece by piece -----

  lemma DefersPrefix(ctx: Ctx, at: nat, i: nat, failing: bool, n: nat)
    requires ctx.base <= at < |ctx.scopes| && i < |ctx.scopes[at].defers|
    ensures
      var a := DeferCode(ctx, at, i, failing, n);
      var b := DefersCode(ctx, at, i, failing, a.n);
      DefersCode(ctx, at, i + 1, failing, n) == Low(a.code + b.code, b.n)
  {
    hide DeferCode;
  }

  lemma UnwindPrefix(ctx: Ctx, k: nat, from: nat, failing: bool, n: nat)
    requires ctx.base <= from <= k < |ctx.scopes|
    ensures
      var a := ScopeCode(ctx, k, failing, n);
      var b := UnwindFrom(ctx, k, from, failing, a.n);
      UnwindFrom(ctx, k + 1, from, failing, n) == Low(a.code + b.code, b.n)
  {
    hide ScopeCode;
  }

  lemma UnwindNothing(ctx: Ctx, k: nat, from: nat, failing: bool, n: nat)
    requires k <= from && k <= |ctx.scopes|
    ensures UnwindFrom(ctx, k, from, failing, n) == Low([], n)
  {
  }

  lemma DefersNothing(ctx: Ctx, at: nat, failing: bool, n: nat)
    requires ctx.base <= at < |ctx.scopes|
    ensures DefersCode(ctx, at, 0, failing, n) == Low([], n)
  {
  }

  /** Two pieces of code appended to what was written. */
  lemma Appended(before: seq<CStmt>, a: seq<CStmt>, b: seq<CStmt>)
    ensures before + a + b == before + (a + b)
  {
  }

  class Emitter {
    var out: seq<CStmt>
    var temps: nat
    var scopes: seq<Scope>
    var failure: Option<nat>      // `failure_target` and `failure_error`, both named by this number
    var failureScope: nat
    var catching: Option<nat>     // `catch_var` and `catch_done`
    var catchScope: nat
    ghost var base: nat           // how many scopes were open before what is being written

    constructor (firstTemp: nat)
      ensures out == [] && temps == firstTemp && Context() == TOP
    {
      out, temps, scopes := [], firstTemp, [];
      failure, failureScope := None, 0;
      catching, catchScope := None, 0;
      base := 0;
    }

    /** The fields that decide what is written. */
    ghost function Context(): Ctx
      reads this
    {
      Ctx(scopes, base, failure, failureScope, catching, catchScope)
    }

    /** A checked place, and scopes whose deferred statements nothing leaves. */
    ghost predicate Ready(p: Place)
      reads this
    {
      Reaches(p, Context()) && DefersOk(scopes)
    }

    method Tmp() returns (id: nat)
      modifies this`temps
      ensures id == old(temps) && temps == old(temps) + 1
    {
      id := temps;
      temps := temps + 1;
    }

    method Line(s: CStmt)
      modifies this`out
      ensures out == old(out) + [s]
    {
      out := out + [s];
    }

    /** What was written is the code `l`, and the context is as it was. */
    twostate predicate Wrote(l: Low)
      reads this
    {
      out == old(out) + l.code && temps == l.n && Context() == old(Context())
    }

    /** `run_defers` on the statements of the scope `at`, newest first. */
    method RunDefers(ds: seq<Deferred>, failing: bool, ghost at: nat)
      requires base <= at < |scopes| && scopes[at].defers == ds && DefersOk(scopes)
      modifies this
      ensures Wrote(DefersCode(old(Context()), at, |ds|, failing, old(temps)))
      decreases Pending(Context()), 0, 0
    {
      hide DefersCode, DeferCode, Reaches, DefersOk, Pending;
      ghost var ctx := Context();
      var i := |ds|;
      while 0 < i
        invariant 0 <= i <= |ds| && Context() == ctx
        invariant out + DefersCode(ctx, at, i, failing, temps).code == old(out) + DefersCode(ctx, at, |ds|, failing, old(temps)).code
        invariant DefersCode(ctx, at, i, failing, temps).n == DefersCode(ctx, at, |ds|, failing, old(temps)).n
      {
        i := i - 1;
        DefersPrefix(ctx, at, i, failing, temps);
        ghost var before, n := out, temps;
        if !(ds[i].onFailure && !failing) {
          assert DeferOk(ds[i], SEALED) by { DeferIsOk(scopes, at, i); }
          assert StmtSize(ds[i].what) < Pending(ctx) by { PendingDefer(ctx, at, i); }
          WriteDeferred(ds[i]);
        }
        DeferWrites(ctx, at, i, failing, n);
        Appended(before, DeferCode(ctx, at, i, failing, n).code, DefersCode(ctx, at, i, failing, temps).code);
      }
      DefersNothing(ctx, at, failing, temps);
    }

    /** One deferred statement, written by `emit_stmt` in the state of the exit. */
    method WriteDeferred(d: Deferred)
      requires DeferOk(d, SEALED) && DefersOk(scopes)
      modifies this
      ensures Wrote(LowerStmt(Sealed(old(Context())), d.what, old(temps)))
      decreases StmtSize(d.what), 9, 0
    {
      hide LowerStmt, Reaches, StmtOk, DefersOk;
      ghost var outer := base;
      assert StmtOk(d.what, SEALED) && !d.what.Defer? by { SealedStatement(d); }
      base := |scopes|;
      ReachesSealed(old(Context()));
      EmitStmt(d.what, SEALED);
      base := outer;
    }

    method UnwindScope(sc: Scope, failing: bool, ghost at: nat)
      requires base <= at < |scopes| && scopes[at] == sc && DefersOk(scopes)
      modifies this
      ensures Wrote(ScopeCode(old(Context()), at, failing, old(temps)))
      decreases Pending(Context()), 1, 0
    {
      hide DefersCode, DefersOk;
      RunDefers(sc.defers, failing, at);
      if sc.save.Some? {
        Line(RestoreAlloc(sc.save.value));
      }
    }

    /** A copy of the scopes from `from` on, innermost first: cleanup may itself push scopes. */
    method SnapScopes(from: nat) returns (snaps: seq<Scope>)
      ensures |snaps| == if from < |scopes| then |scopes| - from else 0
      ensures forall k :: 0 <= k < |snaps| ==> snaps[k] == scopes[|scopes| - 1 - k]
    {
      snaps := [];
      var i := |scopes|;
      while from < i
        invariant i <= |scopes| && |snaps| == |scopes| - i
        invariant i == |scopes| || from <= i
        invariant forall k :: 0 <= k < |snaps| ==> snaps[k] == scopes[|scopes| - 1 - k]
      {
        i := i - 1;
        snaps := snaps + [scopes[i]];
      }
    }

    method RunDefersFrom(from: nat, failing: bool)
      requires base <= from && Well(Context()) && DefersOk(scopes)
      modifies this
      ensures Wrote(UnwindCode(old(Context()), from, failing, old(temps)))
      decreases Pending(Context()), 3, 0
    {
      hide UnwindFrom, ScopeCode, DefersOk;
      var snaps := SnapScopes(from);
      ghost var ctx, depth := Context(), |scopes|;
      var k := 0;
      while k < |snaps|
        invariant 0 <= k <= |snaps| && Context() == ctx
        invariant out + UnwindFrom(ctx, depth - k, from, failing, temps).code
               == old(out) + UnwindFrom(ctx, depth, from, failing, old(temps)).code
        invariant UnwindFrom(ctx, depth - k, from, failing, temps).n == UnwindFrom(ctx, depth, from, failing, old(temps)).n
      {
        ghost var before, n, at := out, temps, depth - k - 1;
        UnwindPrefix(ctx, at, from, failing, n);
        UnwindScope(snaps[k], failing, at);
        Appended(before, ScopeCode(ctx, at, failing, n).code, UnwindFrom(ctx, at, from, failing, temps).code);
        k := k + 1;
      }
      UnwindNothing(ctx, depth - k, from, failing, temps);
    }

    /** Cleanup as text for a statement expression: written into a fresh buffer, swapped in. */
    method SnapshotDefers(failing: bool, from: nat) returns (code: seq<CStmt>)
      requires base <= from && Well(Context()) && DefersOk(scopes)
      modifies this
      ensures Low(code, temps) == UnwindCode(old(Context()), from, failing, old(temps))
      ensures out == old(out) && Context() == old(Context())
      decreases Pending(Context()), 4, 0
    {
      hide UnwindCode, DefersOk;
      var saved := out;
      out := [];
      RunDefersFrom(from, failing);
      code := out;
      out := saved;
    }

    method AnyDefersNow() returns (any: bool)
      ensures any == AnyDefers(scopes)
    {
      any := false;
      var i := 0;
      while i < |scopes|
        invariant 0 <= i <= |scopes|
        invariant forall k :: 0 <= k < i ==> scopes[k].defers == [] && scopes[k].save.None?
      {
        if scopes[i].defers != [] || scopes[i].save.Some? {
          return true;
        }
        i := i + 1;
      }
    }

    /** `loop_scope`: the innermost loop a jump stops at. */
    method FindLoopScope(name: string) returns (at: nat)
      ensures at == JumpScope(scopes, name)
    {
      var i := |scopes|;
      assert scopes[..i] == scopes;
      while 0 < i
        invariant i <= |scopes|
        invariant JumpScope(scopes, name) == JumpScope(scopes[..i], name)
      {
        i := i - 1;
        assert scopes[..i + 1][..i] == scopes[..i];
        if scopes[i].loop && Aims(name, scopes[i].name) {
          return i;
        }
      }
      return 0;
    }

    /** The end of `emit_try` and `error_exit`: hand the failure over, clean up, go. */
    method LeaveFailing(t: Temp, ghost p: Place) returns (code: seq<CStmt>)
      requires Ready(p) && p.mayFail
      modifies this
      ensures Low(code, temps) == FailureExit(old(Context()), t, old(temps))
      ensures out == old(out) && Context() == old(Context())
      decreases Pending(Context()), 5, 0
    {
      hide UnwindCode, DefersOk, JumpScope;
      if failure.Some? {
        var unwind := SnapshotDefers(true, failureScope);
        code := [CopyTemp(Temp(CaughtError, failure.value), t)] + unwind + [Goto(Handler(failure.value))];
      } else {
        var unwind := SnapshotDefers(true, 0);
        code := unwind + [ReturnSlot(t)];
      }
    }

    method EmitExpr(e: Expr, ghost p: Place) returns (c: CExpr)
      requires Ready(p) && ExprOk(e, p)
      modifies this
      ensures LowExpr(c, temps) == LowerExpr(old(Context()), e, old(temps))
      ensures out == old(out) && Context() == old(Context())
      decreases Pending(Context()) + ExprSize(e), 6, 1
    {
      hide Reaches, DefersOk, FailureExit, LowerBlock;
      ReadyIsWell(p);
      match e
      case Lit(n) => c := CLit(n);
      case Name(x) => c := CVar(x);
      case Call(f, arg) =>
        var a := EmitExpr(arg, p);
        c := CCall(f, a);
      case Try(f, arg) =>
        var id := Tmp();
        var t := Temp(ResultTemp, id);
        var a := EmitExpr(arg, p);
        var leave := LeaveFailing(t, p);
        c := StmtExpr([CallInto(t, f, a), IfFailed(t, leave)], t);
      case Catch(_, _, _) => c := EmitCatch(e, p);
    }

    lemma ReadyIsWell(p: Place)
      requires Ready(p)
      ensures Well(Context()) && p.strict
    {
    }

    method EmitCatch(e: Expr, ghost p: Place) returns (c: CExpr)
      requires e.Catch? && Ready(p) && ExprOk(e, p)
      modifies this
      ensures LowExpr(c, temps) == LowerExpr(old(Context()), e, old(temps))
      ensures out == old(out) && Context() == old(Context())
      decreases Pending(Context()) + ExprSize(e), 6, 0
    {
      hide Reaches, DefersOk, LowerBlock, StmtsOk;
      ReadyIsWell(p);
      var id := Tmp();
      ghost var top := Context();
      ReachesCatch(p, top, id);
      var savedFailure, savedFailureScope := failure, failureScope;
      failure, failureScope := Some(id), |scopes|;
      var operand := EmitExpr(e.operand, p.(mayFail := true));
      failure, failureScope := savedFailure, savedFailureScope;
      var savedCatching, savedCatchScope := catching, catchScope;
      var savedOut := out;
      out := [];
      catching, catchScope := Some(id), |scopes|;
      ghost var n := temps;
      EmitBlock(e.handler, p.(inCatch := true));
      var body := out;
      assert body == LowerBlock(HandlerCtx(top, id), e.handler, n).code;
      out := savedOut;
      catching, catchScope := savedCatching, savedCatchScope;
      c := StmtExpr(CatchCode(id, operand, e.name, body), Temp(CatchValue, id));
    }

    method EmitBlock(ss: Stmts, ghost p: Place)
      requires Ready(p) && StmtsOk(ss, p)
      modifies this
      ensures Wrote(LowerBlock(old(Context()), ss, old(temps)))
      decreases Pending(Context()) + ListSize(ss), 7, 0
    {
      hide Reaches, DefersOk, LowerList, ListSize, StmtsOk, ScopeCode;
      ReadyIsWell(p);
      ghost var top, n := Context(), temps;
      ghost var ctx := Push(top, PLAIN);
      ReachesPush(p, top, PLAIN);
      DefersOkPush(scopes, PLAIN);
      var savedOut := out;
      out := [];
      scopes := scopes + [PLAIN];
      assert Context() == ctx;
      EmitList(ss, p);
      CloseScope();
      assert out == LowerList(ctx, ss, n).code;
      assert scopes == top.scopes;
      out := savedOut + [Braces(out)];
    }

    /** The end of a block: the cleanup of the scope on top, which is then closed. */
    method CloseScope()
      requires base < |scopes| && DefersOk(scopes)
      modifies this
      ensures
        var c := ScopeCode(old(Context()), |old(scopes)| - 1, false, old(temps));
        && out == old(out) + c.code && temps == c.n
        && Context() == old(Context()).(scopes := old(scopes)[..|old(scopes)| - 1])
      decreases Pending(Context()), 2, 0
    {
      hide DefersOk, ScopeCode;
      UnwindScope(scopes[|scopes| - 1], false, |scopes| - 1);
      scopes := scopes[..|scopes| - 1];
    }

    /** What a block's statements leave to be written is the end of the block. */
    twostate predicate Listed(ctx: Ctx, ss: Stmts)
      requires ctx.base < |ctx.scopes|
      reads this
    {
      && base < |scopes| && |scopes| == |ctx.scopes|
      && scopes[..|scopes| - 1] == ctx.scopes[..|ctx.scopes| - 1]
      && Context() == ctx.(scopes := scopes)
      && DefersOk(scopes)
      && var c := ScopeCode(Context(), |scopes| - 1, false, temps);
         out + c.code == old(out) + LowerList(ctx, ss, old(temps)).code && c.n == LowerList(ctx, ss, old(temps)).n
    }

    /** The statements of a block, into the scope on top. */
    method EmitList(ss: Stmts, ghost p: Place)
      requires base < |scopes| && Ready(p) && StmtsOk(ss, p)
      modifies this
      ensures Listed(old(Context()), ss)
      ensures Pending(Context()) < old(Pending(Context())) + ListSize(ss)
      decreases Pending(Context()) + ListSize(ss), 6, 0
    {
      hide LowerStmt, ScopeCode, Reaches, DefersOk, StmtOk, StmtSize, ScopesSize;
      ghost var ctx, n := Context(), temps;
      var rest := ss;
      while rest.Cons?
        invariant base < |scopes| && |scopes| == |ctx.scopes| && Ready(p) && StmtsOk(rest, p)
        invariant scopes[..|scopes| - 1] == ctx.scopes[..|ctx.scopes| - 1]
        invariant Context() == ctx.(scopes := scopes)
        invariant out + LowerList(Context(), rest, temps).code == old(out) + LowerList(ctx, ss, n).code
        invariant LowerList(Context(), rest, temps).n == LowerList(ctx, ss, n).n
        invariant Pending(Context()) + ListSize(rest) <= Pending(ctx) + ListSize(ss)
        decreases rest
      {
        ghost var now, m, before := Context(), temps, out;
        var s := rest.head;
        ReadyIsWell(p);
        if s.Defer? {
          StrictDefer(s, p);
          RegisteredOk(now, s.d);
          ReachesRegister(p, now, s.d);
          DeferStep(now, s, rest.tail, m);
          scopes := Register(scopes, s.d);
          assert Context() == Registered(now, s.d);
        } else {
          StmtStep(now, s, rest.tail, m);
          EmitStmt(s, p);
          Appended(before, LowerStmt(now, s, m).code, LowerList(now, rest.tail, temps).code);
        }
        rest := rest.tail;
      }
      ListEnd(Context(), rest, temps);
    }

    method EmitStmt(s: Stmt, ghost p: Place)
      requires Ready(p) && StmtOk(s, p) && !s.Defer?
      modifies this
      ensures Wrote(LowerStmt(old(Context()), s, old(temps)))
      decreases Pending(Context()) + StmtSize(s), 6, 2
    {
      hide Reaches, DefersOk, LowerExpr, LowerBlock, ExprSize, ListSize, UnwindCode, FailureExit;
      ReadyIsWell(p);
      match s
      case ExprStmt(e) =>
        var c := EmitExpr(e, p);
        Line(Eval(c));
      case Assign(x, e) =>
        var c := EmitExpr(e, p);
        Line(SetVar(x, c));
      case SetAllocator(e) =>
        var c := EmitExpr(e, p);
        Line(SetAlloc(c));
      case If(_, _, _) => EmitIf(s, p);
      case While(_, _, _) => EmitWhile(s, p);
      case Block(body) => EmitBlock(body, p);
      case With(_, _) => EmitWith(s, p);
      case Return(_) => EmitReturn(s, p);
      case ReturnUnit => EmitReturnUnit(p);
      case Error(_) => EmitError(s, p);
      case Break(_) => EmitJump(s, p);
      case Continue(_) => EmitJump(s, p);
      case Recover(_) => EmitRecover(s, p);
    }

    method EmitReturn(s: Stmt, ghost p: Place)
      requires s.Return? && Ready(p) && StmtOk(s, p)
      modifies this
      ensures Wrote(LowerStmt(old(Context()), s, old(temps)))
      decreases Pending(Context()) + StmtSize(s), 6, 1
    {
      hide DefersOk, LowerExpr, UnwindCode, ExprSize, AnyDefers, JumpScope;
      var c := EmitExpr(s.e, p);
      var any := AnyDefersNow();
      if any {
        var id := Tmp();
        Line(SetTemp(Temp(ReturnTemp, id), false, c));
        RunDefersFrom(0, false);
        Line(ReturnSlot(Temp(ReturnTemp, id)));
      } else {
        Line(ReturnOk(c));
      }
    }

    method EmitReturnUnit(ghost p: Place)
      requires Ready(p) && p.mayReturn
      modifies this
      ensures Wrote(LowerStmt(old(Context()), ReturnUnit, old(temps)))
      decreases Pending(Context()), 6, 1
    {
      hide DefersOk, UnwindCode, JumpScope;
      RunDefersFrom(0, false);
      Line(ReturnOk(CLit(0)));
    }

    method EmitError(s: Stmt, ghost p: Place)
      requires s.Error? && Ready(p) && StmtOk(s, p)
      modifies this
      ensures Wrote(LowerStmt(old(Context()), s, old(temps)))
      decreases Pending(Context()) + StmtSize(s), 6, 1
    {
      hide Reaches, DefersOk, LowerExpr, FailureExit, ExprSize;
      var id := Tmp();
      var t := Temp(ErrorTemp, id);
      ReadyIsWell(p);
      var c := EmitExpr(s.e, p);
      var leave := LeaveFailing(t, p);
      out := out + ([SetTemp(t, true, c)] + leave);
    }

    method EmitJump(s: Stmt, ghost p: Place)
      requires (s.Break? || s.Continue?) && Ready(p) && StmtOk(s, p)
      modifies this
      ensures Wrote(LowerStmt(old(Context()), s, old(temps)))
      decreases Pending(Context()) + StmtSize(s), 6, 1
    {
      hide DefersOk, UnwindCode, JumpScope;
      var from := FindLoopScope(s.loopName);
      RunDefersFrom(from, false);
      if s.loopName == "" {
        Line(if s.Break? then CBreak else CContinue);
      } else {
        Line(Goto(if s.Break? then BreakOf(s.loopName) else ContinueOf(s.loopName)));
      }
    }

    method EmitRecover(s: Stmt, ghost p: Place)
      requires s.Recover? && Ready(p) && StmtOk(s, p)
      modifies this
      ensures Wrote(LowerStmt(old(Context()), s, old(temps)))
      decreases Pending(Context()) + StmtSize(s), 6, 1
    {
      hide DefersOk, LowerExpr, UnwindCode, ExprSize, JumpScope;
      var c := EmitExpr(s.e, p);
      Line(SetTemp(Temp(CatchValue, catching.value), false, c));
      RunDefersFrom(catchScope, false);
      Line(Goto(Done(catching.value)));
    }

    method EmitIf(s: Stmt, ghost p: Place)
      requires s.If? && Ready(p) && StmtOk(s, p)
      modifies this
      ensures Wrote(LowerStmt(old(Context()), s, old(temps)))
      decreases Pending(Context()) + StmtSize(s), 6, 1
    {
      hide Reaches, DefersOk, LowerExpr, LowerBlock, ExprSize, ListSize, StmtsOk, ExprOk;
      ReadyIsWell(p);
      ghost var ctx := Context();
      var c := EmitExpr(s.cond, p);
      var savedOut := out;
      out := [];
      ghost var n := temps;
      EmitBlock(s.thn, p);
      var thn := out;
      assert thn == LowerBlock(ctx, s.thn, n).code;
      ghost var m := temps;
      out := [];
      EmitBlock(s.els, p);
      assert out == LowerBlock(ctx, s.els, m).code;
      out := savedOut + [CIf(c, thn, out)];
    }

    method EmitWhile(s: Stmt, ghost p: Place)
      requires s.While? && Ready(p) && StmtOk(s, p)
      modifies this
      ensures Wrote(LowerStmt(old(Context()), s, old(temps)))
      decreases Pending(Context()) + StmtSize(s), 6, 1
    {
      hide Reaches, DefersOk, LowerExpr, LowerBlock, ExprSize, ListSize, StmtsOk, ExprOk, ScopeCode;
      ReadyIsWell(p);
      ghost var top := Context();
      var sc := LoopScope(s.loopName);
      ghost var ctx := Push(top, sc);
      ReachesPush(p, top, sc);
      ReachesNoLoop(p, ctx);
      DefersOkPush(scopes, sc);
      scopes := scopes + [sc];
      assert Context() == ctx;
      var savedOut := out;
      out := [];
      var c := EmitExpr(s.cond, p.(inLoop := false));
      out := [BreakUnless(c)];
      ghost var n := temps;
      EmitBlock(s.body, InLoop(p, s.loopName));
      assert out == [BreakUnless(c)] + LowerBlock(ctx, s.body, n).code;
      if s.loopName != "" {
        Line(LabelHere(ContinueOf(s.loopName)));
      }
      out := savedOut + [Loop(out)];
      EmptyScope(ctx, temps);
      CloseScope();
      assert scopes == top.scopes;
      if s.loopName != "" {
        Line(LabelHere(BreakOf(s.loopName)));
      }
    }

    method EmitWith(s: Stmt, ghost p: Place)
      requires s.With? && Ready(p) && StmtOk(s, p)
      modifies this
      ensures Wrote(LowerStmt(old(Context()), s, old(temps)))
      decreases Pending(Context()) + StmtSize(s), 6, 1
    {
      hide Reaches, DefersOk, LowerExpr, LowerBlock, ExprSize, ListSize, StmtsOk, ExprOk, ScopeCode;
      ReadyIsWell(p);
      ghost var top := Context();
      var id := Tmp();
      var save := Temp(SavedAlloc, id);
      var savedOut := out;
      out := [SaveAlloc(save)];
      var c := EmitExpr(s.allocator, p);
      Line(SetAlloc(c));
      var sc := PLAIN.(save := Some(save));
      ghost var ctx, n := Push(top, sc), temps;
      ReachesPush(p, top, sc);
      DefersOkPush(scopes, sc);
      scopes := scopes + [sc];
      assert Context() == ctx;
      EmitBlock(s.body, p);
      EmptyScope(ctx, temps);
      CloseScope();
      assert out == [SaveAlloc(save), SetAlloc(c)] + LowerBlock(ctx, s.body, n).code + [RestoreAlloc(save)];
      assert scopes == top.scopes;
      out := savedOut + [Braces(out)];
    }

    /** A function's body, in the function's own scope. */
    method EmitFunction(body: Stmts, unit: bool)
      requires Context() == TOP && StmtsOk(body, Body(true))
      modifies this
      ensures Wrote(LowerFunction(body, unit, old(temps)))
    {
      hide LowerList, StmtsOk, ScopeCode;
      ghost var ctx, n := Push(TOP, PLAIN), temps;
      scopes := [PLAIN];
      assert Context() == ctx;
      EmitList(body, Body(true));
      CloseScope();
      assert out == old(out) + LowerList(ctx, body, n).code;
      Line(if unit then ReturnOk(CLit(0)) else TrapUnreachable);
    }
  }

  // ----- small facts the methods use -----

  lemma DeferIsOk(scopes: seq<Scope>, at: nat, i: nat)
    requires DefersOk(scopes) && at < |scopes| && i < |scopes[at].defers|
    ensures DeferOk(scopes[at].defers[i], SEALED)
  {
  }

  lemma SealedStatement(d: Deferred)
    requires DeferOk(d, SEALED)
    ensures StmtOk(d.what, SEALED) && !d.what.Defer?
  {
  }

  lemma PendingDefer(ctx: Ctx, at: nat, i: nat)
    requires ctx.base <= at < |ctx.scopes| && i < |ctx.scopes[at].defers|
    ensures StmtSize(ctx.scopes[at].defers[i].what) < Pending(ctx)
  {
    PartOfScopes(ctx.scopes, ctx.base, at, i);
  }

  lemma DeferWrites(ctx: Ctx, at: nat, i: nat, failing: bool, n: nat)
    requires ctx.base <= at < |ctx.scopes| && i < |ctx.scopes[at].defers|
    ensures
      var d := ctx.scopes[at].defers[i];
      DeferCode(ctx, at, i, failing, n) == if d.onFailure && !failing then Low([], n) else LowerStmt(Sealed(ctx), d.what, n)
  {
  }

  lemma DefersOkPush(scopes: seq<Scope>, sc: Scope)
    requires DefersOk(scopes) && sc.defers == []
    ensures DefersOk(scopes + [sc])
  {
    hide DeferOk;
  }

  lemma ReachesNoLoop(p: Place, ctx: Ctx)
    requires Reaches(p, ctx)
    ensures Reaches(p.(inLoop := false), ctx)
  {
  }

  lemma DeferStep(ctx: Ctx, s: Stmt, rest: Stmts, n: nat)
    requires ctx.base < |ctx.scopes| && s.Defer?
    ensures LowerList(ctx, Cons(s, rest), n) == LowerList(Registered(ctx, s.d), rest, n)
    ensures Pending(Registered(ctx, s.d)) + ListSize(rest) <= Pending(ctx) + ListSize(Cons(s, rest))
  {
    assert StmtSize(s) == 1 + DeferSize(s.d);
  }

  lemma StmtStep(ctx: Ctx, s: Stmt, rest: Stmts, n: nat)
    requires ctx.base < |ctx.scopes| && !s.Defer?
    ensures
      var a := LowerStmt(ctx, s, n);
      var b := LowerList(ctx, rest, a.n);
      LowerList(ctx, Cons(s, rest), n) == Low(a.code + b.code, b.n)
    ensures ListSize(Cons(s, rest)) == 1 + StmtSize(s) + ListSize(rest)
  {
    hide LowerStmt;
  }

  lemma ListEnd(ctx: Ctx, ss: Stmts, n: nat)
    requires ctx.base < |ctx.scopes| && ss.Nil?
    ensures LowerList(ctx, ss, n) == ScopeCode(ctx, |ctx.scopes| - 1, false, n) && ListSize(ss) == 1
  {
  }

  /** A scope that has deferred nothing writes at most its allocator. */
  lemma EmptyScope(ctx: Ctx, n: nat)
    requires ctx.base < |ctx.scopes| && ctx.scopes[|ctx.scopes| - 1].defers == []
    ensures
      var sc := ctx.scopes[|ctx.scopes| - 1];
      ScopeCode(ctx, |ctx.scopes| - 1, false, n) == Low(if sc.save.Some? then [RestoreAlloc(sc.save.value)] else [], n)
  {
    var tail := if ctx.scopes[|ctx.scopes| - 1].save.Some? then [RestoreAlloc(ctx.scopes[|ctx.scopes| - 1].save.value)] else [];
    assert [] + tail == tail;
  }
}
