/** The steps of "lowering cleanup preserves meaning": what cleanup code does, how a run of the
    emitted code matches a run of the source, and how matching runs are put together. */
module LoweringProof {
  import opened Wrappers
  import opened LuceSource
  import opened CTarget
  import opened Lowering

  // ----- leaving scopes, in the source -----

  /** Everything a scope has deferred, newest first. */
  function RunDefers(w: World, ds: seq<Deferred>, failing: bool, st: State): (r: Run)
    ensures (r.out == Normal || r.out == OutOfFuel) && r.st.turns <= st.turns
    decreases |ds|
  {
    if ds == [] then Run(Normal, st)
    else
      var c := Cleanup(w, ds[|ds| - 1], failing, st);
      if c.out == OutOfFuel then c else RunDefers(w, ds[..|ds| - 1], failing, c.st)
  }

  /** A run that leaves a block which has deferred `ds`. */
  function Leaving(w: World, ds: seq<Deferred>, r: Run): Run {
    if r.out == OutOfFuel then r else Resume(r.out, RunDefers(w, ds, r.out.Failing?, r.st))
  }

  lemma LeavingMore(w: World, ds: seq<Deferred>, d: Deferred, r: Run)
    ensures Leaving(w, ds + [d], r) == Leaving(w, ds, Finally(w, d, r))
  {
    assert (ds + [d])[..|ds|] == ds;
  }

  lemma LeavingNothing(w: World, r: Run)
    ensures Leaving(w, [], r) == r
  {
  }

  function CleanScope(w: World, sc: Scope, failing: bool, temps: Temps, st: State): (r: Run)
    ensures (r.out == Normal || r.out == OutOfFuel) && r.st.turns <= st.turns
  {
    var r := RunDefers(w, sc.defers, failing, st);
    if r.out == Normal && sc.save.Some? then Run(Normal, r.st.(alloc := Get(temps, sc.save.value).v)) else r
  }

  function Clean(w: World, scopes: seq<Scope>, from: nat, failing: bool, temps: Temps, st: State): (r: Run)
    ensures (r.out == Normal || r.out == OutOfFuel) && r.st.turns <= st.turns
    decreases |scopes|
  {
    if |scopes| <= from then Run(Normal, st)
    else
      var c := CleanScope(w, scopes[|scopes| - 1], failing, temps, st);
      if c.out == OutOfFuel then c else Clean(w, scopes[..|scopes| - 1], from, failing, temps, c.st)
  }

  // ----- the simulation -----

  predicate SavesOk(scopes: seq<Scope>, n: nat) {
    forall i :: 0 <= i < |scopes| && scopes[i].save.Some? ==>
      scopes[i].save.value.kind == SavedAlloc && scopes[i].save.value.id < n
  }

  predicate DefersOk(scopes: seq<Scope>) {
    forall i, j :: 0 <= i < |scopes| && 0 <= j < |scopes[i].defers| ==> DeferOk(scopes[i].defers[j], SEALED)
  }

  /** Temporaries named in the context are older than the counter, and nothing leaves what its
      scopes have deferred. */
  predicate CtxOk(ctx: Ctx, n: nat) {
    && SavesOk(ctx.scopes, n)
    && DefersOk(ctx.scopes)
    && (ctx.failure.Some? ==> ctx.failure.value < n)
    && (ctx.catching.Some? ==> ctx.catching.value < n)
    && ctx.failureScope <= |ctx.scopes|
    && ctx.catchScope <= |ctx.scopes|
    && Well(ctx)
  }

  /** A temporary that leaving with `o` hands over: the error to the handler, the recovered
      value to the `catch`.  What stops for lack of turns may have done so already. */
  predicate HandedOver(ctx: Ctx, o: Outcome, t: Temp) {
    || ((o.Failing? || o == OutOfFuel) && ctx.failure.Some? && t == Temp(CaughtError, ctx.failure.value))
    || ((o.Recovering? || o == OutOfFuel) && ctx.catching.Some? && t == Temp(CatchValue, ctx.catching.value))
  }

  /** Code written from counter `n` on leaves older temporaries alone, but for those it hands
      over when it leaves with `o`. */
  ghost predicate Frame(ctx: Ctx, o: Outcome, n: nat, t0: Temps, t1: Temps) {
    forall t: Temp :: t.id < n && !HandedOver(ctx, o, t) ==> Get(t1, t) == Get(t0, t)
  }

  /** How C leaves the code of a statement that leaves with `o`. */
  function Leave(ctx: Ctx, o: Outcome): COutcome {
    match o
    case Normal => CNormal
    case OutOfFuel => COutOfFuel
    case Breaking(l) => if l == "" then CBreaking else Jumping(BreakOf(l))
    case Continuing(l) => if l == "" then CContinuing else Jumping(ContinueOf(l))
    case Returning(v) => CReturning(Slot(false, v))
    case Failing(e) => if ctx.failure.Some? then Jumping(Handler(ctx.failure.value)) else CReturning(Slot(true, e))
    case Recovering(v) => if ctx.catching.Some? then Jumping(Done(ctx.catching.value)) else CReturning(Slot(false, v))
  }

  /** The scope a way out unwinds to. */
  function Target(ctx: Ctx, o: Outcome): nat {
    var t := match o
      case Breaking(l) => JumpScope(ctx.scopes, l)
      case Continuing(l) => JumpScope(ctx.scopes, l)
      case Failing(_) => if ctx.failure.Some? then ctx.failureScope else 0
      case Recovering(_) => if ctx.catching.Some? then ctx.catchScope else 0
      case _ => 0;
    if t < ctx.base then ctx.base else t
  }

  /** How and where C leaves: the enclosing scopes are already cleaned. */
  function Finish(w: World, ctx: Ctx, o: Outcome, temps: Temps, st: State): Run {
    if o == Normal || o == OutOfFuel then Run(o, st)
    else Resume(o, Clean(w, ctx.scopes, Target(ctx, o), o.Failing?, temps, st))
  }

  /** The run `r` of emitted code matches a source run that left with `o` in `st`. */
  ghost predicate Matches(w: World, ctx: Ctx, n: nat, t0: Temps, o: Outcome, st: State, r: CRun) {
    var f := Finish(w, ctx, o, r.cs.temps, st);
    && Frame(ctx, f.out, n, t0, r.cs.temps)
    && r.out == Leave(ctx, f.out)
    && r.cs.st == f.st
    && (f.out.Failing? && ctx.failure.Some? ==> Get(r.cs.temps, Temp(CaughtError, ctx.failure.value)).v == f.out.err)
    && (f.out.Recovering? && ctx.catching.Some? ==> Get(r.cs.temps, Temp(CatchValue, ctx.catching.value)).v == f.out.v)
  }

  /** Deferred statement `i` of scope `at`, written from counter `m`, does what it means. */
  ghost predicate DeferSim(w: World, ctx: Ctx, at: nat, i: nat, m: nat, cs: CState)
    requires ctx.base <= at < |ctx.scopes| && i < |ctx.scopes[at].defers|
  {
    var d := ctx.scopes[at].defers[i];
    var r := ExecStmt(w, d.what, cs.st);
    && (r.out == Normal || r.out == OutOfFuel)
    && Matches(w, Sealed(ctx), m, cs.temps, r.out, r.st, CExec(w, LowerStmt(Sealed(ctx), d.what, m).code, cs))
  }

  /** Everything an exit may have to write does what it means, in runs of at most `limit` turns. */
  ghost predicate Cleans(w: World, ctx: Ctx, n: nat, limit: nat) {
    forall at: nat, i: nat, m: nat, cs: CState ::
      ctx.base <= at < |ctx.scopes| && i < |ctx.scopes[at].defers| && n <= m && cs.st.turns <= limit ==>
        DeferSim(w, ctx, at, i, m, cs)
  }

  /** Matching a run that goes on from a first run which ended normally. */
  lemma MatchesAfter(
    w: World, ctx: Ctx, n: nat, m: nat, t0: Temps, t1: Temps, o: Outcome, st: State, r: CRun)
    requires n <= m && Frame(ctx, Normal, n, t0, t1) && Matches(w, ctx, m, t1, o, st, r)
    ensures Matches(w, ctx, n, t0, o, st, r)
  {
    hide Clean;
    FrameThen(ctx, Finish(w, ctx, o, r.cs.temps, st).out, n, m, t0, t1, r.cs.temps);
  }

  lemma FrameThen(ctx: Ctx, o: Outcome, n: nat, m: nat, t0: Temps, t1: Temps, t2: Temps)
    requires n <= m && Frame(ctx, Normal, n, t0, t1) && Frame(ctx, o, m, t1, t2)
    ensures Frame(ctx, o, n, t0, t2)
  {
    forall t: Temp | t.id < n && !HandedOver(ctx, o, t) ensures Get(t2, t) == Get(t0, t) {
      assert Get(t1, t) == Get(t0, t);
    }
  }

  lemma FrameSame(ctx: Ctx, o: Outcome, n: nat, t: Temps)
    ensures Frame(ctx, o, n, t, t)
  {
  }

  lemma FrameAny(ctx: Ctx, o: Outcome, n: nat, t0: Temps, t1: Temps)
    requires Frame(ctx, Normal, n, t0, t1)
    ensures Frame(ctx, o, n, t0, t1)
  {
  }

  lemma {:induction false} JumpScopeBound(scopes: seq<Scope>, name: string)
    ensures JumpScope(scopes, name) <= |scopes|
    decreases |scopes|
  {
    if scopes != [] {
      JumpScopeBound(scopes[..|scopes| - 1], name);
    }
  }

  lemma TargetBound(ctx: Ctx, o: Outcome, n: nat)
    requires CtxOk(ctx, n)
    ensures ctx.base <= Target(ctx, o) <= |ctx.scopes|
  {
    if o.Breaking? || o.Continuing? {
      JumpScopeBound(ctx.scopes, o.name);
    }
  }

  /** Leaving one more scope: its cleanup comes first, the rest is the enclosing scopes'. */
  lemma PopScope(w: World, ctx: Ctx, sc: Scope, n: nat, t0: Temps, o: Outcome, st: State, r: CRun)
    requires CtxOk(ctx, n) && Matches(w, Push(ctx, sc), n, t0, o, st, r)
    requires o != Normal && o != OutOfFuel
    requires sc.loop && (o.Breaking? || o.Continuing?) ==> !Aims(o.name, sc.name)
    ensures
      var c := CleanScope(w, sc, o.Failing?, r.cs.temps, st);
      Matches(w, ctx, n, t0, if c.out == OutOfFuel then OutOfFuel else o, c.st, r)
  {
    hide CleanScope;
    var inner := Push(ctx, sc);
    TargetBound(ctx, o, n);
    assert Target(inner, o) == Target(ctx, o);
    assert forall x: Outcome, t: Temp :: HandedOver(inner, x, t) == HandedOver(ctx, x, t);
  }

  // ----- temporaries that cleanup reads -----

  ghost predicate SameSaves(scopes: seq<Scope>, t0: Temps, t1: Temps) {
    forall i :: 0 <= i < |scopes| && scopes[i].save.Some? ==> Get(t1, scopes[i].save.value) == Get(t0, scopes[i].save.value)
  }

  /** Cleanup depends on the saved allocators only. */
  lemma {:induction false} CleanSame(
    w: World, scopes: seq<Scope>, from: nat, failing: bool, t0: Temps, t1: Temps, st: State)
    requires SameSaves(scopes, t0, t1)
    ensures Clean(w, scopes, from, failing, t0, st) == Clean(w, scopes, from, failing, t1, st)
    decreases |scopes|
  {
    if from < |scopes| {
      hide RunDefers;
      var sc := scopes[|scopes| - 1];
      assert CleanScope(w, sc, failing, t0, st) == CleanScope(w, sc, failing, t1, st);
      CleanSame(w, scopes[..|scopes| - 1], from, failing, t0, t1, CleanScope(w, sc, failing, t0, st).st);
    }
  }

  // ----- no jump lands on a label it does not mean -----

  /** A label that code standing under the open loops `open` never carries itself. */
  predicate Foreign(l: Label, open: set<string>) { l.BreakOf? ==> l.name in open }

  lemma OneHasNoLabels(s: CStmt, l: Label)
    requires s != LabelHere(l)
    ensures !HasLabel([s], l)
  {
    assert [s][1..] == [];
  }

  lemma NothingHasNoLabels(l: Label)
    ensures !HasLabel([], l)
  {
  }

  /** What is deferred is one C statement, and no label. */
  lemma DeferHasNoLabels(ctx: Ctx, at: nat, i: nat, failing: bool, n: nat, l: Label)
    requires ctx.base <= at < |ctx.scopes| && i < |ctx.scopes[at].defers| && DefersOk(ctx.scopes)
    ensures !HasLabel(DeferCode(ctx, at, i, failing, n).code, l)
  {
    hide HasLabel, LowerBlock, LowerExpr;
    var d := ctx.scopes[at].defers[i];
    assert DeferOk(d, SEALED);
    NothingHasNoLabels(l);
    var code := DeferCode(ctx, at, i, failing, n).code;
    if code != [] {
      assert code == LowerStmt(Sealed(ctx), d.what, n).code;
      SingleStatement(Sealed(ctx), d.what, n);
      OneHasNoLabels(code[0], l);
      assert code == [code[0]];
    }
  }

  lemma SingleStatement(ctx: Ctx, s: Stmt, n: nat)
    requires Well(ctx) && (s.Block? || s.Assign? || s.SetAllocator? || s.ExprStmt?)
    ensures |LowerStmt(ctx, s, n).code| == 1 && !LowerStmt(ctx, s, n).code[0].LabelHere?
  {
    hide LowerList, LowerExpr;
  }

  lemma {:induction false} DefersHaveNoLabels(ctx: Ctx, at: nat, i: nat, failing: bool, n: nat, l: Label)
    requires ctx.base <= at < |ctx.scopes| && i <= |ctx.scopes[at].defers| && DefersOk(ctx.scopes)
    ensures !HasLabel(DefersCode(ctx, at, i, failing, n).code, l)
    decreases i
  {
    hide HasLabel, DeferCode;
    NothingHasNoLabels(l);
    if i > 0 {
      var a := DeferCode(ctx, at, i - 1, failing, n);
      DeferHasNoLabels(ctx, at, i - 1, failing, n, l);
      DefersHaveNoLabels(ctx, at, i - 1, failing, a.n, l);
      LabelsOfAppend(a.code, DefersCode(ctx, at, i - 1, failing, a.n).code, l);
    }
  }

  lemma ScopeHasNoLabels(ctx: Ctx, at: nat, failing: bool, n: nat, l: Label)
    requires ctx.base <= at < |ctx.scopes| && DefersOk(ctx.scopes)
    ensures !HasLabel(ScopeCode(ctx, at, failing, n).code, l)
  {
    hide HasLabel, DefersCode;
    var sc := ctx.scopes[at];
    var a := DefersCode(ctx, at, |sc.defers|, failing, n);
    DefersHaveNoLabels(ctx, at, |sc.defers|, failing, n, l);
    var tail := if sc.save.Some? then [RestoreAlloc(sc.save.value)] else [];
    NothingHasNoLabels(l);
    if sc.save.Some? { OneHasNoLabels(tail[0], l); }
    LabelsOfAppend(a.code, tail, l);
  }

  lemma {:induction false} UnwindHasNoLabels(ctx: Ctx, k: nat, from: nat, failing: bool, n: nat, l: Label)
    requires k <= |ctx.scopes| && DefersOk(ctx.scopes)
    ensures !HasLabel(UnwindFrom(ctx, k, from, failing, n).code, l)
    decreases k
  {
    hide HasLabel, ScopeCode;
    NothingHasNoLabels(l);
    if k > from && k > ctx.base {
      var a := ScopeCode(ctx, k - 1, failing, n);
      ScopeHasNoLabels(ctx, k - 1, failing, n, l);
      UnwindHasNoLabels(ctx, k - 1, from, failing, a.n, l);
      LabelsOfAppend(a.code, UnwindFrom(ctx, k - 1, from, failing, a.n).code, l);
    }
  }

  /** `first`, cleanup, `last`, with no labels at either end. */
  lemma JumpHasNoLabels(first: seq<CStmt>, ctx: Ctx, from: nat, failing: bool, n: nat, last: CStmt, l: Label)
    requires !HasLabel(first, l) && last != LabelHere(l) && DefersOk(ctx.scopes)
    ensures !HasLabel(first + UnwindCode(ctx, from, failing, n).code + [last], l)
    ensures !HasLabel(UnwindCode(ctx, from, failing, n).code + [last], l)
  {
    hide HasLabel, UnwindFrom;
    var u := UnwindCode(ctx, from, failing, n).code;
    UnwindHasNoLabels(ctx, |ctx.scopes|, from, failing, n, l);
    OneHasNoLabels(last, l);
    LabelsOfAppend(first, u, l);
    LabelsOfAppend(first + u, [last], l);
    LabelsOfAppend(u, [last], l);
  }

  lemma FailureHasNoLabels(ctx: Ctx, t: Temp, n: nat, l: Label)
    requires DefersOk(ctx.scopes)
    ensures !HasLabel(FailureExit(ctx, t, n).code, l)
  {
    hide HasLabel, UnwindCode;
    match ctx.failure
    case Some(id) =>
      OneHasNoLabels(CopyTemp(Temp(CaughtError, id), t), l);
      JumpHasNoLabels([CopyTemp(Temp(CaughtError, id), t)], ctx, ctx.failureScope, true, n, Goto(Handler(id)), l);
    case None =>
      NothingHasNoLabels(l);
      JumpHasNoLabels([], ctx, 0, true, n, ReturnSlot(t), l);
  }

  /** `return`, `error`, jumps and `recover` carry no label. */
  lemma ExitHasNoLabels(ctx: Ctx, s: Stmt, n: nat, l: Label)
    requires s.Return? || s.ReturnUnit? || s.Error? || s.Break? || s.Continue? || s.Recover?
    requires Well(ctx) && DefersOk(ctx.scopes)
    ensures !HasLabel(LowerStmt(ctx, s, n).code, l)
  {
    hide HasLabel, LowerExpr, UnwindCode, FailureExit;
    NothingHasNoLabels(l);
    match s
    case Return(e) =>
      var a := LowerExpr(ctx, e, n);
      var t := Temp(ReturnTemp, a.n);
      OneHasNoLabels(SetTemp(t, false, a.e), l);
      OneHasNoLabels(ReturnOk(a.e), l);
      JumpHasNoLabels([SetTemp(t, false, a.e)], ctx, 0, false, a.n + 1, ReturnSlot(t), l);
    case ReturnUnit => JumpHasNoLabels([], ctx, 0, false, n, ReturnOk(CLit(0)), l);
    case Error(e) =>
      var a := LowerExpr(ctx, e, n + 1);
      var t := Temp(ErrorTemp, n);
      OneHasNoLabels(SetTemp(t, true, a.e), l);
      FailureHasNoLabels(ctx, t, a.n, l);
      LabelsOfAppend([SetTemp(t, true, a.e)], FailureExit(ctx, t, a.n).code, l);
    case Break(name) =>
      JumpHasNoLabels([], ctx, JumpScope(ctx.scopes, name), false, n, if name == "" then CBreak else Goto(BreakOf(name)), l);
    case Continue(name) =>
      JumpHasNoLabels([], ctx, JumpScope(ctx.scopes, name), false, n,
                      if name == "" then CContinue else Goto(ContinueOf(name)), l);
    case Recover(e) => RecoverHasNoLabels(ctx, e, n, l);
  }

  lemma RecoverHasNoLabels(ctx: Ctx, e: Expr, n: nat, l: Label)
    requires Well(ctx) && DefersOk(ctx.scopes)
    ensures !HasLabel(LowerStmt(ctx, Recover(e), n).code, l)
  {
    hide HasLabel, LowerExpr, UnwindCode;
    var a := LowerExpr(ctx, e, n);
    NothingHasNoLabels(l);
    if ctx.catching.Some? {
      var keep := SetTemp(Temp(CatchValue, ctx.catching.value), false, a.e);
      OneHasNoLabels(keep, l);
      JumpHasNoLabels([keep], ctx, ctx.catchScope, false, a.n, Goto(Done(ctx.catching.value)), l);
    } else {
      JumpHasNoLabels([], ctx, 0, false, a.n, ReturnOk(a.e), l);
    }
  }

  /** A statement's code carries at most the labels of the loop it is, which is not open yet. */
  lemma StmtHasNoLabels(ctx: Ctx, s: Stmt, n: nat, p: Place, l: Label)
    requires StmtOk(s, p) && Foreign(l, p.open) && Well(ctx) && DefersOk(ctx.scopes)
    ensures !HasLabel(LowerStmt(ctx, s, n).code, l)
  {
    hide HasLabel, LowerExpr, LowerBlock, UnwindCode, FailureExit, ExprOk, StmtsOk;
    NothingHasNoLabels(l);
    match s
    case While(name, c, body) =>
      var code := LowerStmt(ctx, s, n).code;
      OneHasNoLabels(code[0], l);
      if name == "" {
        assert code == [code[0]];
      } else {
        OneHasNoLabels(code[1], l);
        LabelsOfAppend([code[0]], [code[1]], l);
        assert code == [code[0]] + [code[1]];
      }
    case If(_, _, _) => OneHasNoLabels(LowerStmt(ctx, s, n).code[0], l);
    case With(_, _) => OneHasNoLabels(LowerStmt(ctx, s, n).code[0], l);
    case Defer(_) =>
    case Block(_) => PlainHasNoLabels(ctx, s, n, l);
    case ExprStmt(_) => PlainHasNoLabels(ctx, s, n, l);
    case Assign(_, _) => PlainHasNoLabels(ctx, s, n, l);
    case SetAllocator(_) => PlainHasNoLabels(ctx, s, n, l);
    case _ => ExitHasNoLabels(ctx, s, n, l);
  }

  lemma PlainHasNoLabels(ctx: Ctx, s: Stmt, n: nat, l: Label)
    requires Well(ctx) && (s.Block? || s.Assign? || s.SetAllocator? || s.ExprStmt?)
    ensures !HasLabel(LowerStmt(ctx, s, n).code, l)
  {
    hide HasLabel, LowerStmt;
    SingleStatement(ctx, s, n);
    var code := LowerStmt(ctx, s, n).code;
    OneHasNoLabels(code[0], l);
    assert code == [code[0]];
  }

  lemma {:induction false} ListHasNoLabels(ctx: Ctx, ss: Stmts, n: nat, p: Place, l: Label)
    requires ctx.base < |ctx.scopes| && p.strict && StmtsOk(ss, p) && Foreign(l, p.open) && DefersOk(ctx.scopes)
    ensures !HasLabel(LowerList(ctx, ss, n).code, l)
    decreases ss
  {
    hide HasLabel, LowerStmt, ScopeCode;
    match ss
    case Nil => ScopeHasNoLabels(ctx, |ctx.scopes| - 1, false, n, l);
    case Cons(s, rest) =>
      if s.Defer? {
        StrictDefer(s, p);
        RegisteredOk(ctx, s.d);
        ListHasNoLabels(Registered(ctx, s.d), rest, n, p, l);
      } else {
        var a := LowerStmt(ctx, s, n);
        StmtHasNoLabels(ctx, s, n, p, l);
        ListHasNoLabels(ctx, rest, a.n, p, l);
        LabelsOfAppend(a.code, LowerList(ctx, rest, a.n).code, l);
      }
  }

  lemma StrictDefer(s: Stmt, p: Place)
    requires s.Defer? && p.strict && StmtOk(s, p)
    ensures DeferOk(s.d, SEALED)
  {
    assert DeferOk(s.d, p);
  }

  lemma RegisteredOk(ctx: Ctx, d: Deferred)
    requires ctx.base < |ctx.scopes| && DefersOk(ctx.scopes) && DeferOk(d, SEALED)
    ensures DefersOk(Registered(ctx, d).scopes)
  {
    hide DeferOk, ScopesSize;
    var n, after := |ctx.scopes| - 1, Registered(ctx, d).scopes;
    forall i, j | 0 <= i < |after| && 0 <= j < |after[i].defers| ensures DeferOk(after[i].defers[j], SEALED) {
      if i < n || j < |ctx.scopes[n].defers| { assert after[i].defers[j] == ctx.scopes[i].defers[j]; }
    }
  }

  // ----- what cleanup code does -----

  /** Cleanup code ended or ran out of turns, like the cleanup, and kept older temporaries. */
  ghost predicate Cleaned(ctx: Ctx, n: nat, c: Run, cs: CState, r: CRun) {
    && r.cs.st == c.st
    && (c.out == Normal || c.out == OutOfFuel)
    && r.out == (if c.out == OutOfFuel then COutOfFuel else CNormal)
    && Frame(ctx, c.out, n, cs.temps, r.cs.temps)
  }

  lemma DeferRun(w: World, ctx: Ctx, at: nat, i: nat, failing: bool, n: nat, m: nat, cs: CState, limit: nat)
    requires ctx.base <= at < |ctx.scopes| && i < |ctx.scopes[at].defers| && n <= m && Cleans(w, ctx, n, limit) && cs.st.turns <= limit
    ensures Cleaned(ctx, m, Cleanup(w, ctx.scopes[at].defers[i], failing, cs.st), cs,
                    CExec(w, DeferCode(ctx, at, i, failing, m).code, cs))
  {
    hide CExec, ExecStmt, LowerStmt, Clean;
    assert DeferSim(w, ctx, at, i, m, cs);
    ExecNothing(w, cs);
    assert forall x: Outcome, t: Temp :: HandedOver(Sealed(ctx), x, t) == HandedOver(ctx, x, t);
  }

  lemma {:induction false} DefersRun(
    w: World, ctx: Ctx, at: nat, i: nat, failing: bool, n: nat, m: nat, cs: CState, limit: nat)
    requires ctx.base <= at < |ctx.scopes| && i <= |ctx.scopes[at].defers| && n <= m && Cleans(w, ctx, n, limit) && cs.st.turns <= limit
    ensures Cleaned(ctx, m, RunDefers(w, ctx.scopes[at].defers[..i], failing, cs.st), cs,
                    CExec(w, DefersCode(ctx, at, i, failing, m).code, cs))
    decreases i
  {
    hide CExec, Cleanup, DeferCode, Cleans, Frame;
    var ds := ctx.scopes[at].defers;
    if i == 0 {
      ExecNothing(w, cs);
      FrameSame(ctx, Normal, m, cs.temps);
    } else {
      var a := DeferCode(ctx, at, i - 1, failing, m);
      var b := DefersCode(ctx, at, i - 1, failing, a.n);
      assert ds[..i][..i - 1] == ds[..i - 1];
      DeferRun(w, ctx, at, i - 1, failing, n, m, cs, limit);
      ExecAppend(w, a.code, b.code, cs);
      var r := CExec(w, a.code, cs);
      if r.out == CNormal {
        DefersRun(w, ctx, at, i - 1, failing, n, a.n, r.cs, limit);
        var c := RunDefers(w, ds[..i - 1], failing, r.cs.st);
        FrameThen(ctx, c.out, m, a.n, cs.temps, r.cs.temps, CExec(w, b.code, r.cs).cs.temps);
      }
    }
  }

  lemma ScopeRun(w: World, ctx: Ctx, at: nat, failing: bool, n: nat, m: nat, cs: CState, limit: nat)
    requires ctx.base <= at < |ctx.scopes| && n <= m && CtxOk(ctx, n) && Cleans(w, ctx, n, limit) && cs.st.turns <= limit
    ensures Cleaned(ctx, m, CleanScope(w, ctx.scopes[at], failing, cs.temps, cs.st), cs,
                    CExec(w, ScopeCode(ctx, at, failing, m).code, cs))
  {
    hide CExec, RunDefers, DefersCode, Cleans, DefersOk;
    var sc := ctx.scopes[at];
    var a := DefersCode(ctx, at, |sc.defers|, failing, m);
    assert sc.defers[..|sc.defers|] == sc.defers;
    DefersRun(w, ctx, at, |sc.defers|, failing, n, m, cs, limit);
    var r := CExec(w, a.code, cs);
    if sc.save.Some? {
      var save := sc.save.value;
      assert save.id < m && save.kind == SavedAlloc;
      assert Get(r.cs.temps, save) == Get(cs.temps, save);
      hide Frame, SavesOk;
      ExecAppend(w, a.code, [RestoreAlloc(save)], cs);
      ExecOne(w, RestoreAlloc(save), [], r.cs);
    } else {
      assert a.code + [] == a.code;
    }
  }

  lemma {:induction false} UnwindRun(
    w: World, ctx: Ctx, k: nat, from: nat, failing: bool, n: nat, m: nat, cs: CState, limit: nat)
    requires k <= |ctx.scopes| && n <= m && CtxOk(ctx, n) && Cleans(w, ctx, n, limit) && cs.st.turns <= limit
    ensures
      var c := Clean(w, ctx.scopes[..k], if from < ctx.base then ctx.base else from, failing, cs.temps, cs.st);
      Cleaned(ctx, m, c, cs, CExec(w, UnwindFrom(ctx, k, from, failing, m).code, cs))
    decreases k
  {
    hide CExec, CleanScope, ScopeCode, Cleans, Frame, DefersOk;
    if k <= from || k <= ctx.base {
      ExecNothing(w, cs);
      FrameSame(ctx, Normal, m, cs.temps);
    } else {
      var a := ScopeCode(ctx, k - 1, failing, m);
      var b := UnwindFrom(ctx, k - 1, from, failing, a.n);
      var outer := ctx.scopes[..k - 1];
      assert ctx.scopes[..k][..k - 1] == outer;
      ScopeRun(w, ctx, k - 1, failing, n, m, cs, limit);
      ExecAppend(w, a.code, b.code, cs);
      var r := CExec(w, a.code, cs);
      if r.out == CNormal {
        UnwindRun(w, ctx, k - 1, from, failing, n, a.n, r.cs, limit);
        var c := Clean(w, outer, if from < ctx.base then ctx.base else from, failing, r.cs.temps, r.cs.st);
        FrameThen(ctx, c.out, m, a.n, cs.temps, r.cs.temps, CExec(w, b.code, r.cs).cs.temps);
        FrameSaves(ctx, Normal, outer, n, m, cs.temps, r.cs.temps);
        CleanSame(w, outer, if from < ctx.base then ctx.base else from, failing, cs.temps, r.cs.temps, r.cs.st);
      }
    }
  }

  /** Saved allocators are never handed over. */
  lemma FrameSaves(ctx: Ctx, o: Outcome, outer: seq<Scope>, n: nat, m: nat, t0: Temps, t1: Temps)
    requires outer <= ctx.scopes && SavesOk(ctx.scopes, n) && n <= m && Frame(ctx, o, m, t0, t1)
    ensures SameSaves(outer, t0, t1)
  {
  }

  /** Cleanup code followed by the jump it prepares: the jump is taken in the state after the
      cleanup, unless the cleanup does not end. */
  lemma UnwindThen(
    w: World, ctx: Ctx, from: nat, failing: bool, jump: CStmt, n: nat, m: nat, cs: CState, limit: nat) returns (u: CRun)
    requires n <= m && CtxOk(ctx, n) && Cleans(w, ctx, n, limit) && cs.st.turns <= limit
    ensures
      var c := Clean(w, ctx.scopes, if from < ctx.base then ctx.base else from, failing, u.cs.temps, cs.st);
      && Cleaned(ctx, m, c, cs, u)
      && CExec(w, UnwindCode(ctx, from, failing, m).code + [jump], cs)
         == if c.out == OutOfFuel then u else CStep(w, jump, u.cs)
  {
    hide CExec, CStep, Clean, UnwindFrom, Cleans, DefersOk, Frame;
    var code := UnwindCode(ctx, from, failing, m).code;
    u := CExec(w, code, cs);
    assert ctx.scopes[..|ctx.scopes|] == ctx.scopes;
    UnwindRun(w, ctx, |ctx.scopes|, from, failing, n, m, cs, limit);
    FrameSaves(ctx, if u.out == CNormal then Normal else OutOfFuel, ctx.scopes, n, m, cs.temps, u.cs.temps);
    CleanSame(w, ctx.scopes, if from < ctx.base then ctx.base else from, failing, cs.temps, u.cs.temps, cs.st);
    ExecAppend(w, code, [jump], cs);
    ExecOne(w, jump, [], u.cs);
  }

  /** `first`, then cleanup, then the jump it prepares. */
  lemma StepUnwindThen(
    w: World, first: CStmt, ctx: Ctx, from: nat, failing: bool, jump: CStmt, n: nat, m: nat, cs: CState, cs1: CState,
    limit: nat) returns (u: CRun)
    requires CStep(w, first, cs) == CRun(CNormal, cs1)
    requires n <= m && CtxOk(ctx, n) && Cleans(w, ctx, n, limit) && cs.st.turns <= limit
    ensures
      var c := Clean(w, ctx.scopes, if from < ctx.base then ctx.base else from, failing, u.cs.temps, cs1.st);
      && Cleaned(ctx, m, c, cs1, u)
      && CExec(w, [first] + UnwindCode(ctx, from, failing, m).code + [jump], cs)
         == if c.out == OutOfFuel then u else CStep(w, jump, u.cs)
  {
    hide CExec, CStep, Clean, UnwindCode, Cleans, CtxOk, Frame;
    var rest := UnwindCode(ctx, from, failing, m).code + [jump];
    assert [first] + UnwindCode(ctx, from, failing, m).code + [jump] == [first] + rest;
    ExecOne(w, first, rest, cs);
    u := UnwindThen(w, ctx, from, failing, jump, n, m, cs1, limit);
  }

  /** A failure held in `t` reaches its handler, or leaves the function. */
  lemma FailureRuns(w: World, ctx: Ctx, t: Temp, n: nat, m: nat, t0: Temps, cs: CState, limit: nat)
    requires CtxOk(ctx, n) && Cleans(w, ctx, n, limit) && cs.st.turns <= limit && n <= m && t.id < m
    requires Frame(ctx, Normal, n, t0, cs.temps) && t.kind != CaughtError && Get(cs.temps, t).failed
    ensures Matches(w, ctx, n, t0, Failing(Get(cs.temps, t).v), cs.st, CExec(w, FailureExit(ctx, t, m).code, cs))
  {
    if ctx.failure.Some? {
      FailureCaught(w, ctx, t, n, m, t0, cs, limit);
    } else {
      FailureReturned(w, ctx, t, n, m, t0, cs, limit);
    }
  }

  lemma FailureCaught(w: World, ctx: Ctx, t: Temp, n: nat, m: nat, t0: Temps, cs: CState, limit: nat)
    requires CtxOk(ctx, n) && Cleans(w, ctx, n, limit) && cs.st.turns <= limit && n <= m && t.id < m && ctx.failure.Some?
    requires Frame(ctx, Normal, n, t0, cs.temps) && t.kind != CaughtError && Get(cs.temps, t).failed
    ensures Matches(w, ctx, n, t0, Failing(Get(cs.temps, t).v), cs.st, CExec(w, FailureExit(ctx, t, m).code, cs))
  {
    hide CExec, UnwindCode, Clean, Cleans, DefersOk, SavesOk, ScopesSize, CEval;
    var id, err := ctx.failure.value, Get(cs.temps, t).v;
    var caught := Temp(CaughtError, id);
    var cs1 := cs.(temps := cs.temps[caught := Get(cs.temps, t)]);
    var u := StepUnwindThen(w, CopyTemp(caught, t), ctx, ctx.failureScope, true, Goto(Handler(id)), n, m, cs, cs1, limit);
    FailureFrame(ctx, err, n, m, t0, cs.temps, cs1.temps, u);
    assert u.out == CNormal ==> Get(u.cs.temps, caught) == Get(cs1.temps, caught);
    hide Frame;
  }

  lemma FailureReturned(w: World, ctx: Ctx, t: Temp, n: nat, m: nat, t0: Temps, cs: CState, limit: nat)
    requires CtxOk(ctx, n) && Cleans(w, ctx, n, limit) && cs.st.turns <= limit && n <= m && t.id < m && ctx.failure.None?
    requires Frame(ctx, Normal, n, t0, cs.temps) && t.kind != CaughtError && Get(cs.temps, t).failed
    ensures Matches(w, ctx, n, t0, Failing(Get(cs.temps, t).v), cs.st, CExec(w, FailureExit(ctx, t, m).code, cs))
  {
    hide CExec, UnwindCode, Clean, Cleans, DefersOk, SavesOk, ScopesSize, CEval;
    var err := Get(cs.temps, t).v;
    var u := UnwindThen(w, ctx, 0, true, ReturnSlot(t), n, m, cs, limit);
    FailureFrame(ctx, err, n, m, t0, cs.temps, cs.temps, u);
    assert u.out == CNormal ==> Get(u.cs.temps, t) == Get(cs.temps, t);
    hide Frame;
  }

  lemma FailureFrame(ctx: Ctx, err: nat, n: nat, m: nat, t0: Temps, t1: Temps, t2: Temps, u: CRun)
    requires n <= m && Frame(ctx, Normal, n, t0, t1) && Frame(ctx, Failing(err), n, t1, t2)
    requires Frame(ctx, if u.out == CNormal then Normal else OutOfFuel, m, t2, u.cs.temps)
    ensures Frame(ctx, if u.out == CNormal then Failing(err) else OutOfFuel, n, t0, u.cs.temps)
  {
    var o := if u.out == CNormal then Failing(err) else OutOfFuel;
    forall t: Temp | t.id < n && !HandedOver(ctx, o, t) ensures Get(u.cs.temps, t) == Get(t0, t) {
      assert Get(t1, t) == Get(t0, t) && Get(t2, t) == Get(t1, t);
    }
  }

  /** The statement expression of `try`, given the run of the call's argument. */
  lemma TryRuns(
    w: World, ctx: Ctx, f: nat, arg: CExpr, n: nat, m: nat, cs: CState, o: Outcome, v: nat, st: State, limit: nat)
    requires CtxOk(ctx, n) && Cleans(w, ctx, n, limit) && cs.st.turns <= limit && n < m
    requires var a := CEval(w, arg, cs);
             Matches(w, ctx, n + 1, cs.temps, o, st, CRun(a.out, a.cs)) && (o == Normal ==> a.v == v)
    ensures
      var t := Temp(ResultTemp, n);
      var r := CExec(w, [CallInto(t, f, arg), IfFailed(t, FailureExit(ctx, t, m).code)], cs);
      if o != Normal then Matches(w, ctx, n, cs.temps, o, st, r)
      else
        var reply := Answer(w, f, v, st);
        && Matches(w, ctx, n, cs.temps, if reply.failed then Failing(reply.value) else Normal, Perform(w, f, v, st), r)
        && (!reply.failed ==> Get(r.cs.temps, t).v == reply.value)
  {
    hide CExec, Clean, FailureExit, Cleans, CtxOk, Frame;
    var t := Temp(ResultTemp, n);
    var check := IfFailed(t, FailureExit(ctx, t, m).code);
    var a := CEval(w, arg, cs);
    assert [CallInto(t, f, arg), check] == [CallInto(t, f, arg)] + [check];
    ExecOne(w, CallInto(t, f, arg), [check], cs);
    if o != Normal {
      LeaveIsNotNormal(ctx, o);
      if a.out.Jumping? {
        OneHasNoLabels(check, a.out.to);
      }
      FrameSame(ctx, Normal, n, cs.temps);
      MatchesAfter(w, ctx, n, n + 1, cs.temps, cs.temps, o, st, CRun(a.out, a.cs));
    } else {
      var reply := Answer(w, f, v, st);
      var cs1 := CState(Perform(w, f, v, st), a.cs.temps[t := Slot(reply.failed, reply.value)]);
      NewTemp(ctx, n, t, Slot(reply.failed, reply.value), cs.temps, a.cs.temps);
      TryAnswered(w, ctx, n, m, cs.temps, cs1, limit);
    }
  }

  /** The call has answered: its failure leaves, its value stays in the temporary. */
  lemma TryAnswered(w: World, ctx: Ctx, n: nat, m: nat, t0: Temps, cs: CState, limit: nat)
    requires CtxOk(ctx, n) && Cleans(w, ctx, n, limit) && cs.st.turns <= limit && n < m
    requires Frame(ctx, Normal, n, t0, cs.temps)
    ensures
      var t := Temp(ResultTemp, n);
      var slot := Get(cs.temps, t);
      var r := CExec(w, [IfFailed(t, FailureExit(ctx, t, m).code)], cs);
      && Matches(w, ctx, n, t0, if slot.failed then Failing(slot.v) else Normal, cs.st, r)
      && (!slot.failed ==> r.cs == cs)
  {
    hide CExec, Clean, FailureExit, Cleans, CtxOk, Frame;
    var t := Temp(ResultTemp, n);
    ExecOne(w, IfFailed(t, FailureExit(ctx, t, m).code), [], cs);
    if Get(cs.temps, t).failed {
      FailureRuns(w, ctx, t, n, m, t0, cs, limit);
    }
  }

  /** A temporary not yet in use is set. */
  lemma NewTemp(ctx: Ctx, n: nat, t: Temp, v: Slot, t0: Temps, t1: Temps)
    requires n <= t.id && (Frame(ctx, Normal, n, t0, t1) || Frame(ctx, Normal, n + 1, t0, t1))
    ensures Frame(ctx, Normal, n, t0, t1[t := v])
  {
  }

  lemma LeaveIsNotNormal(ctx: Ctx, o: Outcome)
    requires o != Normal
    ensures Leave(ctx, o) != CNormal && Leave(ctx, OutOfFuel) != CNormal
  {
  }

  /** A jump to the end of the `catch` numbered `id` is its normal end. */
  function Settle(id: nat, r: CRun): CRun {
    if r.out == Jumping(Done(id)) then CRun(CNormal, r.cs) else r
  }

  /** The code of a `catch` after its operand. */
  function CatchRest(id: nat, x: string, handler: seq<CStmt>): seq<CStmt> {
    [Goto(Done(id)), LabelHere(Handler(id))]
    + [Braces([VarFromTemp(x, Temp(CaughtError, id))] + handler), LabelHere(Done(id))]
  }

  lemma CatchStarts(w: World, id: nat, operand: CExpr, x: string, handler: seq<CStmt>, cs: CState)
    ensures
      var cs1 := cs.(temps := cs.temps[Temp(CatchValue, id) := Slot(false, 0)]);
      CExec(w, CatchCode(id, operand, x, handler), cs)
      == GoOn(w, CStep(w, SetTemp(Temp(CatchValue, id), false, operand), cs1), CatchRest(id, x, handler))
  {
    var value := Temp(CatchValue, id);
    var cs1 := cs.(temps := cs.temps[value := Slot(false, 0)]);
    var rest := [SetTemp(value, false, operand)] + CatchRest(id, x, handler);
    assert CatchCode(id, operand, x, handler) == [SetTemp(value, false, CLit(0))] + rest;
    ExecOne(w, SetTemp(value, false, CLit(0)), rest, cs);
    ExecOne(w, SetTemp(value, false, operand), CatchRest(id, x, handler), cs1);
  }

  /** The operand gave a value: the handler is skipped. */
  lemma CatchSkips(w: World, id: nat, x: string, handler: seq<CStmt>, cs: CState)
    ensures CExec(w, CatchRest(id, x, handler), cs) == CRun(CNormal, cs)
  {
    hide CExec, HasLabel, After;
    ExecNothing(w, cs);
    var braces := Braces([VarFromTemp(x, Temp(CaughtError, id))] + handler);
    var rest := [LabelHere(Handler(id))] + [braces, LabelHere(Done(id))];
    assert CatchRest(id, x, handler) == [Goto(Done(id))] + rest;
    CatchLabels(id, braces);
    ExecOne(w, Goto(Done(id)), rest, cs);
  }

  /** The operand failed: the handler runs with the error in its name. */
  lemma CatchHandles(w: World, id: nat, x: string, handler: seq<CStmt>, cs: CState)
    ensures
      var cs1 := cs.(st := cs.st.(vars := cs.st.vars[x := Get(cs.temps, Temp(CaughtError, id)).v]));
      GoOn(w, CRun(Jumping(Handler(id)), cs), CatchRest(id, x, handler))
      == Settle(id, CExec(w, handler, cs1))
  {
    hide CExec, HasLabel, After;
    var name := VarFromTemp(x, Temp(CaughtError, id));
    var braces := Braces([name] + handler);
    var cs1 := cs.(st := cs.st.(vars := cs.st.vars[x := Get(cs.temps, Temp(CaughtError, id)).v]));
    CatchLabels(id, braces);
    assert [braces, LabelHere(Done(id))] == [braces] + [LabelHere(Done(id))];
    ExecOne(w, braces, [LabelHere(Done(id))], cs);
    var h := CExec(w, handler, cs1);
    NamedHandlerRuns(w, x, Temp(CaughtError, id), handler, cs);
    ExecOne(w, LabelHere(Done(id)), [], h.cs);
    ExecNothing(w, h.cs);
    if h.out.Jumping? && h.out.to != Done(id) {
      OneHasNoLabels(LabelHere(Done(id)), h.out.to);
    }
  }

  lemma NamedHandlerRuns(w: World, x: string, t: Temp, handler: seq<CStmt>, cs: CState)
    ensures CStep(w, Braces([VarFromTemp(x, t)] + handler), cs)
         == CExec(w, handler, cs.(st := cs.st.(vars := cs.st.vars[x := Get(cs.temps, t).v])))
  {
    hide CExec;
    ExecOne(w, VarFromTemp(x, t), handler, cs);
  }

  /** The three ways through a `catch`: a value, a failure handled, another way out. */
  lemma CatchRuns(w: World, id: nat, operand: CExpr, x: string, handler: seq<CStmt>, cs: CState)
    ensures
      var value := Temp(CatchValue, id);
      var a := CEval(w, operand, cs.(temps := cs.temps[value := Slot(false, 0)]));
      var r := CExec(w, CatchCode(id, operand, x, handler), cs);
      && (a.out == CNormal ==> r == CRun(CNormal, a.cs.(temps := a.cs.temps[value := Slot(false, a.v)])))
      && (a.out == Jumping(Handler(id)) ==>
            r == Settle(id, CExec(w, handler, a.cs.(st := a.cs.st.(vars :=
                   a.cs.st.vars[x := Get(a.cs.temps, Temp(CaughtError, id)).v])))))
      && (a.out != CNormal && a.out != Jumping(Handler(id)) && a.out != Jumping(Done(id)) ==> r == CRun(a.out, a.cs))
  {
    var value := Temp(CatchValue, id);
    var a := CEval(w, operand, cs.(temps := cs.temps[value := Slot(false, 0)]));
    CatchStarts(w, id, operand, x, handler, cs);
    if a.out == CNormal {
      CatchSkips(w, id, x, handler, a.cs.(temps := a.cs.temps[value := Slot(false, a.v)]));
    } else if a.out == Jumping(Handler(id)) {
      CatchHandles(w, id, x, handler, a.cs);
    } else if a.out.Jumping? && a.out.to != Done(id) {
      CatchOtherLabels(id, Braces([VarFromTemp(x, Temp(CaughtError, id))] + handler), a.out.to);
    }
  }

  lemma CatchLabels(id: nat, braces: CStmt)
    requires braces.Braces?
    ensures
      var onFail := [braces, LabelHere(Done(id))];
      var after := [Goto(Done(id)), LabelHere(Handler(id))] + onFail;
      && HasLabel(after, Handler(id)) && After(after, Handler(id)) == onFail
      && HasLabel([LabelHere(Handler(id))] + onFail, Done(id))
      && After([LabelHere(Handler(id))] + onFail, Done(id)) == []
      && HasLabel([LabelHere(Done(id))], Done(id)) && After([LabelHere(Done(id))], Done(id)) == []
  {
    var onFail := [braces, LabelHere(Done(id))];
    var after := [Goto(Done(id)), LabelHere(Handler(id))] + onFail;
    assert after[1..] == [LabelHere(Handler(id))] + onFail;
    assert after[1..][1..] == onFail;
    assert onFail[1..] == [LabelHere(Done(id))];
  }

  lemma CatchOtherLabels(id: nat, braces: CStmt, l: Label)
    requires braces.Braces? && l != Done(id) && l != Handler(id)
    ensures !HasLabel([Goto(Done(id)), LabelHere(Handler(id))] + [braces, LabelHere(Done(id))], l)
  {
    OneHasNoLabels(Goto(Done(id)), l);
    OneHasNoLabels(LabelHere(Handler(id)), l);
    OneHasNoLabels(braces, l);
    OneHasNoLabels(LabelHere(Done(id)), l);
    LabelsOfAppend([Goto(Done(id))], [LabelHere(Handler(id))], l);
    LabelsOfAppend([braces], [LabelHere(Done(id))], l);
    assert [Goto(Done(id)), LabelHere(Handler(id))] == [Goto(Done(id))] + [LabelHere(Handler(id))];
    assert [braces, LabelHere(Done(id))] == [braces] + [LabelHere(Done(id))];
    LabelsOfAppend([Goto(Done(id)), LabelHere(Handler(id))], [braces, LabelHere(Done(id))], l);
  }
}
