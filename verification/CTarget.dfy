/** The C the emitter writes for statements: no `defer`, `with` or `catch`, only statement
    expressions, labels, forward `goto`, and temporaries named by a counter. */
module CTarget {
  import opened LuceSource

  /** `_lb_fh3`, `_lb_cd3`, `lb_brk_outer`, `lb_cont_outer`. */
  datatype Label = Handler(id: nat) | Done(id: nat) | BreakOf(name: string) | ContinueOf(name: string)

  /** The prefix of a temporary: `_lb_r`, `_lb_as`, `_lb_v`, `_lb_fe`, `_lb_ret`, `_lb_error`. */
  datatype TempKind = ResultTemp | SavedAlloc | CatchValue | CaughtError | ReturnTemp | ErrorTemp
  datatype Temp = Temp(kind: TempKind, id: nat)

  /** What a temporary holds: a number, or a result with its `failed` flag. */
  datatype Slot = Slot(failed: bool, v: nat)

  datatype CExpr =
    | CLit(n: nat)
    | CVar(x: string)
    | CCall(f: nat, arg: CExpr)
    | StmtExpr(body: seq<CStmt>, result: Temp)         // ({ body; result; })

  datatype CStmt =
    | Eval(e: CExpr)                                    // (void)(e);
    | SetVar(x: string, e: CExpr)
    | SetTemp(t: Temp, failed: bool, e: CExpr)
    | CallInto(t: Temp, f: nat, arg: CExpr)             // a fallible call's whole result
    | CopyTemp(to: Temp, from: Temp)
    | VarFromTemp(x: string, t: Temp)
    | IfFailed(t: Temp, thn: seq<CStmt>)
    | SaveAlloc(t: Temp)                                // t = lb_get_alloc();
    | SetAlloc(e: CExpr)                                // lb_set_alloc(e);
    | RestoreAlloc(t: Temp)                             // lb_set_alloc(t);
    | CIf(cond: CExpr, thn: seq<CStmt>, els: seq<CStmt>)
    | Loop(body: seq<CStmt>)                            // for (;;) { body }
    | BreakUnless(cond: CExpr)
    | CBreak
    | CContinue
    | ReturnOk(e: CExpr)
    | ReturnSlot(t: Temp)
    | Goto(target: Label)
    | LabelHere(name: Label)
    | Braces(body: seq<CStmt>)
    | TrapUnreachable

  type Temps = map<Temp, Slot>
  datatype CState = CState(st: State, temps: Temps)

  datatype COutcome =
    | CNormal
    | CBreaking
    | CContinuing
    | CReturning(r: Slot)
    | Jumping(to: Label)
    | CTrapped
    | COutOfFuel

  datatype CValue = CValue(out: COutcome, v: nat, cs: CState)
  datatype CRun = CRun(out: COutcome, cs: CState)

  function Get(temps: Temps, t: Temp): Slot {
    if t in temps then temps[t] else Slot(false, 0)
  }

  predicate HasLabel(code: seq<CStmt>, l: Label) {
    code != [] && (code[0] == LabelHere(l) || HasLabel(code[1..], l))
  }

  /** The code after the first place labelled `l`. */
  function After(code: seq<CStmt>, l: Label): (r: seq<CStmt>)
    requires HasLabel(code, l)
    ensures |r| < |code|
    ensures r == code[|code| - |r|..]
  {
    if code[0] == LabelHere(l) then code[1..] else After(code[1..], l)
  }

  /** One turn of a loop begins. */
  function Turn(cs: CState): CState
    requires cs.st.turns > 0
  {
    cs.(st := cs.st.(turns := cs.st.turns - 1))
  }

  function CEval(w: World, e: CExpr, cs: CState): (r: CValue)
    ensures r.cs.st.turns <= cs.st.turns
    decreases cs.st.turns, e
  {
    match e
    case CLit(n) => CValue(CNormal, n, cs)
    case CVar(x) => CValue(CNormal, Read(cs.st.vars, x), cs)
    case CCall(f, arg) =>
      var a := CEval(w, arg, cs);
      if a.out != CNormal then a
      else CValue(CNormal, Answer(w, f, a.v, a.cs.st).value, a.cs.(st := Perform(w, f, a.v, a.cs.st)))
    case StmtExpr(body, result) =>
      var b := CExec(w, body, cs);
      CValue(b.out, Get(b.cs.temps, result).v, b.cs)
  }

  function CStep(w: World, s: CStmt, cs: CState): (r: CRun)
    ensures r.cs.st.turns <= cs.st.turns
    decreases cs.st.turns, s
  {
    match s
    case Eval(e) =>
      var a := CEval(w, e, cs);
      CRun(a.out, a.cs)
    case SetVar(x, e) =>
      var a := CEval(w, e, cs);
      if a.out != CNormal then CRun(a.out, a.cs)
      else CRun(CNormal, a.cs.(st := a.cs.st.(vars := a.cs.st.vars[x := a.v])))
    case SetTemp(t, failed, e) =>
      var a := CEval(w, e, cs);
      if a.out != CNormal then CRun(a.out, a.cs)
      else CRun(CNormal, a.cs.(temps := a.cs.temps[t := Slot(failed, a.v)]))
    case CallInto(t, f, arg) =>
      var a := CEval(w, arg, cs);
      if a.out != CNormal then CRun(a.out, a.cs)
      else
        var r := Answer(w, f, a.v, a.cs.st);
        CRun(CNormal, CState(Perform(w, f, a.v, a.cs.st), a.cs.temps[t := Slot(r.failed, r.value)]))
    case CopyTemp(to, from) => CRun(CNormal, cs.(temps := cs.temps[to := Get(cs.temps, from)]))
    case VarFromTemp(x, t) => CRun(CNormal, cs.(st := cs.st.(vars := cs.st.vars[x := Get(cs.temps, t).v])))
    case IfFailed(t, thn) => if Get(cs.temps, t).failed then CExec(w, thn, cs) else CRun(CNormal, cs)
    case SaveAlloc(t) => CRun(CNormal, cs.(temps := cs.temps[t := Slot(false, cs.st.alloc)]))
    case SetAlloc(e) =>
      var a := CEval(w, e, cs);
      if a.out != CNormal then CRun(a.out, a.cs)
      else CRun(CNormal, a.cs.(st := a.cs.st.(alloc := a.v)))
    case RestoreAlloc(t) => CRun(CNormal, cs.(st := cs.st.(alloc := Get(cs.temps, t).v)))
    case CIf(c, thn, els) =>
      var a := CEval(w, c, cs);
      if a.out != CNormal then CRun(a.out, a.cs) else CExec(w, if a.v != 0 then thn else els, a.cs)
    case Loop(body) =>
      if cs.st.turns == 0 then CRun(COutOfFuel, cs)
      else
        var b := CExec(w, body, Turn(cs));
        if b.out == CNormal || b.out == CContinuing then CStep(w, s, b.cs)
        else if b.out == CBreaking then CRun(CNormal, b.cs)
        else b
    case BreakUnless(c) =>
      var a := CEval(w, c, cs);
      CRun(if a.out == CNormal && a.v == 0 then CBreaking else a.out, a.cs)
    case CBreak => CRun(CBreaking, cs)
    case CContinue => CRun(CContinuing, cs)
    case ReturnOk(e) =>
      var a := CEval(w, e, cs);
      CRun(if a.out == CNormal then CReturning(Slot(false, a.v)) else a.out, a.cs)
    case ReturnSlot(t) => CRun(CReturning(Get(cs.temps, t)), cs)
    case Goto(l) => CRun(Jumping(l), cs)
    case LabelHere(_) => CRun(CNormal, cs)
    case Braces(body) => CExec(w, body, cs)
    case TrapUnreachable => CRun(CTrapped, cs)
  }

  /** A list of statements; a jump out of one of them lands on a later label of the list, and
      is otherwise passed to the list around it. */
  function CExec(w: World, code: seq<CStmt>, cs: CState): (r: CRun)
    ensures r.cs.st.turns <= cs.st.turns
    decreases cs.st.turns, code
  {
    if code == [] then CRun(CNormal, cs)
    else
      var r := CStep(w, code[0], cs);
      if r.out == CNormal then CExec(w, code[1..], r.cs)
      else if r.out.Jumping? && HasLabel(code[1..], r.out.to) then
        CExec(w, After(code[1..], r.out.to), r.cs)
      else r
  }

  /** How a run of some code goes on into the code written after it. */
  function GoOn(w: World, r: CRun, rest: seq<CStmt>): CRun {
    if r.out == CNormal then CExec(w, rest, r.cs)
    else if r.out.Jumping? && HasLabel(rest, r.out.to) then CExec(w, After(rest, r.out.to), r.cs)
    else r
  }

  lemma {:induction false} LabelsOfAppend(a: seq<CStmt>, b: seq<CStmt>, l: Label)
    ensures HasLabel(a + b, l) == (HasLabel(a, l) || HasLabel(b, l))
    ensures HasLabel(a, l) ==> After(a + b, l) == After(a, l) + b
    ensures !HasLabel(a, l) && HasLabel(b, l) ==> After(a + b, l) == After(b, l)
  {
    if a == [] {
      assert a + b == b;
    } else {
      assert (a + b)[1..] == a[1..] + b;
      LabelsOfAppend(a[1..], b, l);
    }
  }

  /** Running appended code is running its halves, jumps included. */
  lemma {:induction false} ExecAppend(w: World, a: seq<CStmt>, b: seq<CStmt>, cs: CState)
    ensures CExec(w, a + b, cs) == GoOn(w, CExec(w, a, cs), b)
    decreases |a|
  {
    if a == [] {
      assert a + b == b;
    } else {
      assert (a + b)[1..] == a[1..] + b;
      var r := CStep(w, a[0], cs);
      if r.out == CNormal {
        ExecAppend(w, a[1..], b, r.cs);
      } else if r.out.Jumping? {
        LabelsOfAppend(a[1..], b, r.out.to);
        if HasLabel(a[1..], r.out.to) {
          ExecAppend(w, After(a[1..], r.out.to), b, r.cs);
        }
      }
    }
  }

  lemma ExecOne(w: World, s: CStmt, rest: seq<CStmt>, cs: CState)
    ensures CExec(w, [s] + rest, cs) == GoOn(w, CStep(w, s, cs), rest)
    ensures CExec(w, [s], cs) == CStep(w, s, cs)
  {
    assert ([s] + rest)[1..] == rest;
    var r := CStep(w, s, cs);
    assert [s][1..] == [];
  }

  lemma ExecNothing(w: World, cs: CState)
    ensures CExec(w, [], cs) == CRun(CNormal, cs)
  {
  }

  /** A C function's body run to its end. */
  function RunCode(w: World, code: seq<CStmt>, st: State): (Result, State) {
    var r := CExec(w, code, CState(st, map[]));
    match r.out
    case CReturning(s) => (if s.failed then Err(s.v) else Ok(s.v), r.cs.st)
    case COutOfFuel => (Diverged, r.cs.st)
    case _ => (Trapped, r.cs.st)
  }
}
