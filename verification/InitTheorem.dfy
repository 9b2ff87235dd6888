/** Soundness of the `init` rules against running the body. */
module InitTheorem {
  import opened FlowSource
  import opened AlwaysLeaves
  import opened InitCheck

  /** Every read of `self` so far found the fields `every` assigned. */
  ghost predicate LogOk(every: Bits, log: seq<Bits>) {
    forall i :: 0 <= i < |log| ==> every <= log[i]
  }

  /** Fields stay assigned, and once all are, every further read of `self` is fine. */
  ghost predicate Grows(every: Bits, st: State, st': State) {
    && st.fields.Keys <= st'.fields.Keys
    && (every <= st.fields.Keys && LogOk(every, st.selfUses) ==> LogOk(every, st'.selfUses))
  }

  ghost predicate Quiet(st: State, st': State) { st'.fields == st.fields && st'.selfUses == st.selfUses }

  // ----- any code at all -----

  lemma {:induction false} ExprGrows(w: World, e: Expr, st: State, fuel: nat, every: Bits)
    ensures Grows(every, st, Eval(w, e, st, fuel).st)
    decreases fuel, e, 1
  {
    match e
    case Group(i) => ExprGrows(w, i, st, fuel, every);
    case Not(i) => ExprGrows(w, i, st, fuel, every);
    case Member(i, _) => ExprGrows(w, i, st, fuel, every);
    case AddressOf(i) => ExprGrows(w, i, st, fuel, every);
    case And(a, b) => ExprGrows(w, a, st, fuel, every); ExprGrows(w, b, Eval(w, a, st, fuel).st, fuel, every);
    case Or(a, b) => ExprGrows(w, a, st, fuel, every); ExprGrows(w, b, Eval(w, a, st, fuel).st, fuel, every);
    case Else(a, b) => ExprGrows(w, a, st, fuel, every); ExprGrows(w, b, Eval(w, a, st, fuel).st, fuel, every);
    case Call(_, args) => ExprsGrow(w, args, st, fuel, every);
    case Try(_, args) => ExprsGrow(w, args, st, fuel, every);
    case Catch(operand, x, handler) =>
      ExprGrows(w, operand, st, fuel, every);
      var a := Eval(w, operand, st, fuel);
      if a.out.Failing? {
        ListGrows(w, handler, a.st.(vars := a.st.vars[x := a.out.err]), fuel, every);
      }
    case _ =>
  }

  lemma {:induction false} ExprsGrow(w: World, es: Exprs, st: State, fuel: nat, every: Bits)
    ensures Grows(every, st, EvalAll(w, es, st, fuel).st)
    decreases fuel, es, 1
  {
    if es.More? {
      ExprGrows(w, es.head, st, fuel, every);
      ExprsGrow(w, es.tail, Eval(w, es.head, st, fuel).st, fuel, every);
    }
  }

  lemma {:induction false} StmtGrows(w: World, s: Stmt, st: State, fuel: nat, every: Bits)
    ensures Grows(every, st, Exec(w, s, st, fuel).st)
    decreases fuel, s, 1
  {
    match s
    case Let(_, e) => ExprGrows(w, e, st, fuel, every);
    case Assign(_, e) => ExprGrows(w, e, st, fuel, every);
    case AssignField(_, e) => ExprGrows(w, e, st, fuel, every);
    case Store(p, e) => ExprGrows(w, p, st, fuel, every); ExprGrows(w, e, Eval(w, p, st, fuel).st, fuel, every);
    case ExprStmt(e) => ExprGrows(w, e, st, fuel, every);
    case Return(e) => ExprGrows(w, e, st, fuel, every);
    case Recover(e) => ExprGrows(w, e, st, fuel, every);
    case Error(e) => ExprGrows(w, e, st, fuel, every);
    case If(c, thn, els) =>
      ExprGrows(w, c, st, fuel, every);
      var a := Eval(w, c, st, fuel);
      ListGrows(w, if a.v != 0 then thn else els, a.st, fuel, every);
    case While(_, _, _) => WhileGrows(w, s, st, fuel, every);
    case Block(body) => ListGrows(w, body, st, fuel, every);
    case With(a, body) => ExprGrows(w, a, st, fuel, every); ListGrows(w, body, Eval(w, a, st, fuel).st, fuel, every);
    case Match(e, arms) =>
      ExprGrows(w, e, st, fuel, every);
      var a := Eval(w, e, st, fuel);
      ArmsGrow(w, arms, a.v, a.st, fuel, every);
    case _ =>
  }

  lemma {:induction false} WhileGrows(w: World, s: Stmt, st: State, fuel: nat, every: Bits)
    requires s.While?
    ensures Grows(every, st, Exec(w, s, st, fuel).st)
    decreases fuel, s, 0
  {
    ExprGrows(w, s.cond, st, fuel, every);
    var a := Eval(w, s.cond, st, fuel);
    if a.out == Normal && a.v != 0 && fuel > 0 {
      ListGrows(w, s.body, a.st, fuel, every);
      StmtGrows(w, s, ExecBlock(w, s.body, a.st, fuel).st, fuel - 1, every);
    }
  }

  lemma {:induction false} ArmsGrow(w: World, arms: Arms, v: int, st: State, fuel: nat, every: Bits)
    ensures Grows(every, st, ExecArms(w, arms, v, st, fuel).st)
    decreases fuel, arms, 1
  {
    if arms.Arm? {
      var t := Tell(Tested(arms.pattern, v), st);
      var g := Eval(w, arms.guard, t, fuel);
      ExprGrows(w, arms.guard, t, fuel, every);
      ListGrows(w, arms.body, g.st, fuel, every);
      ArmsGrow(w, arms.rest, v, t, fuel, every);
      ArmsGrow(w, arms.rest, v, g.st, fuel, every);
    }
  }

  lemma {:induction false} ListGrows(w: World, ss: Stmts, st: State, fuel: nat, every: Bits)
    ensures Grows(every, st, ExecList(w, ss, st, fuel).st) && Grows(every, st, ExecBlock(w, ss, st, fuel).st)
    decreases fuel, ss, 2
  {
    if ss.Cons? {
      StmtGrows(w, ss.head, st, fuel, every);
      ListGrows(w, ss.tail, Exec(w, ss.head, st, fuel).st, fuel, every);
    }
  }

  // ----- code that does not mention `self` -----

  lemma {:induction false} ExprQuiet(w: World, e: Expr, st: State, fuel: nat)
    requires !MentionsSelf(e)
    ensures Quiet(st, Eval(w, e, st, fuel).st)
    decreases fuel, e, 1
  {
    match e
    case Group(i) => ExprQuiet(w, i, st, fuel);
    case Not(i) => ExprQuiet(w, i, st, fuel);
    case Member(i, _) => ExprQuiet(w, i, st, fuel);
    case AddressOf(i) => ExprQuiet(w, i, st, fuel);
    case And(a, b) => ExprQuiet(w, a, st, fuel); ExprQuiet(w, b, Eval(w, a, st, fuel).st, fuel);
    case Or(a, b) => ExprQuiet(w, a, st, fuel); ExprQuiet(w, b, Eval(w, a, st, fuel).st, fuel);
    case Else(a, b) => ExprQuiet(w, a, st, fuel); ExprQuiet(w, b, Eval(w, a, st, fuel).st, fuel);
    case Call(_, args) => ExprsQuiet(w, args, st, fuel);
    case Try(_, args) => ExprsQuiet(w, args, st, fuel);
    case Catch(operand, x, handler) =>
      ExprQuiet(w, operand, st, fuel);
      var a := Eval(w, operand, st, fuel);
      if a.out.Failing? {
        ListQuiet(w, handler, a.st.(vars := a.st.vars[x := a.out.err]), fuel);
      }
    case _ =>
  }

  lemma {:induction false} ExprsQuiet(w: World, es: Exprs, st: State, fuel: nat)
    requires !MentionsSelfIn(es)
    ensures Quiet(st, EvalAll(w, es, st, fuel).st)
    decreases fuel, es, 1
  {
    if es.More? {
      ExprQuiet(w, es.head, st, fuel);
      ExprsQuiet(w, es.tail, Eval(w, es.head, st, fuel).st, fuel);
    }
  }

  lemma {:induction false} StmtQuiet(w: World, s: Stmt, st: State, fuel: nat)
    requires !SelfInStmt(s)
    ensures Quiet(st, Exec(w, s, st, fuel).st)
    decreases fuel, s, 1
  {
    match s
    case Let(_, e) => ExprQuiet(w, e, st, fuel);
    case Assign(_, e) => ExprQuiet(w, e, st, fuel);
    case Store(p, e) => ExprQuiet(w, p, st, fuel); ExprQuiet(w, e, Eval(w, p, st, fuel).st, fuel);
    case ExprStmt(e) => ExprQuiet(w, e, st, fuel);
    case Return(e) => ExprQuiet(w, e, st, fuel);
    case Recover(e) => ExprQuiet(w, e, st, fuel);
    case Error(e) => ExprQuiet(w, e, st, fuel);
    case If(c, thn, els) =>
      ExprQuiet(w, c, st, fuel);
      var a := Eval(w, c, st, fuel);
      ListQuiet(w, if a.v != 0 then thn else els, a.st, fuel);
    case While(_, c, body) =>
      ExprQuiet(w, c, st, fuel);
      var a := Eval(w, c, st, fuel);
      if a.out == Normal && a.v != 0 && fuel > 0 {
        ListQuiet(w, body, a.st, fuel);
        StmtQuiet(w, s, ExecBlock(w, body, a.st, fuel).st, fuel - 1);
      }
    case Block(body) => ListQuiet(w, body, st, fuel);
    case With(a, body) => ExprQuiet(w, a, st, fuel); ListQuiet(w, body, Eval(w, a, st, fuel).st, fuel);
    case Match(e, arms) =>
      ExprQuiet(w, e, st, fuel);
      var a := Eval(w, e, st, fuel);
      ArmsQuiet(w, arms, a.v, a.st, fuel);
    case _ =>
  }

  lemma {:induction false} ArmsQuiet(w: World, arms: Arms, v: int, st: State, fuel: nat)
    requires !SelfInArms(arms)
    ensures Quiet(st, ExecArms(w, arms, v, st, fuel).st)
    decreases fuel, arms, 1
  {
    if arms.Arm? {
      var t := Tell(Tested(arms.pattern, v), st);
      var g := Eval(w, arms.guard, t, fuel);
      ExprQuiet(w, arms.guard, t, fuel);
      ListQuiet(w, arms.body, g.st, fuel);
      ArmsQuiet(w, arms.rest, v, t, fuel);
      ArmsQuiet(w, arms.rest, v, g.st, fuel);
    }
  }

  lemma {:induction false} ListQuiet(w: World, ss: Stmts, st: State, fuel: nat)
    requires !SelfIn(ss)
    ensures Quiet(st, ExecList(w, ss, st, fuel).st) && Quiet(st, ExecBlock(w, ss, st, fuel).st)
    decreases fuel, ss, 2
  {
    if ss.Cons? {
      StmtQuiet(w, ss.head, st, fuel);
      ListQuiet(w, ss.tail, Exec(w, ss.head, st, fuel).st, fuel);
    }
  }

  // ----- walked code -----

  /** The walk's set is really assigned, and `self` was only read when it was complete. */
  ghost predicate Sure(held: Bits, every: Bits, st: State) {
    held <= st.fields.Keys && LogOk(every, st.selfUses)
  }

  lemma ExprSound(w: World, e: Expr, held: Bits, every: Bits, st: State, fuel: nat)
    requires ExprAllowed(e, held, every) && Sure(held, every, st)
    ensures Sure(held, every, Eval(w, e, st, fuel).st)
  {
    if held == every {
      ExprGrows(w, e, st, fuel, every);
    } else {
      ExprQuiet(w, e, st, fuel);
    }
  }

  lemma {:induction false} StmtSound(w: World, s: Stmt, held: Bits, every: Bits, inLoop: bool, st: State, fuel: nat)
    requires Walk(s, held, every, inLoop).ok && Sure(held, every, st)
    ensures
      var r := Exec(w, s, st, fuel);
      Sure(held, every, r.st) && (r.out == Normal ==> Sure(Walk(s, held, every, inLoop).held, every, r.st))
    decreases fuel, s, 1
  {
    match s
    case Let(_, e) => ExprSound(w, e, held, every, st, fuel);
    case Assign(_, e) => ExprSound(w, e, held, every, st, fuel);
    case AssignField(_, e) => ExprSound(w, e, held, every, st, fuel);
    case Store(p, e) =>
      ExprSound(w, p, held, every, st, fuel);
      ExprSound(w, e, held, every, Eval(w, p, st, fuel).st, fuel);
    case ExprStmt(e) => ExprSound(w, e, held, every, st, fuel);
    case Return(e) => ExprSound(w, e, held, every, st, fuel);
    case Recover(e) => ExprSound(w, e, held, every, st, fuel);
    case Error(e) => ExprSound(w, e, held, every, st, fuel);
    case If(c, thn, els) =>
      ExprSound(w, c, held, every, st, fuel);
      var a := Eval(w, c, st, fuel);
      var taken := if a.v != 0 then thn else els;
      ListSound(w, taken, held, every, inLoop, a.st, fuel);
      if SomeReturns(taken) {
        SomeReturnsSound(w, taken, a.st, fuel);
      }
    case While(_, c, body) =>
      ExprSound(w, c, held, every, st, fuel);
      var a := Eval(w, c, st, fuel);
      if a.out == Normal && a.v != 0 && fuel > 0 {
        ListSound(w, body, held, every, true, a.st, fuel);
        StmtSound(w, s, held, every, inLoop, ExecBlock(w, body, a.st, fuel).st, fuel - 1);
      }
    case Block(body) => ListSound(w, body, held, every, inLoop, st, fuel);
    case With(a, body) =>
      ExprSound(w, a, held, every, st, fuel);
      ListSound(w, body, held, every, true, Eval(w, a, st, fuel).st, fuel);
    case Match(e, arms) =>
      ExprSound(w, e, held, every, st, fuel);
      var a := Eval(w, e, st, fuel);
      ArmsSound(w, arms, held, every, inLoop, every, false, a.v, a.st, fuel);
    case _ =>
  }

  lemma {:induction false} ListSound(w: World, ss: Stmts, held: Bits, every: Bits, inLoop: bool, st: State, fuel: nat)
    requires WalkList(ss, held, every, inLoop).ok && Sure(held, every, st)
    ensures
      var r := ExecBlock(w, ss, st, fuel);
      Sure(held, every, r.st) && (r.out == Normal ==> Sure(WalkList(ss, held, every, inLoop).held, every, r.st))
    decreases fuel, ss, 2
  {
    if ss.Cons? {
      StmtSound(w, ss.head, held, every, inLoop, st, fuel);
      var r := Exec(w, ss.head, st, fuel);
      if r.out == Normal {
        var next := Walk(ss.head, held, every, inLoop).held;
        ListSound(w, ss.tail, next, every, inLoop, r.st, fuel);
        ListGrows(w, ss.tail, r.st, fuel, every);
      }
    }
  }

  /** Joining more arms only shrinks the joined set. */
  lemma {:induction false} ArmsShrink(arms: Arms, held: Bits, every: Bits, inLoop: bool, joined: Bits, any: bool)
    ensures WalkArms(arms, held, every, inLoop, joined, any).joined <= joined
    ensures any ==> WalkArms(arms, held, every, inLoop, joined, any).any
    decreases arms
  {
    if arms.Arm? {
      var b := WalkList(arms.body, held, every, inLoop);
      if SomeReturns(arms.body) {
        ArmsShrink(arms.rest, held, every, inLoop, joined, any);
      } else {
        ArmsShrink(arms.rest, held, every, inLoop, joined * b.held, true);
      }
    }
  }

  lemma {:induction false} ArmsSound(
    w: World, arms: Arms, held: Bits, every: Bits, inLoop: bool, joined: Bits, any: bool, v: int, st: State, fuel: nat)
    requires WalkArms(arms, held, every, inLoop, joined, any).ok && Sure(held, every, st)
    ensures
      var r := ExecArms(w, arms, v, st, fuel);
      var a := WalkArms(arms, held, every, inLoop, joined, any);
      Sure(held, every, r.st) && (r.out == Normal ==> a.any && Sure(a.joined, every, r.st))
    decreases fuel, arms, 1
  {
    if arms.Arm? {
      var t := Tell(Tested(arms.pattern, v), st);
      var g := Eval(w, arms.guard, t, fuel);
      var b := WalkList(arms.body, held, every, inLoop);
      var left, found := if SomeReturns(arms.body) then joined else joined * b.held, any || !SomeReturns(arms.body);
      ExprSound(w, arms.guard, held, every, t, fuel);
      ListSound(w, arms.body, held, every, inLoop, g.st, fuel);
      ArmsShrink(arms.rest, held, every, inLoop, left, found);
      if SomeReturns(arms.body) {
        SomeReturnsSound(w, arms.body, g.st, fuel);
      }
      ArmsSound(w, arms.rest, held, every, inLoop, left, found, v, t, fuel);
      ArmsSound(w, arms.rest, held, every, inLoop, left, found, v, g.st, fuel);
    }
  }

  // ----- the theorem -----

  /** Running `body` as the `init` of a struct of `count` fields goes well: `self` is read only
      with all of them assigned, and falling off the end leaves all of them assigned. */
  ghost predicate GoesWell(w: World, body: Stmts, count: nat, fuel: nat) {
    var r := ExecBlock(w, body, START, fuel);
    && (forall i, f: nat :: 0 <= i < |r.st.selfUses| && f < count ==> f in r.st.selfUses[i])
    && (r.out == Normal ==> forall f: nat :: f < count ==> f in r.st.fields)
  }

  /** Definite assignment is sound for structs of at most 64 fields. */
  lemma InitSound(w: World, body: Stmts, count: nat, fuel: nat)
    requires count <= 64 && Accepts(body, count)
    ensures GoesWell(w, body, count, fuel)
  {
    var every := AllFields(count);
    ListSound(w, body, {}, every, false, START, fuel);
    var r := ExecBlock(w, body, START, fuel);
    if SomeReturns(body) {
      SomeReturnsSound(w, body, START, fuel);
    }
    forall i, f: nat | 0 <= i < |r.st.selfUses| && f < count ensures f in r.st.selfUses[i] {
      assert every <= r.st.selfUses[i] && f in every;
    }
    forall f: nat | r.out == Normal && f < count ensures f in r.st.fields {
      assert f in every;
    }
  }

  /** `self.i = 0` for the fields from `i` to 63. */
  function AssignFrom(i: nat): Stmts
    decreases 64 - i
  {
    if i >= 64 then Nil else Cons(AssignField(i, Int(0)), AssignFrom(i + 1))
  }

  lemma {:induction false} AssignFromWalks(i: nat, every: Bits)
    requires i <= 64
    ensures WalkList(AssignFrom(i), AllFields(i), every, false) == Walked(AllFields(64), true)
    decreases 64 - i
  {
    if i < 64 {
      assert AllFields(i) + Bit(i) == AllFields(i + 1);
      AssignFromWalks(i + 1, every);
    }
  }

  lemma {:induction false} AssignFromRuns(w: World, i: nat, st: State, fuel: nat)
    requires i <= 64 && 64 !in st.fields
    ensures
      var r := ExecList(w, AssignFrom(i), st, fuel);
      r.out == Normal && 64 !in r.st.fields
    decreases 64 - i
  {
    if i < 64 {
      assert Eval(w, Int(0), st, fuel) == Value(Normal, 0, st);
      AssignFromRuns(w, i + 1, Exec(w, AssignField(i, Int(0)), st, fuel).st, fuel);
    }
  }

  /** With more than 64 fields an accepted `init` may leave one unassigned. */
  lemma PastTheWord(w: World, count: nat, fuel: nat)
    requires count > 64
    ensures Accepts(AssignFrom(0), count) && !GoesWell(w, AssignFrom(0), count, fuel)
  {
    assert AllFields(count) == AllFields(64);
    assert AllFields(0) == {};
    AssignFromWalks(0, AllFields(count));
    AssignFromRuns(w, 0, START, fuel);
  }

  /** Exactly when the rules are sound: the struct has at most 64 fields. */
  lemma SoundIffFieldsFitTheWord(count: nat)
    ensures (forall w: World, body: Stmts, fuel: nat :: Accepts(body, count) ==> GoesWell(w, body, count, fuel))
       <==> count <= 64
  {
    if count <= 64 {
      forall w: World, body: Stmts, fuel: nat | Accepts(body, count) ensures GoesWell(w, body, count, fuel) {
        InitSound(w, body, count, fuel);
      }
    } else {
      var w: World := _ => Reply(0, false);
      PastTheWord(w, count, 0);
    }
  }
}
