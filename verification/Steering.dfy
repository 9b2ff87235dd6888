/** Runs made to order: replies chosen so that a statement takes a given way through its branches.

    A run meets the world only through the replies to its calls and tests, so the ways through
    a statement whose conditions ask the world can each be taken by some run. */
module Steering {
  import opened FlowSource
  import opened AlwaysLeaves

  // ----- code whose conditions ask the world -----

  /** Expressions that complete whenever no call in them fails. */
  predicate Mild(e: Expr) {
    match e
    case Bool(_) => true
    case Int(_) => true
    case Name(_) => true
    case SelfRef => true
    case Group(i) => Mild(i)
    case Not(i) => Mild(i)
    case And(a, b) => Mild(a) && Mild(b)
    case Or(a, b) => Mild(a) && Mild(b)
    case Member(i, _) => Mild(i)
    case AddressOf(i) => Mild(i)
    case Else(i, fallback) => Mild(i) && Mild(fallback)
    case Call(_, args) => MildAll(args)
    case Try(_, args) => MildAll(args)
    case _ => false
  }

  predicate MildAll(es: Exprs) { es.More? ==> Mild(es.head) && MildAll(es.tail) }

  /** Conditions that no constant decides: calls, and connectives over them. */
  predicate Free(e: Expr) {
    match e
    case Call(_, args) => MildAll(args)
    case Try(_, args) => MildAll(args)
    case Group(i) => Free(i)
    case Not(i) => Free(i)
    case And(a, b) => Free(a) && Free(b)
    case Or(a, b) => Free(a) && Free(b)
    case _ => false
  }

  /** Which jumps may stand in a statement. */
  datatype Jumps = NoJumps | Continues | AllJumps

  function Under(j: Jumps): Jumps { if j.AllJumps? then NoJumps else j }

  predicate Steerable(s: Stmt, j: Jumps) {
    match s
    case Let(_, e) => Mild(e)
    case Declare(_) => true
    case Assign(_, e) => Mild(e)
    case AssignField(_, e) => Mild(e)
    case Store(place, e) => Mild(place) && Mild(e)
    case ExprStmt(e) => Mild(e) || e.Never?
    case If(c, thn, els) => Free(c) && SteerableList(thn, j) && SteerableList(els, j)
    case While(_, c, body) =>
      || (Free(c) && SteerableList(body, if j.AllJumps? then AllJumps else Continues))
      || (c == Bool(true) && SteerableList(body, Continues))
    case Block(body) => SteerableList(body, j)
    case With(a, body) => Mild(a) && SteerableList(body, Under(j))
    case Match(e, arms) => Mild(e) && arms.Arm? && SteerableArms(arms, Under(j))
    case Return(e) => Mild(e)
    case Recover(e) => Mild(e)
    case Error(e) => Mild(e)
    case Trap => true
    case Break(_) => j.AllJumps?
    case Continue(_) => !j.NoJumps?
  }

  predicate SteerableArms(arms: Arms, j: Jumps) {
    arms.Arm? ==>
      && (arms.guard == Bool(true) || Free(arms.guard))
      && SteerableList(arms.body, j) && SteerableArms(arms.rest, j)
  }

  predicate SteerableList(ss: Stmts, j: Jumps) { ss.Cons? ==> Steerable(ss.head, j) && SteerableList(ss.tail, j) }

  // ----- the ways through -----

  /** Some way through the statement completes, assigning the fields in `m`. */
  ghost predicate Ends(s: Stmt, m: multiset<nat>) {
    match s
    case Let(_, _) => m == multiset{}
    case Declare(_) => m == multiset{}
    case Assign(_, _) => m == multiset{}
    case AssignField(f, _) => m == multiset{f}
    case Store(_, _) => m == multiset{}
    case ExprStmt(e) => !e.Never? && m == multiset{}
    case If(_, thn, els) => EndsList(thn, m) || EndsList(els, m)
    case While(_, c, _) => c != Bool(true) && m == multiset{}
    case Block(body) => EndsList(body, m)
    case With(_, body) => EndsList(body, m)
    case Match(_, arms) => EndsArms(arms, m)
    case _ => false
  }

  ghost predicate EndsArms(arms: Arms, m: multiset<nat>) {
    arms.Arm? && (EndsList(arms.body, m) || EndsArms(arms.rest, m))
  }

  ghost predicate EndsList(ss: Stmts, m: multiset<nat>) {
    match ss
    case Nil => m == multiset{}
    case Cons(s, rest) => exists a, b :: Ends(s, a) && EndsList(rest, b) && m == a + b
  }

  // ----- worlds -----

  ghost predicate NeverFails(w: World) { forall t: seq<Event> :: !w(t).failed }

  /** The worlds give the same replies to the first `n` events. */
  ghost predicate Agree(w: World, w': World, n: nat) { forall t: seq<Event> :: |t| <= n ==> w(t) == w'(t) }

  /** `w`, but for the reply to event number `n`. */
  function Say(w: World, n: nat, v: int): World { (t: seq<Event>) => if |t| == n then Reply(v, false) else w(t) }

  lemma SayAgrees(w: World, n: nat, v: int)
    requires NeverFails(w) && n > 0
    ensures NeverFails(Say(w, n, v)) && Agree(w, Say(w, n, v), n - 1)
  {
  }

  lemma {:induction false} MildRuns(w: World, e: Expr, st: State, fuel: nat)
    requires Mild(e) && NeverFails(w)
    ensures
      var r := Eval(w, e, st, fuel);
      r.out == Normal && |r.st.trace| >= |st.trace| && r.st.fields == st.fields && r.st.sets == st.sets
    decreases e
  {
    match e
    case Group(i) => MildRuns(w, i, st, fuel);
    case Not(i) => MildRuns(w, i, st, fuel);
    case And(a, b) => MildRuns(w, a, st, fuel); MildRuns(w, b, Eval(w, a, st, fuel).st, fuel);
    case Or(a, b) => MildRuns(w, a, st, fuel); MildRuns(w, b, Eval(w, a, st, fuel).st, fuel);
    case Member(i, _) => MildRuns(w, i, st, fuel);
    case AddressOf(i) => MildRuns(w, i, st, fuel);
    case Else(a, b) => MildRuns(w, a, st, fuel); MildRuns(w, b, Eval(w, a, st, fuel).st, fuel);
    case Call(_, args) => MildAllRun(w, args, st, fuel);
    case Try(_, args) => MildAllRun(w, args, st, fuel);
    case _ =>
  }

  lemma {:induction false} MildAllRun(w: World, es: Exprs, st: State, fuel: nat)
    requires MildAll(es) && NeverFails(w)
    ensures
      var r := EvalAll(w, es, st, fuel);
      r.out == Normal && |r.st.trace| >= |st.trace| && r.st.fields == st.fields && r.st.sets == st.sets
    decreases es
  {
    if es.More? {
      MildRuns(w, es.head, st, fuel);
      MildAllRun(w, es.tail, Eval(w, es.head, st, fuel).st, fuel);
    }
  }

  /** Only the replies up to the end of the evaluation matter. */
  lemma {:induction false} MildSame(w: World, w': World, e: Expr, st: State, fuel: nat)
    requires Mild(e) && NeverFails(w) && Agree(w, w', |Eval(w, e, st, fuel).st.trace|)
    ensures Eval(w', e, st, fuel) == Eval(w, e, st, fuel)
    decreases e
  {
    match e
    case Group(i) => MildSame(w, w', i, st, fuel);
    case Not(i) => MildSame(w, w', i, st, fuel);
    case And(a, b) => MildBothSame(w, w', e, a, b, st, fuel);
    case Or(a, b) => MildBothSame(w, w', e, a, b, st, fuel);
    case Member(i, _) => MildSame(w, w', i, st, fuel);
    case AddressOf(i) => MildSame(w, w', i, st, fuel);
    case Else(a, b) => MildBothSame(w, w', e, a, b, st, fuel);
    case Call(_, args) =>
      MildAllRun(w, args, st, fuel);
      MildAllSame(w, w', args, st, fuel);
    case Try(_, args) =>
      MildAllRun(w, args, st, fuel);
      MildAllSame(w, w', args, st, fuel);
    case _ =>
  }

  lemma {:induction false} MildBothSame(w: World, w': World, e: Expr, a: Expr, b: Expr, st: State, fuel: nat)
    requires e == And(a, b) || e == Or(a, b) || e == Else(a, b)
    requires Mild(e) && NeverFails(w) && Agree(w, w', |Eval(w, e, st, fuel).st.trace|)
    ensures Eval(w', e, st, fuel) == Eval(w, e, st, fuel)
    decreases e, 0
  {
    MildRuns(w, a, st, fuel);
    var v := Eval(w, a, st, fuel);
    MildRuns(w, b, v.st, fuel);
    MildSame(w, w', a, st, fuel);
    if (v.v != 0) == e.And? { MildSame(w, w', b, v.st, fuel); }
  }

  lemma {:induction false} MildAllSame(w: World, w': World, es: Exprs, st: State, fuel: nat)
    requires MildAll(es) && NeverFails(w) && Agree(w, w', |EvalAll(w, es, st, fuel).st.trace|)
    ensures EvalAll(w', es, st, fuel) == EvalAll(w, es, st, fuel)
    decreases es
  {
    if es.More? {
      MildRuns(w, es.head, st, fuel);
      var a := Eval(w, es.head, st, fuel);
      MildAllRun(w, es.tail, a.st, fuel);
      MildSame(w, w', es.head, st, fuel);
      MildAllSame(w, w', es.tail, a.st, fuel);
    }
  }

  lemma {:induction false} FreeIsMild(e: Expr)
    requires Free(e)
    ensures Mild(e)
  {
    match e
    case Group(i) => FreeIsMild(i);
    case Not(i) => FreeIsMild(i);
    case And(a, b) => FreeIsMild(a); FreeIsMild(b);
    case Or(a, b) => FreeIsMild(a); FreeIsMild(b);
    case _ =>
  }

  // ----- conditions -----

  /** `w2` gives the replies `w` has given by the time of `st`, and no call fails in it. */
  ghost predicate Extends(w: World, w2: World, st: State) { NeverFails(w2) && Agree(w, w2, |st.trace|) }

  /** A free condition can be made true, and made false. */
  lemma {:induction false} SteerCondition(w: World, e: Expr, st: State, want: bool) returns (w2: World)
    requires Free(e) && NeverFails(w)
    ensures Extends(w, w2, st)
    ensures Eval(w2, e, st, 0).out == Normal && ((Eval(w2, e, st, 0).v != 0) == want)
    decreases e
  {
    FreeIsMild(e);
    match e
    case Group(i) => w2 := SteerCondition(w, i, st, want);
    case Not(i) => w2 := SteerCondition(w, i, st, !want);
    case And(a, b) => w2 := SteerBoth(w, e, a, b, st, want);
    case Or(a, b) => w2 := SteerBoth(w, e, a, b, st, want);
    case Call(_, args) => w2 := SteerCall(w, args, st, Truth(want));
    case Try(_, args) => w2 := SteerCall(w, args, st, Truth(want));
  }

  lemma SteerCall(w: World, args: Exprs, st: State, v: int) returns (w2: World)
    requires MildAll(args) && NeverFails(w)
    ensures Extends(w, w2, st)
    ensures
      var a := EvalAll(w2, args, st, 0);
      a.out == Normal && forall t: seq<Event> :: |t| == |a.st.trace| + 1 ==> w2(t) == Reply(v, false)
  {
    MildAllRun(w, args, st, 0);
    var n := |EvalAll(w, args, st, 0).st.trace| + 1;
    w2 := Say(w, n, v);
    SayAgrees(w, n, v);
    MildAllSame(w, w2, args, st, 0);
  }

  lemma {:induction false} SteerBoth(w: World, e: Expr, a: Expr, b: Expr, st: State, want: bool) returns (w2: World)
    requires (e == And(a, b) || e == Or(a, b)) && Free(e) && NeverFails(w)
    ensures Extends(w, w2, st)
    ensures Eval(w2, e, st, 0).out == Normal && ((Eval(w2, e, st, 0).v != 0) == want)
    decreases e, 0
  {
    var w1 := SteerCondition(w, a, st, want);
    var v := Eval(w1, a, st, 0);
    if want == e.Or? {
      w2 := w1;
    } else {
      w2 := SteerCondition(w1, b, v.st, want);
      FreeIsMild(a);
      MildRuns(w1, a, st, 0);
      MildSame(w1, w2, a, st, 0);
    }
  }

  // ----- completed statements depend on the replies they got -----

  lemma {:induction false} Longer(w: World, s: Stmt, j: Jumps, st: State)
    requires Steerable(s, j) && NeverFails(w) && Exec(w, s, st, 0).out == Normal
    ensures |Exec(w, s, st, 0).st.trace| >= |st.trace|
    decreases s, 0
  {
    match s
    case Let(_, e) => MildRuns(w, e, st, 0);
    case Declare(_) =>
    case Assign(_, e) => MildRuns(w, e, st, 0);
    case AssignField(_, e) => MildRuns(w, e, st, 0);
    case Store(p, e) => MildRuns(w, p, st, 0); MildRuns(w, e, Eval(w, p, st, 0).st, 0);
    case ExprStmt(e) => MildRuns(w, e, st, 0);
    case If(c, thn, els) =>
      FreeIsMild(c);
      MildRuns(w, c, st, 0);
      var a := Eval(w, c, st, 0);
      LongerList(w, if a.v != 0 then thn else els, j, a.st);
    case While(_, c, _) =>
      if c != Bool(true) { FreeIsMild(c); }
      MildRuns(w, c, st, 0);
    case Block(body) => LongerList(w, body, j, st);
    case With(a, body) => MildRuns(w, a, st, 0); LongerList(w, body, Under(j), Eval(w, a, st, 0).st);
    case Match(e, arms) =>
      MildRuns(w, e, st, 0);
      LongerArms(w, arms, Under(j), Eval(w, e, st, 0).v, Eval(w, e, st, 0).st);
  }

  lemma {:induction false} LongerArms(w: World, arms: Arms, j: Jumps, v: int, st: State)
    requires SteerableArms(arms, j) && NeverFails(w) && ExecArms(w, arms, v, st, 0).out == Normal
    ensures |ExecArms(w, arms, v, st, 0).st.trace| > |st.trace|
    decreases arms, 0
  {
    var st' := Tell(Tested(arms.pattern, v), st);
    if w(st'.trace).value == 0 {
      LongerArms(w, arms.rest, j, v, st');
    } else {
      if arms.guard != Bool(true) { FreeIsMild(arms.guard); }
      MildRuns(w, arms.guard, st', 0);
      var g := Eval(w, arms.guard, st', 0);
      if g.v != 0 { LongerList(w, arms.body, j, g.st); } else { LongerArms(w, arms.rest, j, v, g.st); }
    }
  }

  lemma {:induction false} LongerList(w: World, ss: Stmts, j: Jumps, st: State)
    requires SteerableList(ss, j) && NeverFails(w) && ExecList(w, ss, st, 0).out == Normal
    ensures |ExecList(w, ss, st, 0).st.trace| >= |st.trace|
    ensures |ExecBlock(w, ss, st, 0).st.trace| >= |st.trace|
    decreases ss, 1
  {
    if ss.Cons? {
      Longer(w, ss.head, j, st);
      LongerList(w, ss.tail, j, Exec(w, ss.head, st, 0).st);
    }
  }

  lemma {:induction false} SameStmt(w: World, w': World, s: Stmt, j: Jumps, st: State)
    requires Steerable(s, j) && NeverFails(w) && Exec(w, s, st, 0).out == Normal
    requires Agree(w, w', |Exec(w, s, st, 0).st.trace|)
    ensures Exec(w', s, st, 0) == Exec(w, s, st, 0)
    decreases s, 0
  {
    match s
    case Let(_, e) => MildSame(w, w', e, st, 0);
    case Declare(_) =>
    case Assign(_, e) => MildSame(w, w', e, st, 0);
    case AssignField(_, e) => MildSame(w, w', e, st, 0);
    case Store(p, e) =>
      MildRuns(w, e, Eval(w, p, st, 0).st, 0);
      MildSame(w, w', p, st, 0);
      MildSame(w, w', e, Eval(w, p, st, 0).st, 0);
    case ExprStmt(e) => MildSame(w, w', e, st, 0);
    case If(c, thn, els) =>
      FreeIsMild(c);
      var a := Eval(w, c, st, 0);
      var taken := if a.v != 0 then thn else els;
      LongerList(w, taken, j, a.st);
      MildSame(w, w', c, st, 0);
      SameList(w, w', taken, j, a.st);
    case While(_, c, _) =>
      if c != Bool(true) { FreeIsMild(c); }
      MildSame(w, w', c, st, 0);
    case Block(body) => SameList(w, w', body, j, st);
    case With(a, body) =>
      LongerList(w, body, Under(j), Eval(w, a, st, 0).st);
      MildSame(w, w', a, st, 0);
      SameList(w, w', body, Under(j), Eval(w, a, st, 0).st);
    case Match(e, arms) =>
      var a := Eval(w, e, st, 0);
      LongerArms(w, arms, Under(j), a.v, a.st);
      MildSame(w, w', e, st, 0);
      SameArms(w, w', arms, Under(j), a.v, a.st);
  }

  lemma {:induction false} SameArms(w: World, w': World, arms: Arms, j: Jumps, v: int, st: State)
    requires SteerableArms(arms, j) && NeverFails(w) && ExecArms(w, arms, v, st, 0).out == Normal
    requires Agree(w, w', |ExecArms(w, arms, v, st, 0).st.trace|)
    ensures ExecArms(w', arms, v, st, 0) == ExecArms(w, arms, v, st, 0)
    decreases arms, 0
  {
    LongerArms(w, arms, j, v, st);
    var st' := Tell(Tested(arms.pattern, v), st);
    if w(st'.trace).value == 0 {
      SameArms(w, w', arms.rest, j, v, st');
    } else {
      if arms.guard != Bool(true) { FreeIsMild(arms.guard); }
      MildRuns(w, arms.guard, st', 0);
      var g := Eval(w, arms.guard, st', 0);
      if g.v != 0 { LongerList(w, arms.body, j, g.st); } else { LongerArms(w, arms.rest, j, v, g.st); }
      MildSame(w, w', arms.guard, st', 0);
      if g.v != 0 { SameList(w, w', arms.body, j, g.st); } else { SameArms(w, w', arms.rest, j, v, g.st); }
    }
  }

  lemma {:induction false} SameList(w: World, w': World, ss: Stmts, j: Jumps, st: State)
    requires SteerableList(ss, j) && NeverFails(w) && ExecList(w, ss, st, 0).out == Normal
    requires Agree(w, w', |ExecList(w, ss, st, 0).st.trace|)
    ensures ExecList(w', ss, st, 0) == ExecList(w, ss, st, 0) && ExecBlock(w', ss, st, 0) == ExecBlock(w, ss, st, 0)
    decreases ss, 1
  {
    if ss.Cons? {
      var r := Exec(w, ss.head, st, 0);
      Longer(w, ss.head, j, st);
      LongerList(w, ss.tail, j, r.st);
      SameStmt(w, w', ss.head, j, st);
      SameList(w, w', ss.tail, j, r.st);
    }
  }

  // ----- every way through is taken by some run -----

  /** The run completed, having assigned the fields in `m`. */
  ghost predicate Took(r: Run, st: State, m: multiset<nat>) {
    r.out == Normal && r.st.sets == st.sets + m && forall f :: f in r.st.fields <==> f in st.fields || f in m
  }

  lemma {:induction false} Steer(w: World, s: Stmt, j: Jumps, st: State, m: multiset<nat>) returns (w2: World)
    requires Steerable(s, j) && NeverFails(w) && Ends(s, m)
    ensures Extends(w, w2, st) && Took(Exec(w2, s, st, 0), st, m)
    decreases s, 1
  {
    w2 := w;
    match s
    case Let(_, e) => MildRuns(w, e, st, 0);
    case Declare(_) =>
    case Assign(_, e) => MildRuns(w, e, st, 0);
    case AssignField(_, e) => MildRuns(w, e, st, 0);
    case Store(p, e) => MildRuns(w, p, st, 0); MildRuns(w, e, Eval(w, p, st, 0).st, 0);
    case ExprStmt(e) => MildRuns(w, e, st, 0);
    case If(c, thn, els) => w2 := SteerIf(w, s, j, st, m);
    case While(_, c, _) =>
      w2 := SteerCondition(w, c, st, false);
      FreeIsMild(c);
      MildRuns(w2, c, st, 0);
    case Block(body) => w2 := SteerList(w, body, j, st, m);
    case With(a, body) =>
      MildRuns(w, a, st, 0);
      var v := Eval(w, a, st, 0);
      w2 := SteerList(w, body, Under(j), v.st, m);
      MildSame(w, w2, a, st, 0);
    case Match(e, arms) =>
      MildRuns(w, e, st, 0);
      var v := Eval(w, e, st, 0);
      w2 := SteerArms(w, arms, Under(j), v.v, v.st, m);
      MildSame(w, w2, e, st, 0);
  }

  lemma {:induction false} SteerIf(w: World, s: Stmt, j: Jumps, st: State, m: multiset<nat>) returns (w2: World)
    requires s.If? && Steerable(s, j) && NeverFails(w) && Ends(s, m)
    ensures Extends(w, w2, st) && Took(Exec(w2, s, st, 0), st, m)
    decreases s, 0
  {
    var first := EndsList(s.thn, m);
    var w1 := SteerCondition(w, s.cond, st, first);
    FreeIsMild(s.cond);
    MildRuns(w1, s.cond, st, 0);
    var a := Eval(w1, s.cond, st, 0);
    w2 := SteerList(w1, if first then s.thn else s.els, j, a.st, m);
    MildSame(w1, w2, s.cond, st, 0);
  }

  lemma {:induction false} SteerArms(w: World, arms: Arms, j: Jumps, v: int, st: State, m: multiset<nat>) returns (w2: World)
    requires SteerableArms(arms, j) && NeverFails(w) && EndsArms(arms, m)
    ensures Extends(w, w2, st) && Took(ExecArms(w2, arms, v, st, 0), st, m)
    decreases arms, 1
  {
    var st' := Tell(Tested(arms.pattern, v), st);
    var first := EndsList(arms.body, m);
    var w1 := Say(w, |st'.trace|, Truth(first));
    SayAgrees(w, |st'.trace|, Truth(first));
    if first {
      var wg := w1;
      if arms.guard != Bool(true) {
        FreeIsMild(arms.guard);
        wg := SteerCondition(w1, arms.guard, st', true);
      }
      MildRuns(wg, arms.guard, st', 0);
      var g := Eval(wg, arms.guard, st', 0);
      w2 := SteerList(wg, arms.body, j, g.st, m);
      MildSame(wg, w2, arms.guard, st', 0);
      assert w2(st'.trace) == wg(st'.trace) == w1(st'.trace);
    } else {
      w2 := SteerArms(w1, arms.rest, j, v, st', m);
      assert w2(st'.trace) == w1(st'.trace);
    }
  }

  lemma {:induction false} SteerList(w: World, ss: Stmts, j: Jumps, st: State, m: multiset<nat>) returns (w2: World)
    requires SteerableList(ss, j) && NeverFails(w) && EndsList(ss, m)
    ensures Extends(w, w2, st) && Took(ExecList(w2, ss, st, 0), st, m) && Took(ExecBlock(w2, ss, st, 0), st, m)
    decreases ss, 2
  {
    w2 := w;
    if ss.Cons? {
      var a, b :| Ends(ss.head, a) && EndsList(ss.tail, b) && m == a + b;
      var w1 := Steer(w, ss.head, j, st, a);
      var r := Exec(w1, ss.head, st, 0);
      Longer(w1, ss.head, j, st);
      w2 := SteerList(w1, ss.tail, j, r.st, b);
      SameStmt(w1, w2, ss.head, j, st);
    }
  }
}
