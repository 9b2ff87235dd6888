/** What the rules of a custom `init` accept, exactly, where no constant decides a condition and
    no statement stands behind one that always leaves. */
module InitExact {
  import opened FlowSource
  import opened AlwaysLeaves
  import opened InitCheck
  import opened InitTheorem
  import opened Steering
  import AlwaysLeavesExact

  // ----- bodies -----

  /** A field is assigned by a statement under this one. */
  predicate Assigns(s: Stmt) {
    match s
    case AssignField(_, _) => true
    case If(_, thn, els) => AssignsIn(thn) || AssignsIn(els)
    case While(_, _, body) => AssignsIn(body)
    case Block(body) => AssignsIn(body)
    case With(_, body) => AssignsIn(body)
    case Match(_, arms) => AssignsInArms(arms)
    case _ => false
  }

  predicate AssignsInArms(arms: Arms) { arms.Arm? && (AssignsIn(arms.body) || AssignsInArms(arms.rest)) }

  predicate AssignsIn(ss: Stmts) { ss.Cons? && (Assigns(ss.head) || AssignsIn(ss.tail)) }

  /** No field is assigned in the body of a loop or of a `with`. */
  predicate LoopsClean(s: Stmt) {
    match s
    case If(_, thn, els) => LoopsCleanIn(thn) && LoopsCleanIn(els)
    case While(_, _, body) => !AssignsIn(body)
    case Block(body) => LoopsCleanIn(body)
    case With(_, body) => !AssignsIn(body)
    case Match(_, arms) => LoopsCleanInArms(arms)
    case _ => true
  }

  predicate LoopsCleanInArms(arms: Arms) { arms.Arm? ==> LoopsCleanIn(arms.body) && LoopsCleanInArms(arms.rest) }

  predicate LoopsCleanIn(ss: Stmts) { ss.Cons? ==> LoopsClean(ss.head) && LoopsCleanIn(ss.tail) }

  /** Nothing stands behind a statement that always leaves, and every field assigned is one of
      the struct's. */
  predicate Trimmed(s: Stmt, count: nat) {
    match s
    case AssignField(f, _) => f < count
    case If(_, thn, els) => TrimmedList(thn, count) && TrimmedList(els, count)
    case While(_, _, body) => TrimmedList(body, count)
    case Block(body) => TrimmedList(body, count)
    case With(_, body) => TrimmedList(body, count)
    case Match(_, arms) => TrimmedArms(arms, count)
    case _ => true
  }

  predicate TrimmedArms(arms: Arms, count: nat) {
    arms.Arm? ==> TrimmedList(arms.body, count) && TrimmedArms(arms.rest, count)
  }

  predicate TrimmedList(ss: Stmts, count: nat) {
    ss.Cons? ==> Trimmed(ss.head, count) && TrimmedList(ss.tail, count) && (AlwaysReturns(ss.head) ==> ss.tail == Nil)
  }

  /** The bodies the theorems below are about. */
  predicate Plain(body: Stmts, count: nat) { SteerableList(body, NoJumps) && TrimmedList(body, count) && count <= 64 }

  // ----- the places where a body assigns a field or uses `self` -----

  datatype Use = Sets(field: nat) | Reads

  /** A place, and the statements that complete before it is reached. */
  datatype Site = Site(before: Stmts, use: Use)

  function Append(ss: Stmts, s: Stmt): Stmts {
    match ss
    case Nil => Cons(s, Nil)
    case Cons(t, rest) => Cons(t, Append(rest, s))
  }

  function ReadSites(mentions: bool, before: Stmts): seq<Site> { if mentions then [Site(before, Reads)] else [] }

  function Sites(s: Stmt, before: Stmts): seq<Site> {
    match s
    case Let(_, e) => ReadSites(MentionsSelf(e), before)
    case Assign(_, e) => ReadSites(MentionsSelf(e), before)
    case AssignField(f, e) => ReadSites(MentionsSelf(e), before) + [Site(before, Sets(f))]
    case Store(place, e) => ReadSites(MentionsSelf(place) || MentionsSelf(e), before)
    case ExprStmt(e) => ReadSites(MentionsSelf(e), before)
    case If(c, thn, els) => ReadSites(MentionsSelf(c), before) + SitesIn(thn, before) + SitesIn(els, before)
    case While(_, c, body) => ReadSites(MentionsSelf(c) || SelfIn(body), before)
    case Block(body) => SitesIn(body, before)
    case With(a, body) => ReadSites(MentionsSelf(a) || SelfIn(body), before)
    case Match(e, arms) => ReadSites(MentionsSelf(e), before) + SitesInArms(arms, before)
    case Return(e) => ReadSites(MentionsSelf(e), before)
    case Recover(e) => ReadSites(MentionsSelf(e), before)
    case Error(e) => ReadSites(MentionsSelf(e), before)
    case _ => []
  }

  function SitesInArms(arms: Arms, before: Stmts): seq<Site> {
    match arms
    case NoArms => []
    case Arm(_, guard, body, rest) =>
      ReadSites(MentionsSelf(guard), before) + SitesIn(body, before) + SitesInArms(rest, before)
  }

  function SitesIn(ss: Stmts, before: Stmts): seq<Site> {
    match ss
    case Nil => []
    case Cons(s, rest) => Sites(s, before) + SitesIn(rest, Append(before, s))
  }

  /** Some run of the statements completes with the field unassigned. */
  ghost predicate CanMiss(ss: Stmts, f: nat) {
    exists w: World, fuel: nat ::
      ExecList(w, ss, START, fuel).out == Normal && f !in ExecList(w, ss, START, fuel).st.fields
  }

  /** A field is assigned where it may still be unassigned; `self` is read where nothing is. */
  ghost predicate SiteFine(site: Site, count: nat) {
    match site.use
    case Sets(f) => CanMiss(site.before, f)
    case Reads => forall f: nat :: f < count ==> !CanMiss(site.before, f)
  }

  // ----- runs and ways through -----

  ghost predicate Misses(s: Stmt, f: nat) { exists m :: Ends(s, m) && f !in m }
  ghost predicate MissesArms(arms: Arms, f: nat) { exists m :: EndsArms(arms, m) && f !in m }
  ghost predicate MissesList(ss: Stmts, f: nat) { exists m :: EndsList(ss, m) && f !in m }

  lemma MissesNil(f: nat)
    ensures MissesList(Nil, f)
  {
    var m: multiset<nat> := multiset{};
    assert EndsList(Nil, m) && f !in m;
  }

  lemma MissesCons(s: Stmt, rest: Stmts, f: nat)
    ensures MissesList(Cons(s, rest), f) <==> Misses(s, f) && MissesList(rest, f)
  {
    if Misses(s, f) && MissesList(rest, f) {
      var a :| Ends(s, a) && f !in a;
      var b :| EndsList(rest, b) && f !in b;
      assert EndsList(Cons(s, rest), a + b) && f !in a + b;
    }
  }

  lemma MissesOr(thn: Stmts, els: Stmts, c: Expr, f: nat)
    ensures Misses(If(c, thn, els), f) <==> MissesList(thn, f) || MissesList(els, f)
  {
    if MissesList(thn, f) {
      var m :| EndsList(thn, m) && f !in m;
      assert Ends(If(c, thn, els), m);
    } else if MissesList(els, f) {
      var m :| EndsList(els, m) && f !in m;
      assert Ends(If(c, thn, els), m);
    }
  }

  lemma MissesArm(arms: Arms, f: nat)
    requires arms.Arm?
    ensures MissesArms(arms, f) <==> MissesList(arms.body, f) || MissesArms(arms.rest, f)
  {
    if MissesList(arms.body, f) {
      var m :| EndsList(arms.body, m) && f !in m;
      assert EndsArms(arms, m);
    } else if MissesArms(arms.rest, f) {
      var m :| EndsArms(arms.rest, m) && f !in m;
      assert EndsArms(arms, m);
    }
  }

  lemma MissesUnder(s: Stmt, f: nat)
    ensures s.Block? ==> (Misses(s, f) <==> MissesList(s.body, f))
    ensures s.With? ==> (Misses(s, f) <==> MissesList(s.body, f))
    ensures s.Match? ==> (Misses(s, f) <==> MissesArms(s.arms, f))
  {
    if (s.Block? || s.With?) && MissesList(s.body, f) {
      var m :| EndsList(s.body, m) && f !in m;
      assert Ends(s, m);
    } else if s.Match? && MissesArms(s.arms, f) {
      var m :| EndsArms(s.arms, m) && f !in m;
      assert Ends(s, m);
    }
  }

  lemma {:induction false} MissesAppend(ss: Stmts, s: Stmt, f: nat)
    ensures MissesList(Append(ss, s), f) <==> MissesList(ss, f) && Misses(s, f)
  {
    if ss.Nil? {
      MissesNil(f);
      MissesCons(s, Nil, f);
    } else {
      MissesCons(ss.head, Append(ss.tail, s), f);
      MissesCons(ss.head, ss.tail, f);
      MissesAppend(ss.tail, s, f);
    }
  }

  /** What always leaves has no way through. */
  lemma NoWay(ss: Stmts, m: multiset<nat>)
    requires SteerableList(ss, NoJumps) && SomeReturns(ss)
    ensures !EndsList(ss, m)
  {
    if EndsList(ss, m) {
      var w := SteerList(AlwaysLeavesExact.CALM, ss, NoJumps, START, m);
      SomeReturnsSound(w, ss, START, 0);
    }
  }

  lemma NoMiss(ss: Stmts, f: nat)
    requires SteerableList(ss, NoJumps) && SomeReturns(ss)
    ensures !MissesList(ss, f)
  {
    forall m ensures !EndsList(ss, m) { NoWay(ss, m); }
  }

  // ----- every completed run is a way through -----

  ghost predicate Kept(st: State, st': State) { st'.fields == st.fields && st'.sets == st.sets }

  lemma {:induction false} MildKeeps(w: World, e: Expr, st: State, fuel: nat)
    requires Mild(e)
    ensures Kept(st, Eval(w, e, st, fuel).st)
    decreases e
  {
    match e
    case Group(i) => MildKeeps(w, i, st, fuel);
    case Not(i) => MildKeeps(w, i, st, fuel);
    case And(a, b) => MildKeeps(w, a, st, fuel); MildKeeps(w, b, Eval(w, a, st, fuel).st, fuel);
    case Or(a, b) => MildKeeps(w, a, st, fuel); MildKeeps(w, b, Eval(w, a, st, fuel).st, fuel);
    case Member(i, _) => MildKeeps(w, i, st, fuel);
    case AddressOf(i) => MildKeeps(w, i, st, fuel);
    case Else(a, b) => MildKeeps(w, a, st, fuel); MildKeeps(w, b, Eval(w, a, st, fuel).st, fuel);
    case Call(_, args) => MildAllKeep(w, args, st, fuel);
    case Try(_, args) => MildAllKeep(w, args, st, fuel);
    case _ =>
  }

  lemma {:induction false} MildAllKeep(w: World, es: Exprs, st: State, fuel: nat)
    requires MildAll(es)
    ensures Kept(st, EvalAll(w, es, st, fuel).st)
    decreases es
  {
    if es.More? {
      MildKeeps(w, es.head, st, fuel);
      MildAllKeep(w, es.tail, Eval(w, es.head, st, fuel).st, fuel);
    }
  }

  lemma {:induction false} StmtKeeps(w: World, s: Stmt, j: Jumps, st: State, fuel: nat)
    requires Steerable(s, j) && !Assigns(s)
    ensures Kept(st, Exec(w, s, st, fuel).st)
    decreases fuel, s, 0
  {
    match s
    case Let(_, e) => MildKeeps(w, e, st, fuel);
    case Assign(_, e) => MildKeeps(w, e, st, fuel);
    case Store(p, e) => MildKeeps(w, p, st, fuel); MildKeeps(w, e, Eval(w, p, st, fuel).st, fuel);
    case ExprStmt(e) => if !e.Never? { MildKeeps(w, e, st, fuel); }
    case If(c, thn, els) =>
      FreeIsMild(c);
      MildKeeps(w, c, st, fuel);
      var a := Eval(w, c, st, fuel);
      ListKeeps(w, if a.v != 0 then thn else els, j, a.st, fuel);
    case While(_, c, body) =>
      if c != Bool(true) { FreeIsMild(c); }
      MildKeeps(w, c, st, fuel);
      var a := Eval(w, c, st, fuel);
      var j' := if SteerableList(body, Continues) then Continues else AllJumps;
      if a.out == Normal && a.v != 0 && fuel > 0 {
        ListKeeps(w, body, j', a.st, fuel);
        StmtKeeps(w, s, j, ExecBlock(w, body, a.st, fuel).st, fuel - 1);
      }
    case Block(body) => ListKeeps(w, body, j, st, fuel);
    case With(a, body) => MildKeeps(w, a, st, fuel); ListKeeps(w, body, Under(j), Eval(w, a, st, fuel).st, fuel);
    case Match(e, arms) =>
      MildKeeps(w, e, st, fuel);
      var a := Eval(w, e, st, fuel);
      ArmsKeep(w, arms, Under(j), a.v, a.st, fuel);
    case Return(e) => MildKeeps(w, e, st, fuel);
    case Recover(e) => MildKeeps(w, e, st, fuel);
    case Error(e) => MildKeeps(w, e, st, fuel);
    case _ =>
  }

  lemma {:induction false} ArmsKeep(w: World, arms: Arms, j: Jumps, v: int, st: State, fuel: nat)
    requires SteerableArms(arms, j) && !AssignsInArms(arms)
    ensures Kept(st, ExecArms(w, arms, v, st, fuel).st)
    decreases fuel, arms, 0
  {
    if arms.Arm? {
      var t := Tell(Tested(arms.pattern, v), st);
      var g := Eval(w, arms.guard, t, fuel);
      if arms.guard != Bool(true) { FreeIsMild(arms.guard); }
      MildKeeps(w, arms.guard, t, fuel);
      ListKeeps(w, arms.body, j, g.st, fuel);
      ArmsKeep(w, arms.rest, j, v, t, fuel);
      ArmsKeep(w, arms.rest, j, v, g.st, fuel);
    }
  }

  lemma {:induction false} ListKeeps(w: World, ss: Stmts, j: Jumps, st: State, fuel: nat)
    requires SteerableList(ss, j) && !AssignsIn(ss)
    ensures Kept(st, ExecList(w, ss, st, fuel).st) && Kept(st, ExecBlock(w, ss, st, fuel).st)
    decreases fuel, ss, 1
  {
    if ss.Cons? {
      StmtKeeps(w, ss.head, j, st, fuel);
      ListKeeps(w, ss.tail, j, Exec(w, ss.head, st, fuel).st, fuel);
    }
  }

  lemma {:induction false} RunTook(w: World, s: Stmt, st: State, fuel: nat) returns (m: multiset<nat>)
    requires Steerable(s, NoJumps) && LoopsClean(s) && Exec(w, s, st, fuel).out == Normal
    ensures Ends(s, m) && Took(Exec(w, s, st, fuel), st, m)
    decreases s, 0
  {
    m := multiset{};
    match s
    case Let(_, e) => MildKeeps(w, e, st, fuel);
    case Declare(_) =>
    case Assign(_, e) => MildKeeps(w, e, st, fuel);
    case AssignField(f, e) => MildKeeps(w, e, st, fuel); m := multiset{f};
    case Store(p, e) => MildKeeps(w, p, st, fuel); MildKeeps(w, e, Eval(w, p, st, fuel).st, fuel);
    case ExprStmt(e) => MildKeeps(w, e, st, fuel);
    case If(c, thn, els) =>
      FreeIsMild(c);
      MildKeeps(w, c, st, fuel);
      var a := Eval(w, c, st, fuel);
      m := ListTook(w, if a.v != 0 then thn else els, a.st, fuel);
    case While(_, c, body) =>
      if c == Bool(true) {
        AlwaysLeavesExact.ListWithoutBreak(body, Continues);
        AlwaysReturnsSound(w, s, st, fuel);
      } else {
        StmtKeeps(w, s, NoJumps, st, fuel);
      }
    case Block(body) => m := ListTook(w, body, st, fuel);
    case With(a, body) =>
      MildKeeps(w, a, st, fuel);
      NothingAssigned(body);
      m := ListTook(w, body, Eval(w, a, st, fuel).st, fuel);
    case Match(e, arms) =>
      MildKeeps(w, e, st, fuel);
      var a := Eval(w, e, st, fuel);
      m := ArmsTook(w, arms, a.v, a.st, fuel);
  }

  lemma {:induction false} ArmsTook(w: World, arms: Arms, v: int, st: State, fuel: nat) returns (m: multiset<nat>)
    requires SteerableArms(arms, NoJumps) && LoopsCleanInArms(arms) && ExecArms(w, arms, v, st, fuel).out == Normal
    ensures EndsArms(arms, m) && Took(ExecArms(w, arms, v, st, fuel), st, m)
    decreases arms, 0
  {
    var t := Tell(Tested(arms.pattern, v), st);
    var g := Eval(w, arms.guard, t, fuel);
    if arms.guard != Bool(true) { FreeIsMild(arms.guard); }
    MildKeeps(w, arms.guard, t, fuel);
    if w(t.trace).value == 0 {
      m := ArmsTook(w, arms.rest, v, t, fuel);
    } else if g.v != 0 {
      m := ListTook(w, arms.body, g.st, fuel);
    } else {
      m := ArmsTook(w, arms.rest, v, g.st, fuel);
    }
  }

  lemma {:induction false} ListTook(w: World, ss: Stmts, st: State, fuel: nat) returns (m: multiset<nat>)
    requires SteerableList(ss, NoJumps) && LoopsCleanIn(ss) && ExecList(w, ss, st, fuel).out == Normal
    ensures EndsList(ss, m) && Took(ExecList(w, ss, st, fuel), st, m) && Took(ExecBlock(w, ss, st, fuel), st, m)
    decreases ss, 1
  {
    m := multiset{};
    if ss.Cons? {
      var a := RunTook(w, ss.head, st, fuel);
      var b := ListTook(w, ss.tail, Exec(w, ss.head, st, fuel).st, fuel);
      m := a + b;
    }
  }

  /** Code that assigns nothing has clean loops. */
  lemma {:induction false} NothingAssigned(ss: Stmts)
    requires !AssignsIn(ss)
    ensures LoopsCleanIn(ss)
  {
    if ss.Cons? {
      match ss.head {
        case If(_, thn, els) => NothingAssigned(thn); NothingAssigned(els);
        case Block(body) => NothingAssigned(body);
        case Match(_, arms) => NothingAssignedInArms(arms);
        case _ =>
      }
      NothingAssigned(ss.tail);
    }
  }

  lemma {:induction false} NothingAssignedInArms(arms: Arms)
    requires !AssignsInArms(arms)
    ensures LoopsCleanInArms(arms)
  {
    if arms.Arm? {
      NothingAssigned(arms.body);
      NothingAssignedInArms(arms.rest);
    }
  }

  lemma MissIff(ss: Stmts, f: nat)
    requires SteerableList(ss, NoJumps) && LoopsCleanIn(ss)
    ensures CanMiss(ss, f) <==> MissesList(ss, f)
  {
    if CanMiss(ss, f) {
      var w: World, fuel: nat :| ExecList(w, ss, START, fuel).out == Normal && f !in ExecList(w, ss, START, fuel).st.fields;
      var m := ListTook(w, ss, START, fuel);
      assert EndsList(ss, m) && f !in m;
    }
    if MissesList(ss, f) {
      var m :| EndsList(ss, m) && f !in m;
      var w := SteerList(AlwaysLeavesExact.CALM, ss, NoJumps, START, m);
      assert f !in ExecList(w, ss, START, 0).st.fields;
    }
  }

  // ----- what the walk holds -----

  lemma AllFieldsAre(count: nat, f: nat)
    requires count <= 64
    ensures f in AllFields(count) <==> f < count
  {
  }

  /** Where nothing is assigned the walk keeps its set, and asks about `self` once for all. */
  lemma {:induction false} IdleWalk(s: Stmt, held: Bits, every: Bits, inLoop: bool)
    requires !Assigns(s) && held <= every
    ensures Walk(s, held, every, inLoop) == Walked(held, held == every || !SelfInStmt(s))
    decreases s, 0
  {
    match s
    case If(_, thn, els) => IdleList(thn, held, every, inLoop); IdleList(els, held, every, inLoop);
    case While(_, _, body) => IdleList(body, held, every, true);
    case Block(body) => IdleList(body, held, every, inLoop);
    case With(_, body) => IdleList(body, held, every, true);
    case Match(_, arms) => IdleArms(arms, held, every, inLoop, every, false);
    case _ =>
  }

  lemma {:induction false} IdleArms(arms: Arms, held: Bits, every: Bits, inLoop: bool, joined: Bits, any: bool)
    requires !AssignsInArms(arms) && held <= joined && (any ==> joined == held)
    ensures
      var r := WalkArms(arms, held, every, inLoop, joined, any);
      (r.any ==> r.joined == held) && (r.ok <==> held == every || !SelfInArms(arms))
    requires held <= every
    decreases arms, 0
  {
    if arms.Arm? {
      IdleList(arms.body, held, every, inLoop);
      assert joined * held == held;
      if SomeReturns(arms.body) {
        IdleArms(arms.rest, held, every, inLoop, joined, any);
      } else {
        IdleArms(arms.rest, held, every, inLoop, held, true);
      }
    }
  }

  lemma {:induction false} IdleList(ss: Stmts, held: Bits, every: Bits, inLoop: bool)
    requires !AssignsIn(ss) && held <= every
    ensures WalkList(ss, held, every, inLoop) == Walked(held, held == every || !SelfIn(ss))
    decreases ss, 1
  {
    if ss.Cons? {
      IdleWalk(ss.head, held, every, inLoop);
      IdleList(ss.tail, held, every, inLoop);
    }
  }

  lemma {:induction false} LoopReported(s: Stmt, held: Bits, every: Bits)
    requires Assigns(s)
    ensures !Walk(s, held, every, true).ok
    decreases s, 0
  {
    match s
    case If(_, thn, els) =>
      if AssignsIn(thn) { ListReported(thn, held, every); } else { ListReported(els, held, every); }
    case While(_, _, body) => ListReported(body, held, every);
    case Block(body) => ListReported(body, held, every);
    case With(_, body) => ListReported(body, held, every);
    case Match(_, arms) => ArmsReported(arms, held, every, every, false);
    case _ =>
  }

  lemma {:induction false} ArmsReported(arms: Arms, held: Bits, every: Bits, joined: Bits, any: bool)
    requires AssignsInArms(arms)
    ensures !WalkArms(arms, held, every, true, joined, any).ok
    decreases arms, 0
  {
    var b := WalkList(arms.body, held, every, true);
    if AssignsIn(arms.body) {
      ListReported(arms.body, held, every);
    } else if SomeReturns(arms.body) {
      ArmsReported(arms.rest, held, every, joined, any);
    } else {
      ArmsReported(arms.rest, held, every, joined * b.held, true);
    }
  }

  lemma {:induction false} ListReported(ss: Stmts, held: Bits, every: Bits)
    requires AssignsIn(ss)
    ensures !WalkList(ss, held, every, true).ok
    decreases ss, 1
  {
    if Assigns(ss.head) {
      LoopReported(ss.head, held, every);
    } else {
      ListReported(ss.tail, Walk(ss.head, held, every, true).held, every);
    }
  }

  /** A field is held after a statement exactly when it was held before or no way through the
      statement misses it. */
  lemma {:induction false} HeldExact(s: Stmt, held: Bits, count: nat, f: nat)
    requires Steerable(s, NoJumps) && Trimmed(s, count) && LoopsClean(s) && !AlwaysReturns(s)
    requires count <= 64 && held <= AllFields(count)
    ensures
      var after := Walk(s, held, AllFields(count), false).held;
      after <= AllFields(count) && (f < count ==> (f in after <==> f in held || !Misses(s, f)))
    decreases s, 0
  {
    var every := AllFields(count);
    match s
    case AssignField(g, _) => assert Ends(s, multiset{g});
    case If(c, thn, els) =>
      MissesOr(thn, els, c, f);
      if SomeReturns(thn) { NoMiss(thn, f); } else { HeldExactList(thn, held, count, f); }
      if SomeReturns(els) { NoMiss(els, f); } else { HeldExactList(els, held, count, f); }
    case While(_, c, body) =>
      if c == Bool(true) { AlwaysLeavesExact.ListWithoutBreak(body, Continues); }
      assert Ends(s, multiset{});
    case Block(body) =>
      MissesUnder(s, f);
      HeldExactList(body, held, count, f);
    case With(_, body) =>
      MissesUnder(s, f);
      NothingAssigned(body);
      HeldExactList(body, held, count, f);
      IdleList(body, held, every, false);
    case Match(_, arms) =>
      MissesUnder(s, f);
      HeldExactArms(arms, held, count, every, false, f);
    case Let(_, _) => assert Ends(s, multiset{});
    case Declare(_) => assert Ends(s, multiset{});
    case Assign(_, _) => assert Ends(s, multiset{});
    case Store(_, _) => assert Ends(s, multiset{});
    case ExprStmt(_) => assert Ends(s, multiset{});
  }

  lemma {:induction false} HeldExactArms(arms: Arms, held: Bits, count: nat, joined: Bits, any: bool, f: nat)
    requires SteerableArms(arms, NoJumps) && TrimmedArms(arms, count) && LoopsCleanInArms(arms)
    requires count <= 64 && held <= AllFields(count) && joined <= AllFields(count)
    ensures
      var r := WalkArms(arms, held, AllFields(count), false, joined, any);
      && r.joined <= AllFields(count) && r.any == (any || !ArmsReturn(arms))
      && (f < count ==> (f in r.joined <==> f in joined && (f in held || !MissesArms(arms, f))))
    decreases arms, 0
  {
    if arms.Arm? {
      MissesArm(arms, f);
      var b := WalkList(arms.body, held, AllFields(count), false);
      if SomeReturns(arms.body) {
        NoMiss(arms.body, f);
        HeldExactArms(arms.rest, held, count, joined, any, f);
      } else {
        HeldExactList(arms.body, held, count, f);
        HeldExactArms(arms.rest, held, count, joined * b.held, true, f);
      }
    }
  }

  lemma {:induction false} HeldExactList(ss: Stmts, held: Bits, count: nat, f: nat)
    requires SteerableList(ss, NoJumps) && TrimmedList(ss, count) && LoopsCleanIn(ss) && !SomeReturns(ss)
    requires count <= 64 && held <= AllFields(count)
    ensures
      var after := WalkList(ss, held, AllFields(count), false).held;
      after <= AllFields(count) && (f < count ==> (f in after <==> f in held || !MissesList(ss, f)))
    decreases ss, 1
  {
    if ss.Nil? {
      MissesNil(f);
    } else {
      MissesCons(ss.head, ss.tail, f);
      HeldExact(ss.head, held, count, f);
      HeldExactList(ss.tail, Walk(ss.head, held, AllFields(count), false).held, count, f);
    }
  }

  // ----- what the walk reports -----

  /** `held` is what every way through `before` assigns. */
  ghost predicate HeldAfter(before: Stmts, held: Bits, count: nat) {
    && held <= AllFields(count) && SteerableList(before, NoJumps) && LoopsCleanIn(before)
    && forall f: nat :: f < count ==> (f in held <==> !CanMiss(before, f))
  }

  /** Every place in the list is fine. */
  ghost predicate AllFine(sites: seq<Site>, count: nat) { forall site :: site in sites ==> SiteFine(site, count) }

  lemma FineBoth(a: seq<Site>, b: seq<Site>, count: nat)
    ensures AllFine(a + b, count) <==> AllFine(a, count) && AllFine(b, count)
  {
    forall site ensures site in a + b <==> site in a || site in b { }
  }

  lemma ReadFine(mentions: bool, before: Stmts, held: Bits, count: nat)
    requires HeldAfter(before, held, count) && count <= 64
    ensures AllFine(ReadSites(mentions, before), count) <==> held == AllFields(count) || !mentions
  {
    var every := AllFields(count);
    if mentions {
      var site := Site(before, Reads);
      assert ReadSites(mentions, before) == [site];
      assert AllFine([site], count) <==> SiteFine(site, count);
      if held != every {
        var f :| f in every && f !in held;
        assert CanMiss(before, f);
      }
    }
  }

  lemma SetFine(before: Stmts, held: Bits, count: nat, f: nat)
    requires HeldAfter(before, held, count) && f < count
    ensures AllFine([Site(before, Sets(f))], count) <==> f !in held
  {
    var site := Site(before, Sets(f));
    assert AllFine([site], count) <==> SiteFine(site, count);
  }

  lemma HeldNext(before: Stmts, s: Stmt, held: Bits, count: nat)
    requires HeldAfter(before, held, count) && count <= 64
    requires Steerable(s, NoJumps) && Trimmed(s, count) && LoopsClean(s) && !AlwaysReturns(s)
    ensures HeldAfter(Append(before, s), Walk(s, held, AllFields(count), false).held, count)
  {
    var after := Walk(s, held, AllFields(count), false).held;
    AppendPlain(before, s);
    HeldExact(s, held, count, 0);
    forall f: nat | f < count ensures f in after <==> !CanMiss(Append(before, s), f) {
      HeldExact(s, held, count, f);
      MissIff(before, f);
      MissIff(Append(before, s), f);
      MissesAppend(before, s, f);
    }
  }

  lemma {:induction false} AppendPlain(before: Stmts, s: Stmt)
    requires SteerableList(before, NoJumps) && LoopsCleanIn(before) && Steerable(s, NoJumps) && LoopsClean(s)
    ensures SteerableList(Append(before, s), NoJumps) && LoopsCleanIn(Append(before, s))
  {
    if before.Cons? { AppendPlain(before.tail, s); }
  }

  lemma HeldBelow(before: Stmts, held: Bits, count: nat)
    requires HeldAfter(before, held, count)
    ensures held <= AllFields(count)
  {
  }

  lemma NothingToSee(count: nat)
    ensures AllFine([], count)
  {
  }

  /** The walk reports nothing exactly when loops assign nothing and every place is fine. */
  lemma {:induction false} OkExact(s: Stmt, before: Stmts, held: Bits, count: nat)
    requires Steerable(s, NoJumps) && Trimmed(s, count) && count <= 64 && HeldAfter(before, held, count)
    ensures Walk(s, held, AllFields(count), false).ok <==> LoopsClean(s) && AllFine(Sites(s, before), count)
    decreases s, 1
  {
    hide HeldAfter, AllFine;
    match s
    case Let(_, e) => ReadFine(MentionsSelf(e), before, held, count);
    case Declare(_) => NothingToSee(count);
    case Assign(_, e) => ReadFine(MentionsSelf(e), before, held, count);
    case AssignField(f, e) =>
      ReadFine(MentionsSelf(e), before, held, count);
      SetFine(before, held, count, f);
      FineBoth(ReadSites(MentionsSelf(e), before), [Site(before, Sets(f))], count);
    case Store(p, e) => ReadFine(MentionsSelf(p) || MentionsSelf(e), before, held, count);
    case ExprStmt(e) => ReadFine(MentionsSelf(e), before, held, count);
    case If(_, _, _) => IfOkExact(s, before, held, count);
    case While(_, _, _) => LoopOkExact(s, before, held, count);
    case With(_, _) => LoopOkExact(s, before, held, count);
    case Block(body) => ListOkExact(body, before, held, count);
    case Match(_, _) => MatchOkExact(s, before, held, count);
    case Return(e) => ReadFine(MentionsSelf(e), before, held, count);
    case Recover(e) => ReadFine(MentionsSelf(e), before, held, count);
    case Error(e) => ReadFine(MentionsSelf(e), before, held, count);
    case Trap => NothingToSee(count);
  }

  lemma LoopOkExact(s: Stmt, before: Stmts, held: Bits, count: nat)
    requires (s.While? || s.With?) && count <= 64 && HeldAfter(before, held, count)
    ensures Walk(s, held, AllFields(count), false).ok <==> LoopsClean(s) && AllFine(Sites(s, before), count)
  {
    hide AllFine;
    var every := AllFields(count);
    var e := if s.While? then s.cond else s.allocator;
    ReadFine(MentionsSelf(e) || SelfIn(s.body), before, held, count);
    if AssignsIn(s.body) { ListReported(s.body, held, every); } else { IdleList(s.body, held, every, true); }
  }

  lemma {:induction false} IfOkExact(s: Stmt, before: Stmts, held: Bits, count: nat)
    requires s.If? && Steerable(s, NoJumps) && Trimmed(s, count) && count <= 64 && HeldAfter(before, held, count)
    ensures Walk(s, held, AllFields(count), false).ok <==> LoopsClean(s) && AllFine(Sites(s, before), count)
    decreases s, 0
  {
    hide HeldAfter, AllFine;
    var outer := ReadSites(MentionsSelf(s.cond), before);
    ReadFine(MentionsSelf(s.cond), before, held, count);
    ListOkExact(s.thn, before, held, count);
    ListOkExact(s.els, before, held, count);
    FineBoth(outer, SitesIn(s.thn, before), count);
    FineBoth(outer + SitesIn(s.thn, before), SitesIn(s.els, before), count);
  }

  lemma {:induction false} MatchOkExact(s: Stmt, before: Stmts, held: Bits, count: nat)
    requires s.Match? && Steerable(s, NoJumps) && Trimmed(s, count) && count <= 64 && HeldAfter(before, held, count)
    ensures Walk(s, held, AllFields(count), false).ok <==> LoopsClean(s) && AllFine(Sites(s, before), count)
    decreases s, 0
  {
    hide HeldAfter, AllFine;
    ReadFine(MentionsSelf(s.e), before, held, count);
    ArmsOkExact(s.arms, before, held, count, AllFields(count), false);
    FineBoth(ReadSites(MentionsSelf(s.e), before), SitesInArms(s.arms, before), count);
  }

  lemma {:induction false} ArmsOkExact(arms: Arms, before: Stmts, held: Bits, count: nat, joined: Bits, any: bool)
    requires SteerableArms(arms, NoJumps) && TrimmedArms(arms, count) && count <= 64 && HeldAfter(before, held, count)
    ensures
      WalkArms(arms, held, AllFields(count), false, joined, any).ok
      <==> LoopsCleanInArms(arms) && AllFine(SitesInArms(arms, before), count)
    decreases arms, 0
  {
    hide HeldAfter, AllFine;
    if arms.NoArms? {
      NothingToSee(count);
    } else {
      var outer, inside := ReadSites(MentionsSelf(arms.guard), before), SitesIn(arms.body, before);
      var b := WalkList(arms.body, held, AllFields(count), false);
      ReadFine(MentionsSelf(arms.guard), before, held, count);
      ListOkExact(arms.body, before, held, count);
      FineBoth(outer, inside, count);
      FineBoth(outer + inside, SitesInArms(arms.rest, before), count);
      if SomeReturns(arms.body) {
        ArmsOkExact(arms.rest, before, held, count, joined, any);
      } else {
        ArmsOkExact(arms.rest, before, held, count, joined * b.held, true);
      }
    }
  }

  lemma {:induction false} ListOkExact(ss: Stmts, before: Stmts, held: Bits, count: nat)
    requires SteerableList(ss, NoJumps) && TrimmedList(ss, count) && count <= 64 && HeldAfter(before, held, count)
    ensures WalkList(ss, held, AllFields(count), false).ok <==> LoopsCleanIn(ss) && AllFine(SitesIn(ss, before), count)
    decreases ss, 2
  {
    hide HeldAfter, AllFine;
    if ss.Nil? {
      NothingToSee(count);
    } else {
      var s, rest := ss.head, ss.tail;
      OkExact(s, before, held, count);
      FineBoth(Sites(s, before), SitesIn(rest, Append(before, s)), count);
      if rest.Nil? {
        NothingToSee(count);
      } else if LoopsClean(s) {
        HeldNext(before, s, held, count);
        ListOkExact(rest, Append(before, s), Walk(s, held, AllFields(count), false).held, count);
      }
    }
  }

  // ----- the theorem -----

  lemma NothingHeld(count: nat)
    ensures HeldAfter(Nil, {}, count)
  {
    forall f: nat ensures CanMiss(Nil, f) {
      assert ExecList(AlwaysLeavesExact.CALM, Nil, START, 0) == Run(Normal, START);
    }
  }

  /** An `init` is accepted exactly when loops assign nothing, no run completes with a field
      missing, no assignment is to a field every run has assigned by then, and `self` is used
      only where every run has assigned all fields. */
  lemma AcceptedIff(body: Stmts, count: nat)
    requires Plain(body, count)
    ensures
      Accepts(body, count) <==>
        && LoopsCleanIn(body)
        && (forall f: nat :: f < count ==> !CanMiss(body, f))
        && (forall site :: site in SitesIn(body, Nil) ==> SiteFine(site, count))
  {
    var every := AllFields(count);
    NothingHeld(count);
    ListOkExact(body, Nil, {}, count);
    if LoopsCleanIn(body) {
      forall f: nat | f < count
        ensures CanMiss(body, f) <==> !SomeReturns(body) && f !in WalkList(body, {}, every, false).held
      {
        MissIff(body, f);
        if SomeReturns(body) { NoMiss(body, f); } else { HeldExactList(body, {}, count, f); }
      }
      if !SomeReturns(body) { HeldExactList(body, {}, count, 0); }
    }
  }
}
