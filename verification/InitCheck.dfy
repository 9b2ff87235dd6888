/** Definite assignment in a custom `init` (src/check/init.cpp).

    The walk threads the set of fields surely assigned so far.  The source keeps it in one
    64-bit word, so a struct's fields past the sixty-fourth have no bit: the rules are sound
    exactly for structs of at most 64 fields. */
module InitCheck {
  import opened FlowSource
  import opened AlwaysLeaves

  type Bits = set<nat>

  /** The bit of a field; fields past 63 have none. */
  function Bit(field: nat): Bits { if field < 64 then {field} else {} }

  /** `all_fields`: a bit for each of the struct's first 64 fields. */
  function AllFields(count: nat): (r: Bits)
    ensures forall i: nat :: i in r <==> i < count && i < 64
  {
    if count == 0 then {} else AllFields(count - 1) + Bit(count - 1)
  }

  predicate MentionsSelf(e: Expr) {
    match e
    case SelfRef => true
    case Group(i) => MentionsSelf(i)
    case Not(i) => MentionsSelf(i)
    case And(a, b) => MentionsSelf(a) || MentionsSelf(b)
    case Or(a, b) => MentionsSelf(a) || MentionsSelf(b)
    case Member(i, _) => MentionsSelf(i)
    case AddressOf(i) => MentionsSelf(i)
    case Else(i, fallback) => MentionsSelf(i) || MentionsSelf(fallback)
    case Call(_, args) => MentionsSelfIn(args)
    case Try(_, args) => MentionsSelfIn(args)
    case Catch(operand, _, handler) => MentionsSelf(operand) || SelfIn(handler)
    case _ => false
  }

  predicate MentionsSelfIn(es: Exprs) { es.More? && (MentionsSelf(es.head) || MentionsSelfIn(es.tail)) }

  predicate SelfInStmt(s: Stmt) {
    match s
    case Let(_, e) => MentionsSelf(e)
    case Declare(_) => false
    case Assign(_, e) => MentionsSelf(e)
    case AssignField(_, _) => true
    case Store(place, e) => MentionsSelf(place) || MentionsSelf(e)
    case ExprStmt(e) => MentionsSelf(e)
    case If(c, thn, els) => MentionsSelf(c) || SelfIn(thn) || SelfIn(els)
    case While(_, c, body) => MentionsSelf(c) || SelfIn(body)
    case Block(body) => SelfIn(body)
    case With(a, body) => MentionsSelf(a) || SelfIn(body)
    case Match(e, arms) => MentionsSelf(e) || SelfInArms(arms)
    case Return(e) => MentionsSelf(e)
    case Recover(e) => MentionsSelf(e)
    case Error(e) => MentionsSelf(e)
    case Trap => false
    case Break(_) => false
    case Continue(_) => false
  }

  predicate SelfInArms(arms: Arms) {
    arms.Arm? && (MentionsSelf(arms.guard) || SelfIn(arms.body) || SelfInArms(arms.rest))
  }

  predicate SelfIn(ss: Stmts) { ss.Cons? && (SelfInStmt(ss.head) || SelfIn(ss.tail)) }

  /** What the walk leaves: the set on exit, and whether nothing was reported. */
  datatype Walked = Walked(held: Bits, ok: bool)

  predicate ExprAllowed(e: Expr, held: Bits, every: Bits) { held == every || !MentionsSelf(e) }

  /** `InitWalk::statement` as a function of the set on entry. */
  function Walk(s: Stmt, held: Bits, every: Bits, inLoop: bool): Walked {
    match s
    case Block(body) => WalkList(body, held, every, inLoop)
    case AssignField(f, e) =>
      Walked(held + Bit(f), ExprAllowed(e, held, every) && Bit(f) !! held && !inLoop)
    case Store(place, e) => Walked(held, ExprAllowed(place, held, every) && ExprAllowed(e, held, every))
    case If(c, thn, els) =>
      var t := WalkList(thn, held, every, inLoop);
      var f := WalkList(els, held, every, inLoop);
      var joined :=
        if SomeReturns(thn) && !SomeReturns(els) then f.held
        else if SomeReturns(els) && !SomeReturns(thn) then t.held
        else if !SomeReturns(thn) then t.held * f.held
        else held;
      Walked(joined, ExprAllowed(c, held, every) && t.ok && f.ok)
    case Match(e, arms) =>
      var a := WalkArms(arms, held, every, inLoop, every, false);
      Walked(if a.any then a.joined else held, ExprAllowed(e, held, every) && a.ok)
    case While(_, c, body) =>
      Walked(held, ExprAllowed(c, held, every) && WalkList(body, held, every, true).ok)
    case With(a, body) =>
      Walked(held, ExprAllowed(a, held, every) && WalkList(body, held, every, true).ok)
    case Let(_, e) => Walked(held, ExprAllowed(e, held, every))
    case Assign(_, e) => Walked(held, ExprAllowed(e, held, every))
    case ExprStmt(e) => Walked(held, ExprAllowed(e, held, every))
    case Return(e) => Walked(held, ExprAllowed(e, held, every))
    case Recover(e) => Walked(held, ExprAllowed(e, held, every))
    case Error(e) => Walked(held, ExprAllowed(e, held, every))
    case _ => Walked(held, true)
  }

  function WalkList(ss: Stmts, held: Bits, every: Bits, inLoop: bool): Walked {
    match ss
    case Nil => Walked(held, true)
    case Cons(s, rest) =>
      var a := Walk(s, held, every, inLoop);
      var b := WalkList(rest, a.held, every, inLoop);
      Walked(b.held, a.ok && b.ok)
  }

  datatype ArmsWalked = ArmsWalked(joined: Bits, any: bool, ok: bool)

  /** The arms from some point on, with what the earlier ones left in `joined` and `any`. */
  function WalkArms(arms: Arms, held: Bits, every: Bits, inLoop: bool, joined: Bits, any: bool): ArmsWalked {
    match arms
    case NoArms => ArmsWalked(joined, any, true)
    case Arm(_, guard, body, rest) =>
      var b := WalkList(body, held, every, inLoop);
      var r := if SomeReturns(body) then WalkArms(rest, held, every, inLoop, joined, any)
               else WalkArms(rest, held, every, inLoop, joined * b.held, true);
      ArmsWalked(r.joined, r.any, ExprAllowed(guard, held, every) && b.ok && r.ok)
  }

  /** `check_init`: the walk reports nothing, and the end is reached with every field held. */
  predicate Accepts(body: Stmts, fieldCount: nat) {
    var every := AllFields(fieldCount);
    var r := WalkList(body, {}, every, false);
    r.ok && (r.held == every || SomeReturns(body))
  }

  // ----- the walk as it is written -----

  /** `InitWalk`: the set is updated in place, reports are only counted. */
  class InitWalk {
    const every: Bits
    var clean: bool

    constructor (every: Bits)
      ensures this.every == every && clean
    {
      this.every := every;
      clean := true;
    }

    method Expression(e: Expr, held: Bits)
      modifies this
      ensures clean == (old(clean) && ExprAllowed(e, held, every))
    {
      if held != every && MentionsSelf(e) {
        clean := false;
      }
    }

    method Statement(s: Stmt, before: Bits, inLoop: bool) returns (held: Bits)
      modifies this
      ensures Walked(held, clean) == Walk(s, before, every, inLoop).(ok := old(clean) && Walk(s, before, every, inLoop).ok)
      decreases s
    {
      held := before;
      match s
      case Block(body) => held := Items(body, held, inLoop);
      case AssignField(f, e) =>
        Expression(e, held);
        if !(Bit(f) !! held) || inLoop {
          clean := false;
        }
        held := held + Bit(f);
      case Store(place, e) =>
        Expression(place, held);
        Expression(e, held);
      case If(c, thn, els) =>
        Expression(c, held);
        var thenHeld := Items(thn, held, inLoop);
        var elseHeld := Items(els, held, inLoop);
        var thenLeaves, elseLeaves := SomeReturns(thn), SomeReturns(els);
        if thenLeaves && !elseLeaves {
          held := elseHeld;
        } else if elseLeaves && !thenLeaves {
          held := thenHeld;
        } else if !thenLeaves {
          held := thenHeld * elseHeld;
        }
      case Match(e, arms) =>
        Expression(e, held);
        var joined, any := ArmSets(arms, held, inLoop);
        held := if any then joined else held;
      case While(_, c, body) =>
        Expression(c, held);
        var _ := Items(body, held, true);
      case With(a, body) =>
        Expression(a, held);
        var _ := Items(body, held, true);
      case Let(_, e) => Expression(e, held);
      case Assign(_, e) => Expression(e, held);
      case ExprStmt(e) => Expression(e, held);
      case Return(e) => Expression(e, held);
      case Recover(e) => Expression(e, held);
      case Error(e) => Expression(e, held);
      case _ =>
    }

    method Items(ss: Stmts, before: Bits, inLoop: bool) returns (held: Bits)
      modifies this
      ensures held == WalkList(ss, before, every, inLoop).held
      ensures clean == (old(clean) && WalkList(ss, before, every, inLoop).ok)
      decreases ss, 0
    {
      held := before;
      var rest := ss;
      while rest.Cons?
        invariant WalkList(rest, held, every, inLoop).held == WalkList(ss, before, every, inLoop).held
        invariant (clean && WalkList(rest, held, every, inLoop).ok) == (old(clean) && WalkList(ss, before, every, inLoop).ok)
        invariant rest == ss || rest < ss
        decreases rest
      {
        held := Statement(rest.head, held, inLoop);
        rest := rest.tail;
      }
    }

    method ArmSets(arms: Arms, held: Bits, inLoop: bool) returns (joined: Bits, any: bool)
      modifies this
      ensures
        var r := WalkArms(arms, held, every, inLoop, every, false);
        joined == r.joined && any == r.any && clean == (old(clean) && r.ok)
      decreases arms, 0
    {
      joined, any := every, false;
      var rest := arms;
      while rest.Arm?
        invariant
          var all, left := WalkArms(arms, held, every, inLoop, every, false), WalkArms(rest, held, every, inLoop, joined, any);
          left.joined == all.joined && left.any == all.any && (clean && left.ok) == (old(clean) && all.ok)
        invariant rest == arms || rest < arms
        decreases rest
      {
        Expression(rest.guard, held);
        var armHeld := Items(rest.body, held, inLoop);
        if !SomeReturns(rest.body) {
          joined, any := joined * armHeld, true;
        }
        rest := rest.rest;
      }
    }
  }

  method CheckInit(body: Stmts, fieldCount: nat) returns (accepted: bool)
    ensures accepted == Accepts(body, fieldCount)
  {
    var walk := new InitWalk(AllFields(fieldCount));
    var held := walk.Items(body, {}, false);
    accepted := walk.clean && (held == walk.every || SomeReturns(body));
  }
}
