/** When the C of a `match` does what the interpreter does: for each of the four ways it is
    written, exactly the arms and values for which it does, whatever guards and bodies do. */
module MatchTheorem {
  import opened MatchLowering
  import ConstFold

  // ----- what a pattern takes -----

  /** What a pattern means (base.md, section 8.4). */
  predicate Means(p: Pattern, v: int) {
    match p
    case Wild => true
    case One(n, _) => v == n
    case Range(_, lo, hi, closed) => lo <= v && (v < hi || (closed && v == hi))
  }

  /** The pattern's literals are of the type. */
  predicate OfType(ty: ConstFold.IntType, p: Pattern) {
    match p
    case Wild => true
    case One(n, _) => ConstFold.InRange(ty, n)
    case Range(t, lo, hi, _) => t == ty && ConstFold.InRange(ty, lo) && ConstFold.InRange(ty, hi)
  }

  /** Both ends of a signed range are negative, or neither is. */
  predicate TakesAsMeant(p: Pattern) { p.Range? && p.ty.signed ==> (p.lo < 0) == (p.hi < 0) }

  lemma WordOf(ty: ConstFold.IntType, v: int)
    requires ConstFold.InRange(ty, v)
    ensures v % ConstFold.Span(ty.width) == if v < 0 then v + ConstFold.Span(ty.width) else v
  {
    if v < 0 { RemainderBelow(v, ConstFold.Span(ty.width)); }
  }

  lemma RemainderBelow(v: int, span: nat)
    requires 0 - span <= v < 0
    ensures v % span == v + span
  {
  }

  lemma TakesIs(ty: ConstFold.IntType, p: Pattern, v: int)
    requires OfType(ty, p) && p.Range? && ConstFold.InRange(ty, v)
    ensures
      var half := (x: int) => if x < 0 then x + ConstFold.Span(ty.width) else x;
      Takes(p, v) <==> half(p.lo) <= half(v) && (if p.closed then half(v) <= half(p.hi) else half(v) < half(p.hi))
  {
    hide ConstFold.Span;
    WordOf(ty, v);
    WordOf(ty, p.lo);
    WordOf(ty, p.hi);
  }

  /** The interpreter takes what a pattern means exactly when no signed range has a negative and
      a non-negative end. */
  lemma TakesIff(ty: ConstFold.IntType, p: Pattern)
    requires OfType(ty, p)
    ensures (forall v: int :: ConstFold.InRange(ty, v) ==> (Takes(p, v) <==> Means(p, v))) <==> TakesAsMeant(p)
  {
    hide Takes, ConstFold.Span;
    if p.Range? {
      forall v: int | ConstFold.InRange(ty, v) && TakesAsMeant(p) ensures Takes(p, v) <==> Means(p, v) {
        TakesIs(ty, p, v);
      }
      TakesIs(ty, p, p.lo);
    } else {
      forall v: int ensures Takes(p, v) <==> Means(p, v) { TakesSimple(p, v); }
    }
  }

  lemma TakesSimple(p: Pattern, v: int)
    requires !p.Range?
    ensures Takes(p, v) <==> Means(p, v)
  {
  }

  predicate InUpperHalf(x: int) { x >= ConstFold.WORD / 2 }

  /** For 64 bits: the range does not end below the least value of its type, and an unsigned one
      stays within one half of it. */
  predicate CaseAsMeant(p: Pattern)
  {
    p.Range? && p.ty.width.W64? ==>
      if p.ty.signed then p.closed || p.hi > ConstFold.Min(p.ty)
      else if p.closed then InUpperHalf(p.lo) == InUpperHalf(p.hi)
      else if p.hi == 0 then !InUpperHalf(p.lo)
      else InUpperHalf(p.lo) == InUpperHalf(p.hi - 1)
  }

  lemma Signed64Is(x: int)
    requires -(ConstFold.WORD / 2) - 1 <= x < ConstFold.WORD
    ensures Signed64(x)
         == if x >= ConstFold.WORD / 2 then x - ConstFold.WORD
            else if x < -(ConstFold.WORD / 2) then x + ConstFold.WORD else x
  {
    if x < 0 { RemainderBelow(x, ConstFold.WORD); }
  }

  /** What the case written for a pattern takes. */
  lemma CaseIs64(ty: ConstFold.IntType, p: Pattern, v: int)
    requires OfType(ty, p) && p != Wild && ConstFold.InRange(ty, v)
    ensures CaseAsMeant(p) ==> (CaseTakes(LabelFor(p), v) <==> Means(p, v))
    ensures p.Range? && !CaseAsMeant(p) && v == p.lo ==> (CaseTakes(LabelFor(p), v) <==> !Means(p, v))
  {
    hide Signed64;
    Signed64Is(v);
    Signed64Is(LabelFor(p).lo);
    Signed64Is(LabelFor(p).hi);
  }

  /** A case takes what its pattern means exactly under that condition. */
  lemma CaseIff(ty: ConstFold.IntType, p: Pattern)
    requires OfType(ty, p) && p != Wild
    ensures
      (forall v: int :: ConstFold.InRange(ty, v) ==> (CaseTakes(LabelFor(p), v) <==> Means(p, v))) <==> CaseAsMeant(p)
  {
    hide CaseTakes, LabelFor, Means;
    forall v: int | ConstFold.InRange(ty, v) && CaseAsMeant(p) ensures CaseTakes(LabelFor(p), v) <==> Means(p, v) {
      CaseIs64(ty, p, v);
    }
    if !CaseAsMeant(p) { CaseIs64(ty, p, if p.Range? then p.lo else 0); }
  }

  /** Where both do, `match` and `switch` find a value in the same patterns. */
  lemma BothAsMeant(ty: ConstFold.IntType, ps: seq<Pattern>, v: int)
    requires ConstFold.InRange(ty, v)
    requires forall i :: 0 <= i < |ps| ==> OfType(ty, ps[i]) && TakesAsMeant(ps[i]) && CaseAsMeant(ps[i])
    ensures Alike(ps, v)
  {
    hide Takes, CaseTakes, LabelFor, Means, CaseAsMeant, TakesAsMeant;
    forall i | 0 <= i < |ps| && ps[i] != Wild ensures Takes(ps[i], v) <==> CaseTakes(LabelFor(ps[i]), v) {
      TakesIff(ty, ps[i]);
      CaseIff(ty, ps[i]);
      assert Takes(ps[i], v) <==> Means(ps[i], v);
    }
  }

  // ----- the arm that is reached first -----

  function First(arms: seq<Arm>, v: int, i: nat): (k: nat)
    requires i <= |arms|
    ensures i <= k <= |arms| && (k < |arms| ==> Hits(arms[k].patterns, v))
    ensures forall j :: i <= j < k ==> !Hits(arms[j].patterns, v)
    decreases |arms| - i
  {
    if i == |arms| || Hits(arms[i].patterns, v) then i else First(arms, v, i + 1)
  }

  predicate Explicit(ps: seq<Pattern>, v: int) { exists i :: 0 <= i < |ps| && ps[i] != Wild && CaseTakes(LabelFor(ps[i]), v) }

  function FirstExplicit(arms: seq<Arm>, v: int, i: nat): (k: nat)
    requires i <= |arms|
    ensures i <= k <= |arms| && (k < |arms| ==> Explicit(arms[k].patterns, v))
    ensures forall j :: i <= j < k ==> !Explicit(arms[j].patterns, v)
    decreases |arms| - i
  {
    if i == |arms| || Explicit(arms[i].patterns, v) then i else FirstExplicit(arms, v, i + 1)
  }

  function FirstWild(arms: seq<Arm>, i: nat): (k: nat)
    requires i <= |arms|
    ensures i <= k <= |arms| && (k < |arms| ==> HasWild(arms[k].patterns))
    ensures forall j :: i <= j < k ==> !HasWild(arms[j].patterns)
    decreases |arms| - i
  {
    if i == |arms| || HasWild(arms[i].patterns) then i else FirstWild(arms, i + 1)
  }

  /** The arm a `switch` over these arms goes to. */
  function Target(arms: seq<Arm>, v: int): (k: nat)
    ensures k <= |arms|
  {
    if FirstExplicit(arms, v, 0) < |arms| then FirstExplicit(arms, v, 0) else FirstWild(arms, 0)
  }

  lemma {:induction false} LabelsAre(ps: seq<Pattern>, defaulted: bool, v: int)
    ensures Labelled(Block(LabelsOf(ps, defaulted), false, false), v) <==> Explicit(ps, v)
    ensures Default in LabelsOf(ps, defaulted) <==> HasWild(ps) && !defaulted
    decreases |ps|
  {
    if ps != [] {
      var front, last := ps[..|ps| - 1], ps[|ps| - 1];
      LabelsAre(front, defaulted, v);
      ExplicitSnoc(front, last, v);
      assert ps == front + [last];
      hide Labelled, Explicit;
      LabelAdded(LabelsOf(front, defaulted), LabelsOf(ps, defaulted), v);
    }
  }

  lemma ExplicitSnoc(front: seq<Pattern>, last: Pattern, v: int)
    ensures Explicit(front + [last], v) <==> Explicit(front, v) || (last != Wild && CaseTakes(LabelFor(last), v))
    ensures HasWild(front + [last]) <==> HasWild(front) || last == Wild
  {
    var ps := front + [last];
    if Explicit(front, v) {
      var i :| 0 <= i < |front| && front[i] != Wild && CaseTakes(LabelFor(front[i]), v);
      assert ps[i] == front[i];
    }
    if last != Wild && CaseTakes(LabelFor(last), v) {
      assert ps[|front|] == last;
    }
  }

  lemma LabelAdded(was: seq<Label>, now: seq<Label>, v: int)
    requires now == was || (|now| == |was| + 1 && now[..|was|] == was)
    ensures Labelled(Block(now, false, false), v)
       <==> Labelled(Block(was, false, false), v) || (now != was && now[|was|].CaseOf? && CaseTakes(now[|was|], v))
    ensures Default in now <==> Default in was || (now != was && now[|was|] == Default)
  {
    if now != was {
      assert now == was + [now[|was|]];
      if Labelled(Block(was, false, false), v) {
        var k :| 0 <= k < |was| && was[k].CaseOf? && CaseTakes(was[k], v);
        assert now[k] == was[k];
      }
    }
  }

  lemma BlockLabelled(arms: seq<Arm>, valued: bool, i: nat, v: int)
    requires i < |arms|
    ensures Labelled(BlockOf(arms, valued, i), v) <==> Explicit(arms[i].patterns, v)
    ensures Default in BlockOf(arms, valued, i).labels <==> HasWild(arms[i].patterns) && !WildBefore(arms, i)
  {
    LabelsAre(arms[i].patterns, WildBefore(arms, i), v);
  }

  lemma {:induction false} CaseIs(arms: seq<Arm>, valued: bool, v: int, i: nat)
    requires i <= |arms|
    ensures CaseFrom(SwitchCode(arms, valued), v, i) == FirstExplicit(arms, v, i)
    decreases |arms| - i
  {
    hide Labelled, Explicit, BlockOf;
    if i < |arms| {
      BlockLabelled(arms, valued, i, v);
      CaseIs(arms, valued, v, i + 1);
    }
  }

  lemma {:induction false} DefaultIs(arms: seq<Arm>, valued: bool, i: nat)
    requires i <= |arms| && !WildBefore(arms, i)
    ensures DefaultFrom(SwitchCode(arms, valued), i) == FirstWild(arms, i)
    decreases |arms| - i
  {
    hide BlockOf;
    if i < |arms| {
      BlockLabelled(arms, valued, i, 0);
      if !HasWild(arms[i].patterns) { DefaultIs(arms, valued, i + 1); }
    }
  }

  lemma EntryIs(arms: seq<Arm>, valued: bool, v: int)
    ensures Entry(SwitchCode(arms, valued), v) == Target(arms, v)
  {
    CaseIs(arms, valued, v, 0);
    DefaultIs(arms, valued, 0);
  }

  /** The interpreter and the `switch` find the value in the same patterns. */
  predicate Alike(ps: seq<Pattern>, v: int) {
    forall i :: 0 <= i < |ps| && ps[i] != Wild ==> (Takes(ps[i], v) <==> CaseTakes(LabelFor(ps[i]), v))
  }

  /** An arm that hits a value has a label for it, or a `_`. */
  lemma HitBy(ps: seq<Pattern>, v: int)
    requires Alike(ps, v)
    ensures Hits(ps, v) <==> Explicit(ps, v) || HasWild(ps)
  {
    if HasWild(ps) {
      var i :| 0 <= i < |ps| && ps[i] == Wild;
      assert Takes(ps[i], v);
    }
  }

  lemma WildHits(ps: seq<Pattern>, v: int)
    requires HasWild(ps)
    ensures Hits(ps, v)
  {
    var i :| 0 <= i < |ps| && ps[i] == Wild;
    assert Takes(ps[i], v);
  }

  lemma {:induction false} MatchSkips(w: World, arms: seq<Arm>, v: int, i: nat, trace: seq<Event>)
    requires i <= |arms|
    ensures Match(w, arms, i, v, trace) == Match(w, arms, First(arms, v, i), v, trace)
    decreases |arms| - i
  {
    if i < |arms| && !Hits(arms[i].patterns, v) { MatchSkips(w, arms, v, i + 1, trace); }
  }

  // ----- a match that gives a value -----

  /** From arm `i` on, every guard that may fail is followed by an arm that hits the value. */
  predicate Chained(arms: seq<Arm>, v: int, i: nat)
    requires i < |arms|
    decreases |arms| - i
  {
    arms[i].guarded ==> i + 1 < |arms| && Hits(arms[i + 1].patterns, v) && Chained(arms, v, i + 1)
  }

  /** The switch goes to the first arm that hits, and falls only into arms that hit. */
  predicate Straight(arms: seq<Arm>, v: int) {
    var i := First(arms, v, 0);
    i < |arms| && Target(arms, v) == i && Chained(arms, v, i)
  }

  lemma {:induction false} ChainRuns(w: World, arms: seq<Arm>, v: int, i: nat, trace: seq<Event>)
    requires i < |arms| && Hits(arms[i].patterns, v) && Chained(arms, v, i)
    ensures From(w, SwitchCode(arms, true), i, trace) == EndHere(Match(w, arms, i, v, trace))
    decreases |arms| - i
  {
    hide LabelsOf, Hits;
    if arms[i].guarded { ChainRuns(w, arms, v, i + 1, trace + [Asked(i)]); }
  }

  /** Every guard fails, every body ends normally. */
  const QUIET := World((events: seq<Event>) => false, (events: seq<Event>) => Normal)

  /** The first thing a run does is ask or run this arm. */
  predicate Begins(r: Run, trace: seq<Event>, arm: nat) {
    |trace| < |r.trace| && r.trace[..|trace|] == trace && r.trace[|trace|].arm == arm
  }

  lemma {:induction false} MatchBegins(w: World, arms: seq<Arm>, v: int, i: nat, trace: seq<Event>)
    requires i < |arms| && Hits(arms[i].patterns, v)
    ensures Begins(Match(w, arms, i, v, trace), trace, i)
    ensures Match(w, arms, i, v, trace).trace[|trace|] == if arms[i].guarded then Asked(i) else Ran(i)
    decreases |arms| - i
  {
    if arms[i].guarded { MatchExtends(w, arms, v, i + 1, trace + [Asked(i)]); }
  }

  lemma {:induction false} MatchExtends(w: World, arms: seq<Arm>, v: int, i: nat, trace: seq<Event>)
    requires i <= |arms|
    ensures var r := Match(w, arms, i, v, trace); |trace| <= |r.trace| && r.trace[..|trace|] == trace
    decreases |arms| - i
  {
    if i < |arms| {
      if !Hits(arms[i].patterns, v) {
        MatchExtends(w, arms, v, i + 1, trace);
      } else if arms[i].guarded {
        MatchExtends(w, arms, v, i + 1, trace + [Asked(i)]);
        assert (trace + [Asked(i)])[..|trace|] == trace;
      }
    }
  }

  lemma {:induction false} FromExtends(w: World, code: seq<Block>, i: nat, trace: seq<Event>)
    ensures var r := From(w, code, i, trace); |trace| <= |r.trace| && r.trace[..|trace|] == trace
    decreases |code| - i
  {
    if i < |code| {
      var after := trace + [if code[i].asks then Asked(i) else Ran(i)];
      FromExtends(w, code, i + 1, after);
      assert after[..|trace|] == trace;
    }
  }

  lemma {:induction false} FromBegins(w: World, code: seq<Block>, i: nat, trace: seq<Event>)
    requires i < |code|
    ensures Begins(From(w, code, i, trace), trace, i)
    ensures From(w, code, i, trace).trace[|trace|] == if code[i].asks then Asked(i) else Ran(i)
  {
    var after := trace + [if code[i].asks then Asked(i) else Ran(i)];
    FromExtends(w, code, i + 1, after);
  }

  /** Where a guard fails and the next arm does not hit, the switch runs it all the same. */
  lemma {:induction false} BrokenChain(arms: seq<Arm>, v: int, i: nat, trace: seq<Event>)
    requires i < |arms| && Hits(arms[i].patterns, v) && !Chained(arms, v, i)
    ensures From(QUIET, SwitchCode(arms, true), i, trace) != EndHere(Match(QUIET, arms, i, v, trace))
    decreases |arms| - i
  {
    hide LabelsOf, Hits;
    var after := trace + [Asked(i)];
    if i + 1 < |arms| {
      if Hits(arms[i + 1].patterns, v) {
        BrokenChain(arms, v, i + 1, after);
      } else {
        FromBegins(QUIET, SwitchCode(arms, true), i + 1, after);
        var k := First(arms, v, i + 1);
        MatchSkips(QUIET, arms, v, i + 1, after);
        if k < |arms| { MatchBegins(QUIET, arms, v, k, after); }
      }
    }
  }

  /** A `match` that gives a value, written as a `switch`: it does what the interpreter does, for
      every answer of the world, exactly when it goes straight.  (An unnamed `break` in an arm
      ends the `switch` only; see BreakEndsTheSwitch.) */
  lemma ValueSwitchIff(arms: seq<Arm>, v: int)
    ensures (forall w: World, trace: seq<Event> ::
               Switch(w, SwitchCode(arms, true), v, trace) == EndHere(Match(w, arms, 0, v, trace)))
       <==> Straight(arms, v)
  {
    hide From, Match, LabelsOf, Hits, SwitchCode;
    EntryIs(arms, true, v);
    var i, code := First(arms, v, 0), SwitchCode(arms, true);
    if Straight(arms, v) {
      forall w: World, trace: seq<Event> ensures Switch(w, code, v, trace) == EndHere(Match(w, arms, 0, v, trace)) {
        MatchSkips(w, arms, v, 0, trace);
        ChainRuns(w, arms, v, i, trace);
      }
    } else {
      Crooked(arms, v);
    }
  }

  lemma Crooked(arms: seq<Arm>, v: int)
    requires !Straight(arms, v)
    ensures Switch(QUIET, SwitchCode(arms, true), v, []) != EndHere(Match(QUIET, arms, 0, v, []))
  {
    hide Match, LabelsOf, Hits;
    EntryIs(arms, true, v);
    MatchSkips(QUIET, arms, v, 0, []);
    var i, t := First(arms, v, 0), Target(arms, v);
    if t < |arms| { FromBegins(QUIET, SwitchCode(arms, true), t, []); }
    if i == |arms| {
      NothingHits(QUIET, arms, v, []);
    } else if t == i {
      BrokenChain(arms, v, i, []);
    } else {
      MatchBegins(QUIET, arms, v, i, []);
    }
  }

  lemma NothingHits(w: World, arms: seq<Arm>, v: int, trace: seq<Event>)
    ensures Match(w, arms, |arms|, v, trace) == Run(NoArm, trace)
  {
  }

  // ----- a match that is a statement -----

  /** As a statement the guards are not written at all: it takes an unguarded arm, reached
      straight. */
  lemma StatementSwitchIff(arms: seq<Arm>, v: int)
    ensures (forall w: World, trace: seq<Event> ::
               Switch(w, SwitchCode(arms, false), v, trace) == EndHere(Match(w, arms, 0, v, trace)))
       <==> var i := First(arms, v, 0); i < |arms| && Target(arms, v) == i && !arms[i].guarded
  {
    hide LabelsOf, Hits;
    EntryIs(arms, false, v);
    var i, t, code := First(arms, v, 0), Target(arms, v), SwitchCode(arms, false);
    forall w: World, trace: seq<Event> ensures Match(w, arms, 0, v, trace) == Match(w, arms, i, v, trace) {
      MatchSkips(w, arms, v, 0, trace);
    }
    var r, m := Switch(QUIET, code, v, []), EndHere(Match(QUIET, arms, 0, v, []));
    if t < |arms| { FromBegins(QUIET, code, t, []); }
    if i == |arms| {
      NothingHits(QUIET, arms, v, []);
      assert r != m;
    } else if t != i || arms[i].guarded {
      MatchBegins(QUIET, arms, v, i, []);
      assert r != m;
    }
  }

  /** Whenever an arm reached straight leaves by an unnamed `break`, which is for the loop around
      the `match`, the emitted code ends the `switch` and stays in the loop. */
  lemma BreakEndsTheSwitch(w: World, arms: seq<Arm>, v: int, trace: seq<Event>)
    requires Straight(arms, v) && Match(w, arms, 0, v, trace).out == Breaking
    ensures Switch(w, SwitchCode(arms, true), v, trace) == Run(Normal, Match(w, arms, 0, v, trace).trace)
  {
    hide From, Match, LabelsOf, Hits, SwitchCode;
    EntryIs(arms, true, v);
    MatchSkips(w, arms, v, 0, trace);
    ChainRuns(w, arms, v, First(arms, v, 0), trace);
  }

  // ----- chains of ifs -----

  /** Some unguarded arm hits the value. */
  predicate Covered(arms: seq<Arm>, v: int) {
    exists i :: 0 <= i < |arms| && !arms[i].guarded && Hits(arms[i].patterns, v)
  }

  lemma {:induction false} TextRuns(w: World, arms: seq<Arm>, v: int, i: nat, trace: seq<Event>)
    requires i <= |arms| && exists k :: i <= k < |arms| && !arms[k].guarded && Hits(arms[k].patterns, v)
    ensures TextChain(w, arms, i, v, trace) == Match(w, arms, i, v, trace)
    decreases |arms| - i
  {
    hide Hits;
    if !Hits(arms[i].patterns, v) {
      TextRuns(w, arms, v, i + 1, trace);
    } else if arms[i].guarded {
      TextRuns(w, arms, v, i + 1, trace + [Asked(i)]);
    }
  }

  lemma {:induction false} TextRunsOut(arms: seq<Arm>, v: int, i: nat, trace: seq<Event>)
    requires i <= |arms| && forall k :: i <= k < |arms| ==> arms[k].guarded || !Hits(arms[k].patterns, v)
    ensures TextChain(QUIET, arms, i, v, trace).out == Normal && Match(QUIET, arms, i, v, trace).out == NoArm
    decreases |arms| - i
  {
    hide Hits;
    if i < |arms| {
      TextRunsOut(arms, v, i + 1, if Hits(arms[i].patterns, v) then trace + [Asked(i)] else trace);
    }
  }

  /** Text: right exactly when an unguarded arm hits; the checker does not ask for one, and
      without it the interpreter traps and the emitted code goes on. */
  lemma TextIff(arms: seq<Arm>, v: int)
    ensures (forall w: World, trace: seq<Event> :: TextChain(w, arms, 0, v, trace) == Match(w, arms, 0, v, trace))
       <==> Covered(arms, v)
  {
    hide Hits, TextChain, Match;
    if Covered(arms, v) {
      forall w: World, trace: seq<Event> ensures TextChain(w, arms, 0, v, trace) == Match(w, arms, 0, v, trace) {
        TextRuns(w, arms, v, 0, trace);
      }
    } else {
      TextRunsOut(arms, v, 0, []);
    }
  }

  function FirstLast(arms: seq<Arm>, v: int, i: nat): (k: nat)
    requires i <= |arms|
    ensures i <= k <= |arms| && (k < |arms| ==> LastHits(arms[k].patterns, v))
    ensures forall j :: i <= j < k ==> !LastHits(arms[j].patterns, v)
    decreases |arms| - i
  {
    if i == |arms| || LastHits(arms[i].patterns, v) then i else FirstLast(arms, v, i + 1)
  }

  lemma {:induction false} OptionalSkips(w: World, arms: seq<Arm>, valued: bool, v: int, i: nat, trace: seq<Event>)
    requires i <= |arms|
    ensures OptionalChain(w, arms, valued, i, v, trace) == OptionalChain(w, arms, valued, FirstLast(arms, v, i), v, trace)
    decreases |arms| - i
  {
    if i < |arms| && !LastHits(arms[i].patterns, v) { OptionalSkips(w, arms, valued, v, i + 1, trace); }
  }

  /** Optionals: right exactly when the first arm that hits is unguarded, and is also the first
      whose last pattern hits. */
  lemma OptionalIff(arms: seq<Arm>, valued: bool, v: int)
    ensures (forall w: World, trace: seq<Event> ::
               OptionalChain(w, arms, valued, 0, v, trace) == Match(w, arms, 0, v, trace))
       <==> var i := First(arms, v, 0); i < |arms| && FirstLast(arms, v, 0) == i && !arms[i].guarded
  {
    hide Hits, LastHits;
    var i, k := First(arms, v, 0), FirstLast(arms, v, 0);
    forall w: World, trace: seq<Event>
      ensures Match(w, arms, 0, v, trace) == Match(w, arms, i, v, trace)
      ensures OptionalChain(w, arms, valued, 0, v, trace) == OptionalChain(w, arms, valued, k, v, trace)
    {
      MatchSkips(w, arms, v, 0, trace);
      OptionalSkips(w, arms, valued, v, 0, trace);
    }
    if i == |arms| {
      NothingHits(QUIET, arms, v, []);
      if k < |arms| { LastIsHit(arms[k].patterns, v); }
      assert OptionalChain(QUIET, arms, valued, 0, v, []) != Match(QUIET, arms, 0, v, []);
    } else if k != i || arms[i].guarded {
      OptionalDiffers(arms, valued, v, i, k);
      assert OptionalChain(QUIET, arms, valued, 0, v, []) != Match(QUIET, arms, 0, v, []);
    }
  }

  lemma LastIsHit(ps: seq<Pattern>, v: int)
    requires LastHits(ps, v)
    ensures Hits(ps, v)
  {
  }

  lemma OptionalDiffers(arms: seq<Arm>, valued: bool, v: int, i: nat, k: nat)
    requires i < |arms| && k <= |arms| && Hits(arms[i].patterns, v) && !(k == i && !arms[i].guarded)
    requires k < |arms| ==> LastHits(arms[k].patterns, v)
    ensures OptionalChain(QUIET, arms, valued, k, v, []) != Match(QUIET, arms, i, v, [])
  {
    hide Hits, LastHits;
    MatchBegins(QUIET, arms, v, i, []);
    if k == i && valued { GuardFailsDiffers(arms, v, i); }
  }

  /** A guard that fails: the interpreter tries another arm or traps, the chain is done. */
  lemma GuardFailsDiffers(arms: seq<Arm>, v: int, i: nat)
    requires i < |arms| && arms[i].guarded && Hits(arms[i].patterns, v)
    ensures Match(QUIET, arms, i, v, []) != Run(Normal, [Asked(i)])
  {
    hide Hits;
    var after := [] + [Asked(i)];
    var k := First(arms, v, i + 1);
    MatchSkips(QUIET, arms, v, i + 1, after);
    if k < |arms| { MatchBegins(QUIET, arms, v, k, after); }
  }

  // ----- labels -----

  /** How many case labels of a block take the value. */
  function Taking(ls: seq<Label>, v: int): nat
    decreases |ls|
  {
    if ls == [] then 0
    else Taking(ls[..|ls| - 1], v) + (if ls[|ls| - 1].CaseOf? && CaseTakes(ls[|ls| - 1], v) then 1 else 0)
  }

  function TakingIn(code: seq<Block>, v: int): nat
    decreases |code|
  {
    if code == [] then 0 else TakingIn(code[..|code| - 1], v) + Taking(code[|code| - 1].labels, v)
  }

  /** How many patterns other than `_` take the value. */
  function Written(ps: seq<Pattern>, v: int): nat
    decreases |ps|
  {
    if ps == [] then 0
    else Written(ps[..|ps| - 1], v) + (if ps[|ps| - 1] != Wild && Means(ps[|ps| - 1], v) then 1 else 0)
  }

  function WrittenIn(arms: seq<Arm>, v: int): nat
    decreases |arms|
  {
    if arms == [] then 0 else WrittenIn(arms[..|arms| - 1], v) + Written(arms[|arms| - 1].patterns, v)
  }

  /** No value of the type is a case twice: what C asks of a `switch` (section 6.8.4.2 of ISO C11). */
  ghost predicate LegalCases(ty: ConstFold.IntType, code: seq<Block>) {
    forall v: int :: ConstFold.InRange(ty, v) ==> TakingIn(code, v) <= 1
  }

  /** Every pattern is of the type, and its case takes what it means. */
  ghost predicate AsMeant(ty: ConstFold.IntType, ps: seq<Pattern>) {
    forall i :: 0 <= i < |ps| && ps[i] != Wild ==> OfType(ty, ps[i]) && CaseAsMeant(ps[i])
  }

  lemma {:induction false} TakingIs(ty: ConstFold.IntType, ps: seq<Pattern>, defaulted: bool, v: int)
    requires AsMeant(ty, ps) && ConstFold.InRange(ty, v)
    ensures Taking(LabelsOf(ps, defaulted), v) == Written(ps, v)
    decreases |ps|
  {
    if ps != [] {
      var front, last := LabelsOf(ps[..|ps| - 1], defaulted), ps[|ps| - 1];
      TakingIs(ty, ps[..|ps| - 1], defaulted, v);
      if last != Wild { assert CaseAsMeant(last) && OfType(ty, last); CaseIs64(ty, last, v); }
      if LabelsOf(ps, defaulted) != front {
        assert LabelsOf(ps, defaulted)[..|front|] == front;
      }
    }
  }

  lemma {:induction false} TakingInIs(ty: ConstFold.IntType, arms: seq<Arm>, valued: bool, v: int)
    requires (forall i :: 0 <= i < |arms| ==> AsMeant(ty, arms[i].patterns)) && ConstFold.InRange(ty, v)
    ensures TakingIn(SwitchCode(arms, valued), v) == WrittenIn(arms, v)
    decreases |arms|
  {
    if arms != [] {
      hide AsMeant;
      var front, code := arms[..|arms| - 1], SwitchCode(arms, valued);
      TakingInIs(ty, front, valued, v);
      FrontBlocks(arms, valued);
      TakingIs(ty, arms[|arms| - 1].patterns, WildBefore(arms, |arms| - 1), v);
    }
  }

  lemma FrontBlocks(arms: seq<Arm>, valued: bool)
    requires arms != []
    ensures SwitchCode(arms, valued)[..|arms| - 1] == SwitchCode(arms[..|arms| - 1], valued)
  {
    hide LabelsOf;
    var front := arms[..|arms| - 1];
    forall i | 0 <= i < |front| ensures BlockOf(arms, valued, i) == BlockOf(front, valued, i) {
      assert WildBefore(arms, i) == WildBefore(front, i);
    }
  }

  ghost predicate OnePatternEach(ty: ConstFold.IntType, arms: seq<Arm>) {
    forall v: int :: ConstFold.InRange(ty, v) ==> WrittenIn(arms, v) <= 1
  }

  /** The cases are legal C exactly when no value has two patterns; a guard does not change
      that, and the checker lets a guarded pattern come back unguarded. */
  lemma LegalCasesIff(ty: ConstFold.IntType, arms: seq<Arm>, valued: bool)
    requires forall i :: 0 <= i < |arms| ==> AsMeant(ty, arms[i].patterns)
    ensures LegalCases(ty, SwitchCode(arms, valued)) <==> OnePatternEach(ty, arms)
  {
    hide AsMeant;
    var code := SwitchCode(arms, valued);
    if OnePatternEach(ty, arms) {
      forall v: int | ConstFold.InRange(ty, v) ensures TakingIn(code, v) <= 1 { TakingInIs(ty, arms, valued, v); }
    }
    if LegalCases(ty, code) {
      forall v: int | ConstFold.InRange(ty, v) ensures WrittenIn(arms, v) <= 1 { TakingInIs(ty, arms, valued, v); }
    }
  }

  // ----- accepted matches -----

  lemma NamedHits(ps: seq<Pattern>, v: int)
    requires Names(ps, v)
    ensures Hits(ps, v) && Explicit(ps, v)
  {
    var a :| 0 <= a < |ps| && ps[a].One? && ps[a].n == v;
    assert Takes(ps[a], v) && ps[a] != Wild && CaseTakes(LabelFor(ps[a]), v);
  }

  /** Enough arms cover every value, but for texts, and for `true` and `false` under guards. */
  lemma AcceptedCovers(kind: Kind, arms: seq<Arm>, v: int)
    requires Accepted(kind, arms) && Of(kind, v) && !kind.Texts?
    requires kind.Booleans? ==> forall i :: 0 <= i < |arms| ==> !arms[i].guarded
    ensures Covered(arms, v)
  {
    if i :| 0 <= i < |arms| && Settles(arms[i]) {
      WildHits(arms[i].patterns, v);
    } else {
      if kind.Booleans? { assert Mentioned(arms, v); } else { assert Settled(arms, v); }
      var i :| 0 <= i < |arms| && !arms[i].guarded && Names(arms[i].patterns, v);
      NamedHits(arms[i].patterns, v);
    }
  }

  predicate NoRange(ps: seq<Pattern>) { forall a :: 0 <= a < |ps| ==> !ps[a].Range? }

  /** The checker asks for no more than that: arms that cover every value of a `bool`, an enum or
      an optional are enough. */
  lemma CoveringIsEnough(kind: Kind, arms: seq<Arm>)
    requires kind.Booleans? || kind.Tags? || kind.Optionals?
    requires forall i :: 0 <= i < |arms| ==> NoRange(arms[i].patterns)
    requires forall v :: Of(kind, v) ==> Covered(arms, v)
    ensures Enough(kind, arms)
  {
    if !exists i :: 0 <= i < |arms| && Settles(arms[i]) {
      forall v | Of(kind, v) ensures Settled(arms, v) && Mentioned(arms, v) {
        var i :| 0 <= i < |arms| && !arms[i].guarded && Hits(arms[i].patterns, v);
        var ps := arms[i].patterns;
        var a :| 0 <= a < |ps| && Takes(ps[a], v);
        assert !Settles(arms[i]);
        assert ps[a] != Wild && !ps[a].Range?;
        assert Names(ps, v);
      }
    }
  }

  /** An accepted `match` without guards, in whose ranges interpreter and `switch` find the same
      values, goes straight for every value of its type, so as a value and as a statement it is
      right, but for unnamed `break`s. */
  lemma PlainMatch(kind: Kind, arms: seq<Arm>, v: int)
    requires Accepted(kind, arms) && Of(kind, v) && !kind.Texts? && (forall i :: 0 <= i < |arms| ==> !arms[i].guarded)
    requires forall i :: 0 <= i < |arms| ==> Alike(arms[i].patterns, v)
    ensures Straight(arms, v)
  {
    hide Apart, Differ;
    var i := First(arms, v, 0);
    AcceptedCovers(kind, arms, v);
    HitBy(arms[i].patterns, v);
    if i < |arms| - 1 { assert !Settles(arms[i]); }
    forall j | 0 <= j < i ensures !Explicit(arms[j].patterns, v) && !HasWild(arms[j].patterns) { HitBy(arms[j].patterns, v); }
  }

  // ----- inputs -----

  /** `1 if g => ...`, `2 => ...`, `_ => ...`. */
  function FallsIntoTwo(): seq<Arm> { [Arm([One(1, "1")], true), Arm([One(2, "2")], false), Arm([Wild], false)] }

  lemma FallsIntoTwoAccepted()
    ensures Accepted(Integers, FallsIntoTwo())
  {
    assert Settles(FallsIntoTwo()[2]);
  }

  /** On 1 where `g` fails: the arm for 2 is taken. */
  lemma FallsIntoTwoRuns()
    ensures Accepted(Integers, FallsIntoTwo())
    ensures Match(QUIET, FallsIntoTwo(), 0, 1, []).trace == [Asked(0), Ran(2)]
    ensures Switch(QUIET, SwitchCode(FallsIntoTwo(), true), 1, []).trace == [Asked(0), Ran(1)]
  {
    FallsIntoTwoAccepted();
    hide Accepted;
    var arms := FallsIntoTwo();
    FallsIntoTwoHits();
    PassedOver(arms, 1, []);
    FallsOn(arms, true, 1, []);
  }

  /** As a statement: the arm for 1 runs unasked, and the arm for 2 after it. */
  lemma GuardNotAsked()
    ensures Accepted(Integers, FallsIntoTwo())
    ensures Match(QUIET, FallsIntoTwo(), 0, 1, []).trace == [Asked(0), Ran(2)]
    ensures Switch(QUIET, SwitchCode(FallsIntoTwo(), false), 1, []).trace == [Ran(0), Ran(1)]
  {
    FallsIntoTwoAccepted();
    hide Accepted;
    var arms := FallsIntoTwo();
    FallsIntoTwoHits();
    PassedOver(arms, 1, []);
    FallsOn(arms, false, 1, []);
  }

  lemma FallsIntoTwoHits()
    ensures
      var arms := FallsIntoTwo();
      Explicit(arms[0].patterns, 1) && Hits(arms[0].patterns, 1) && !Hits(arms[1].patterns, 1) && Hits(arms[2].patterns, 1)
  {
    var arms := FallsIntoTwo();
    assert Takes(arms[0].patterns[0], 1) && arms[0].patterns[0] != Wild && CaseTakes(LabelFor(arms[0].patterns[0]), 1) && Takes(arms[2].patterns[0], 1);
  }

  /** A guard fails, and the next arm does not hit: the one after it, or none. */
  lemma PassedOver(arms: seq<Arm>, v: int, trace: seq<Event>)
    requires 2 <= |arms| <= 3 && arms[0].guarded && !arms[1].guarded && Explicit(arms[0].patterns, v) && !Hits(arms[1].patterns, v)
    requires |arms| == 3 ==> !arms[2].guarded && Hits(arms[2].patterns, v)
    requires Hits(arms[0].patterns, v)
    ensures Match(QUIET, arms, 0, v, trace)
         == if |arms| == 3 then Run(Normal, trace + [Asked(0)] + [Ran(2)]) else Run(NoArm, trace + [Asked(0)])
  {
    var after := trace + [Asked(0)];
    assert Match(QUIET, arms, 1, v, after) == Match(QUIET, arms, 2, v, after);
  }

  /** The switch falls into the next arm, having asked or, as a statement, having run the first. */
  lemma FallsOn(arms: seq<Arm>, valued: bool, v: int, trace: seq<Event>)
    requires |arms| >= 2 && arms[0].guarded && !arms[1].guarded && Explicit(arms[0].patterns, v)
    ensures Switch(QUIET, SwitchCode(arms, valued), v, trace)
         == Run(Normal, trace + [if valued then Asked(0) else Ran(0)] + [Ran(1)])
  {
    hide LabelsOf;
    EntryIs(arms, valued, v);
    assert Target(arms, v) == 0;
    var code, after := SwitchCode(arms, valued), trace + [if valued then Asked(0) else Ran(0)];
    assert From(QUIET, code, 1, after) == Run(Normal, after + [Ran(1)]);
  }

  /** `true if g => ...`, `false => ...`: accepted, where `g` fails nothing is left for `true`, and
      the emitted code takes the arm for `false`. */
  lemma GuardedTrueUncovered()
    ensures
      var arms := [Arm([One(1, "true")], true), Arm([One(0, "false")], false)];
      && Accepted(Booleans, arms) && !Covered(arms, 1)
      && Match(QUIET, arms, 0, 1, []) == Run(NoArm, [Asked(0)])
      && Switch(QUIET, SwitchCode(arms, true), 1, []) == Run(Normal, [Asked(0), Ran(1)])
  {
    var a, b := Arm([One(1, "true")], true), Arm([One(0, "false")], false);
    assert Names(a.patterns, 1) by { assert a.patterns[0].One?; }
    assert Names(b.patterns, 0) by { assert b.patterns[0].One?; }
    assert Mentioned([a, b], 1) by { assert [a, b][0] == a; }
    assert Mentioned([a, b], 0) by { assert [a, b][1] == b; }
    NamedHits(a.patterns, 1);
    assert !Hits(b.patterns, 1);
    PassedOver([a, b], 1, []);
    FallsOn([a, b], true, 1, []);
  }

  /** A `match` on text with one arm, on a text it does not take: accepted, a trap in the
      interpreter, and nothing in C. */
  lemma TextRunsPast(text: string)
    ensures
      var arms := [Arm([One(1, text)], false)];
      && Accepted(Texts, arms) && !Covered(arms, 2)
      && Match(QUIET, arms, 0, 2, []) == Run(NoArm, []) && TextChain(QUIET, arms, 0, 2, []) == Run(Normal, [])
  {
    var arms := [Arm([One(1, text)], false)];
    assert !Hits(arms[0].patterns, 2);
    assert Match(QUIET, arms, 1, 2, []) == Run(NoArm, []);
    assert TextChain(QUIET, arms, 1, 2, []) == Run(Normal, []);
  }

  /** `some(x) if g`, `some(x)`, `none`: accepted, and where `g` fails the second arm is not tried;
      in a statement `g` is not asked. */
  function SomeTwice(): seq<Arm> { [Arm([One(1, "some")], true), Arm([One(1, "some")], false), Arm([One(0, "none")], false)] }

  lemma SomeTwiceRuns()
    ensures Accepted(Optionals, SomeTwice())
    ensures Match(QUIET, SomeTwice(), 0, 1, []) == Run(Normal, [Asked(0), Ran(1)])
    ensures OptionalChain(QUIET, SomeTwice(), true, 0, 1, []) == Run(Normal, [Asked(0)])
    ensures OptionalChain(QUIET, SomeTwice(), false, 0, 1, []) == Run(Normal, [Ran(0)])
  {
    var arms := SomeTwice();
    assert Names(arms[1].patterns, 1) by { assert arms[1].patterns[0].One?; }
    assert Names(arms[2].patterns, 0) by { assert arms[2].patterns[0].One?; }
    assert Settled(arms, 1) && Settled(arms, 0);
    assert Takes(arms[0].patterns[0], 1) && Takes(arms[1].patterns[0], 1);
    assert Hits(arms[0].patterns, 1) && Hits(arms[1].patterns, 1);
    var asked := [Asked(0)];
    assert [] + asked == asked;
    assert Match(QUIET, arms, 1, 1, asked) == Run(Normal, [Asked(0), Ran(1)]);
  }

  const I32 := ConstFold.IntType(true, ConstFold.W32)

  /** `-1..<2 => ...`, `_ => ...` on 0: accepted; the interpreter takes the second arm, the emitted
      code the first. */
  lemma RangeAcrossZero(w: World)
    ensures
      var arms := [Arm([Range(I32, -1, 2, false)], false), Arm([Wild], false)];
      && Accepted(Integers, arms) && Means(arms[0].patterns[0], 0)
      && Match(w, arms, 0, 0, []).trace == [Ran(1)]
      && Switch(w, SwitchCode(arms, true), 0, []).trace == [Ran(0)]
  {
    var p := Range(I32, -1, 2, false);
    var arms := [Arm([p], false), Arm([Wild], false)];
    assert Settles(arms[1]);
    TakesIs(I32, p, 0);
    CaseIs64(I32, p, 0);
    RangeThenRest(w, p, 0);
  }

  lemma RangeThenRest(w: World, p: Pattern, v: int)
    requires p.Range? && !Takes(p, v) && CaseTakes(LabelFor(p), v)
    ensures
      var arms := [Arm([p], false), Arm([Wild], false)];
      && Match(w, arms, 0, v, []).trace == [Ran(1)] && Switch(w, SwitchCode(arms, true), v, []).trace == [Ran(0)]
  {
    hide Takes, CaseTakes, LabelFor, LabelsOf;
    var arms := [Arm([p], false), Arm([Wild], false)];
    assert !Hits(arms[0].patterns, v);
    WildHits(arms[1].patterns, v) by { assert arms[1].patterns[0] == Wild; }
    assert Match(w, arms, 1, v, []).trace == [Ran(1)];
    EntryIs(arms, true, v);
    assert Explicit(arms[0].patterns, v) by { assert arms[0].patterns[0] == p; }
    assert SwitchCode(arms, true)[0].breaks;
  }

  /** `1 if g: ...`, `1: ...`, `_: ...`, and the same value spelled twice: accepted, and 1 is a case
      twice. */
  lemma CaseTwice(ty: ConstFold.IntType, guarded: bool, other: string, valued: bool)
    requires guarded || other != "1"
    ensures
      var arms := [Arm([One(1, "1")], guarded), Arm([One(1, other)], false), Arm([Wild], false)];
      Accepted(Integers, arms) && !LegalCases(ty, SwitchCode(arms, valued))
  {
    var a, b, c := Arm([One(1, "1")], guarded), Arm([One(1, other)], false), Arm([Wild], false);
    TwiceAccepted(a, b, c);
    hide Accepted, LegalCases, SwitchCode;
    forall i | 0 <= i < 3 ensures AsMeant(ty, [a, b, c][i].patterns) { }
    LegalCasesIff(ty, [a, b, c], valued);
    WrittenTwice(a, b, c, 1);
  }

  lemma TwiceAccepted(a: Arm, b: Arm, c: Arm)
    requires |a.patterns| == |b.patterns| == 1 && a.patterns[0].One? && b.patterns[0].One? && !b.guarded && c == Arm([Wild], false)
    requires a.guarded || a.patterns[0].text != b.patterns[0].text
    ensures Accepted(Integers, [a, b, c])
  {
    var arms := [a, b, c];
    assert !HasWild(a.patterns) && !HasWild(b.patterns) && Settles(c) && arms[2] == c;
    assert Apart(a.patterns, c.patterns) && Apart(b.patterns, c.patterns) && (a.guarded || Apart(a.patterns, b.patterns));
  }

  lemma WrittenTwice(a: Arm, b: Arm, c: Arm, n: int)
    requires |a.patterns| == |b.patterns| == 1 && a.patterns[0].One? && b.patterns[0].One?
    requires a.patterns[0].n == n && b.patterns[0].n == n
    ensures WrittenIn([a, b, c], n) >= 2
  {
    hide Written;
    assert [a, b, c][..2] == [a, b] && [a, b][..1] == [a] && [a][..0] == [];
    WrittenOne(a.patterns, n);
    WrittenOne(b.patterns, n);
    assert WrittenIn([a], n) == 1;
    assert WrittenIn([a, b], n) == 2;
  }

  lemma WrittenOne(ps: seq<Pattern>, n: int)
    requires |ps| == 1 && ps[0].One? && ps[0].n == n
    ensures Written(ps, n) == 1
  {
    assert ps[..0] == [];
  }

  // ----- in a loop -----

  datatype Turns = Turns(ended: bool, trace: seq<Event>)

  /** `while true: match v: ...`, for so many turns: the source, and the emitted code. */
  function LoopSource(w: World, arms: seq<Arm>, v: int, turns: nat, trace: seq<Event>): Turns
    decreases turns
  {
    if turns == 0 then Turns(false, trace)
    else
      var r := Match(w, arms, 0, v, trace);
      if r.out == Normal then LoopSource(w, arms, v, turns - 1, r.trace) else Turns(true, r.trace)
  }

  function LoopCode(w: World, arms: seq<Arm>, v: int, turns: nat, trace: seq<Event>): Turns
    decreases turns
  {
    if turns == 0 then Turns(false, trace)
    else
      var r := Switch(w, SwitchCode(arms, false), v, trace);
      if r.out == Normal then LoopCode(w, arms, v, turns - 1, r.trace) else Turns(true, r.trace)
  }

  /** Every body breaks. */
  const EAGER := World((events: seq<Event>) => false, (events: seq<Event>) => Breaking)

  lemma OnlyWild(v: int, trace: seq<Event>)
    ensures
      var arms := [Arm([Wild], false)];
      && Match(EAGER, arms, 0, v, trace) == Run(Breaking, trace + [Ran(0)])
      && Switch(EAGER, SwitchCode(arms, false), v, trace) == Run(Normal, trace + [Ran(0)])
  {
    var arms := [Arm([Wild], false)];
    assert Takes(arms[0].patterns[0], v) && Hits(arms[0].patterns, v);
    EntryIs(arms, false, v);
    assert HasWild(arms[0].patterns) && !Explicit(arms[0].patterns, v);
    assert Target(arms, v) == 0;
    OneBlock(arms, trace);
  }

  lemma OneBlock(arms: seq<Arm>, trace: seq<Event>)
    requires |arms| == 1 && !arms[0].guarded
    ensures From(EAGER, SwitchCode(arms, false), 0, trace) == Run(Normal, trace + [Ran(0)])
  {
    hide LabelsOf;
    assert SwitchCode(arms, false)[0].breaks;
  }

  /** `while true: match v: _: break`: over after one turn, and in C never. */
  lemma {:induction false} BreakInMatchNeverEnds(v: int, turns: nat, trace: seq<Event>)
    ensures turns > 0 ==> LoopSource(EAGER, [Arm([Wild], false)], v, turns, trace) == Turns(true, trace + [Ran(0)])
    ensures
      var r := LoopCode(EAGER, [Arm([Wild], false)], v, turns, trace);
      !r.ended && |r.trace| == |trace| + turns
    decreases turns
  {
    hide Match, Switch, SwitchCode;
    OnlyWild(v, trace);
    if turns > 0 { BreakInMatchNeverEnds(v, turns - 1, trace + [Ran(0)]); }
  }
}
