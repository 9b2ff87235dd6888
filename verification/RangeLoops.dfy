/** `for i in a..<b` and `for i in a..=b` (src/emit/stmt.cpp, src/interp/exec.cpp).  The
    interpreter evaluates the last bound once; the C `for` has the expression in its condition
    and evaluates it again on every turn.  What a bound and a body do to the state is arbitrary,
    so a state is any type at all. */
module RangeLoops {

  /** Evaluating the bound, and running the body with the counter: whether it leaves the loop. */
  type Bound<!S> = S -> (int, S)
  type Body<!S> = (int, S) -> (bool, S)

  /** `ended` is false when the turns ran out first. */
  datatype Result<S> = Result(ended: bool, st: S)

  // ----- the interpreter -----

  function SourceOpen<S>(body: Body<S>, i: int, last: int, s: S, turns: nat): Result<S>
    decreases turns
  {
    if i >= last then Result(true, s)
    else if turns == 0 then Result(false, s)
    else
      var r := body(i, s);
      if r.0 then Result(true, r.1) else SourceOpen(body, i + 1, last, r.1, turns - 1)
  }

  /** The last value is visited, and no value after it is computed. */
  function SourceClosed<S>(body: Body<S>, i: int, last: int, s: S, turns: nat): Result<S>
    decreases turns
  {
    if i > last then Result(true, s)
    else if turns == 0 then Result(false, s)
    else
      var r := body(i, s);
      if r.0 || i == last then Result(true, r.1) else SourceClosed(body, i + 1, last, r.1, turns - 1)
  }

  function Source<S>(closed: bool, bound: Bound<S>, body: Body<S>, first: int, s: S, turns: nat): Result<S> {
    var b := bound(s);
    if closed then SourceClosed(body, first, b.0, b.1, turns) else SourceOpen(body, first, b.0, b.1, turns)
  }

  // ----- the emitted loop -----

  /** The counter's type, in which counting on from the largest value wraps. */
  datatype Counter = Counter(min: int, max: int)

  function Next(t: Counter, i: int): int { if i == t.max then t.min else i + 1 }

  /** `for (T i = a; i < b; i++)` */
  function EmittedOpen<S>(t: Counter, bound: Bound<S>, body: Body<S>, i: int, s: S, turns: nat): Result<S>
    decreases turns
  {
    var b := bound(s);
    if i >= b.0 then Result(true, b.1)
    else if turns == 0 then Result(false, b.1)
    else
      var r := body(i, b.1);
      if r.0 then Result(true, r.1) else EmittedOpen(t, bound, body, Next(t, i), r.1, turns - 1)
  }

  /** `for (T i = a; !done && i <= b; done = i == b, i += !done)` */
  function EmittedClosed<S>(t: Counter, bound: Bound<S>, body: Body<S>, i: int, done: bool, s: S, turns: nat): Result<S>
    decreases turns
  {
    if done then Result(true, s)
    else
      var b := bound(s);
      if i > b.0 then Result(true, b.1)
      else if turns == 0 then Result(false, b.1)
      else
        var r := body(i, b.1);
        if r.0 then Result(true, r.1)
        else
          var again := bound(r.1);
          var done' := i == again.0;
          EmittedClosed(t, bound, body, if done' then i else Next(t, i), done', again.1, turns - 1)
  }

  function Emitted<S>(t: Counter, closed: bool, bound: Bound<S>, body: Body<S>, first: int, s: S, turns: nat): Result<S> {
    if closed then EmittedClosed(t, bound, body, first, false, s, turns) else EmittedOpen(t, bound, body, first, s, turns)
  }

  // ----- when they agree -----

  /** The body leaves the bound standing. */
  ghost predicate Keeps<S(!new)>(bound: Bound<S>, body: Body<S>, last: int) {
    forall i: int, s: S :: bound(s) == (last, s) ==> bound(body(i, s).1) == (last, body(i, s).1)
  }

  lemma {:induction false} OpenAgrees<S(!new)>(
    t: Counter, bound: Bound<S>, body: Body<S>, i: int, last: int, s: S, turns: nat)
    requires last <= t.max && bound(s) == (last, s) && Keeps(bound, body, last)
    ensures EmittedOpen(t, bound, body, i, s, turns) == SourceOpen(body, i, last, s, turns)
    decreases turns
  {
    if i < last && turns > 0 { OpenAgrees(t, bound, body, i + 1, last, body(i, s).1, turns - 1); }
  }

  lemma {:induction false} ClosedAgrees<S(!new)>(
    t: Counter, bound: Bound<S>, body: Body<S>, i: int, last: int, s: S, turns: nat)
    requires last <= t.max && bound(s) == (last, s) && Keeps(bound, body, last)
    ensures EmittedClosed(t, bound, body, i, false, s, turns) == SourceClosed(body, i, last, s, turns)
    decreases turns
  {
    if i < last && turns > 0 { ClosedAgrees(t, bound, body, i + 1, last, body(i, s).1, turns - 1); }
  }

  /** A loop whose bound the body leaves standing is the interpreter's, also where the bound is
      the largest value of its type. */
  lemma KeptBoundAgrees<S(!new)>(
    t: Counter, closed: bool, bound: Bound<S>, body: Body<S>, first: int, s: S, turns: nat)
    requires bound(s) == (bound(s).0, s) && bound(s).0 <= t.max && Keeps(bound, body, bound(s).0)
    ensures Emitted(t, closed, bound, body, first, s, turns) == Source(closed, bound, body, first, s, turns)
  {
    if closed {
      ClosedAgrees(t, bound, body, first, bound(s).0, s, turns);
    } else {
      OpenAgrees(t, bound, body, first, bound(s).0, s, turns);
    }
  }

  /** The bound is one number everywhere, and evaluating it changes nothing. */
  ghost predicate Constant<S(!new)>(bound: Bound<S>) {
    forall s: S, u: S :: bound(s).0 == bound(u).0 && bound(s).1 == s
  }

  /** For every body, and every start the counter can hold. */
  ghost predicate AlwaysAgrees<S(!new)>(t: Counter, closed: bool, bound: Bound<S>) {
    forall body: Body<S>, first: int, s: S, turns: nat :: t.min <= first <= t.max ==>
      Emitted(t, closed, bound, body, first, s, turns) == Source(closed, bound, body, first, s, turns)
  }

  /** No turn is ever taken: the bound is evaluated once either way. */
  ghost predicate NoTurn<S(!new)>(t: Counter, bound: Bound<S>) { forall s: S :: bound(s).0 == t.min }

  /** One turn at most: the bound evaluated again says that the loop is over, whatever it is. */
  ghost predicate OneTurnAtMost<S(!new)>(t: Counter, bound: Bound<S>) {
    forall s: S :: bound(s).0 <= t.min + 1 && bound(s).1 == s
  }

  /** For a bound, whatever the body does: the two agree exactly when the bound is constant, or the
      range is open and too short for a second turn. */
  lemma AgreesIffConstant<S(!new)>(t: Counter, closed: bool, bound: Bound<S>)
    requires forall s: S :: t.min <= bound(s).0 <= t.max
    ensures AlwaysAgrees(t, closed, bound)
       <==> Constant(bound) || (!closed && (NoTurn(t, bound) || OneTurnAtMost(t, bound)))
  {
    if Constant(bound) || (!closed && (NoTurn(t, bound) || OneTurnAtMost(t, bound))) {
      forall body: Body<S>, first: int, s: S, turns: nat | t.min <= first <= t.max
        ensures Emitted(t, closed, bound, body, first, s, turns) == Source(closed, bound, body, first, s, turns)
      {
        if Constant(bound) {
          KeptBoundAgrees(t, closed, bound, body, first, s, turns);
        } else {
          ShortAgrees(t, bound, body, first, s, turns);
        }
      }
    }
    if AlwaysAgrees(t, closed, bound) {
      if closed {
        forall s: S, u: S ensures bound(u).0 <= bound(s).0 && bound(u).1 == u { ClosedSame(t, bound, s, u); }
      } else {
        OpenMeansShort(t, bound);
      }
    }
  }

  lemma ShortAgrees<S(!new)>(t: Counter, bound: Bound<S>, body: Body<S>, first: int, s: S, turns: nat)
    requires t.min <= first && bound(s).0 <= t.max && (NoTurn(t, bound) || OneTurnAtMost(t, bound))
    ensures Emitted(t, false, bound, body, first, s, turns) == Source(false, bound, body, first, s, turns)
  {
    if first < bound(s).0 && turns > 0 {
      var r := body(first, s);
      assert bound(r.1).0 <= first + 1;
      assert EmittedOpen(t, bound, body, first + 1, r.1, turns - 1) == Result(true, r.1);
      assert SourceOpen(body, first + 1, bound(s).0, r.1, turns - 1) == Result(true, r.1);
    }
  }

  /** A closed range: one turn that ends in `u` evaluates the bound there too. */
  lemma ClosedSame<S(!new)>(t: Counter, bound: Bound<S>, s: S, u: S)
    requires AlwaysAgrees(t, true, bound) && forall x: S :: t.min <= bound(x).0 <= t.max
    ensures bound(u).0 <= bound(s).0 && bound(u).1 == u
  {
    var body := (i: int, x: S) => (false, u);
    var here, there := bound(u).0, bound(s).0;
    ClosedTurn(t, bound, body, here, u, u);
    assert Emitted(t, true, bound, body, here, u, 1) == Source(true, bound, body, here, u, 1);
    ClosedTurn(t, bound, body, there, s, u);
    assert Emitted(t, true, bound, body, there, s, 1) == Source(true, bound, body, there, s, 1);
  }

  /** An open range with room for a turn: the same. */
  lemma OpenSame<S(!new)>(t: Counter, bound: Bound<S>, s: S, u: S)
    requires AlwaysAgrees(t, false, bound) && t.min < bound(s).0 <= t.max
    ensures bound(u).0 <= bound(s).0 && bound(u).1 == u
  {
    var body := (i: int, x: S) => (false, u);
    var last := bound(s).0;
    OpenTurn(t, bound, body, last, s, u);
    assert Emitted(t, false, bound, body, last - 1, s, 1) == Source(false, bound, body, last - 1, s, 1);
  }

  /** With room for two turns the bound cannot shrink to nothing after the first. */
  lemma OpenTwo<S(!new)>(t: Counter, bound: Bound<S>, s: S, u: S)
    requires AlwaysAgrees(t, false, bound) && t.min + 1 < bound(s).0 <= t.max
    ensures bound(u).0 > t.min + 1
  {
    var body := (i: int, x: S) => (false, u);
    var last := bound(s).0;
    assert SourceOpen(body, t.min + 1, last, u, 0) == Result(false, u);
    assert Source(false, bound, body, t.min, s, 1) == Result(false, u);
    assert EmittedOpen(t, bound, body, t.min + 1, u, 0) == Result(t.min + 1 >= bound(u).0, bound(u).1);
    assert Emitted(t, false, bound, body, t.min, s, 1) == Result(t.min + 1 >= bound(u).0, bound(u).1);
  }

  lemma OpenMeansShort<S(!new)>(t: Counter, bound: Bound<S>)
    requires AlwaysAgrees(t, false, bound) && forall s: S :: t.min <= bound(s).0 <= t.max
    ensures Constant(bound) || NoTurn(t, bound) || OneTurnAtMost(t, bound)
  {
    if s: S :| bound(s).0 > t.min {
      forall u: S ensures bound(u).0 <= bound(s).0 && bound(u).1 == u { OpenSame(t, bound, s, u); }
      if bound(s).0 > t.min + 1 {
        forall u: S ensures bound(s).0 <= bound(u).0 {
          OpenTwo(t, bound, s, u);
          OpenSame(t, bound, u, s);
        }
      }
    }
  }

  lemma OpenTurn<S>(t: Counter, bound: Bound<S>, body: Body<S>, last: int, s: S, u: S)
    requires last == bound(s).0 <= t.max && body(last - 1, bound(s).1) == (false, u)
    ensures Source(false, bound, body, last - 1, s, 1) == Result(true, u)
    ensures Emitted(t, false, bound, body, last - 1, s, 1) == Result(last >= bound(u).0, bound(u).1)
  {
    assert SourceOpen(body, last, last, u, 0) == Result(true, u);
    assert SourceOpen(body, last - 1, last, bound(s).1, 1) == Result(true, u);
    assert EmittedOpen(t, bound, body, last, u, 0) == Result(last >= bound(u).0, bound(u).1);
    assert EmittedOpen(t, bound, body, last - 1, s, 1) == EmittedOpen(t, bound, body, last, u, 0);
  }

  lemma ClosedTurn<S>(t: Counter, bound: Bound<S>, body: Body<S>, last: int, s: S, u: S)
    requires last == bound(s).0 && body(last, bound(s).1) == (false, u)
    ensures Source(true, bound, body, last, s, 1) == Result(true, u)
    ensures
      var b := bound(u);
      Emitted(t, true, bound, body, last, s, 1)
      == if b.0 == last then Result(true, b.1) else Result(Next(t, last) > bound(b.1).0, bound(b.1).1)
  {
    var b := bound(u);
    assert SourceClosed(body, last, last, bound(s).1, 1) == Result(true, u);
    var i := if b.0 == last then last else Next(t, last);
    assert EmittedClosed(t, bound, body, last, false, s, 1) == EmittedClosed(t, bound, body, i, b.0 == last, b.1, 0);
    assert EmittedClosed(t, bound, body, i, b.0 == last, b.1, 0)
        == if b.0 == last then Result(true, b.1) else Result(i > bound(b.1).0, bound(b.1).1);
  }

  // ----- the values visited -----

  /** The counters an undisturbed run visits. */
  function Visited(closed: bool, first: int, last: int): seq<int> {
    if first > last || (!closed && first == last) then []
    else seq(last - first + (if closed then 1 else 0), k requires 0 <= k => first + k)
  }

  /** A body that only notes its counter. */
  function Note(): Body<seq<int>> { (i: int, seen: seq<int>) => (false, seen + [i]) }

  lemma {:induction false} OpenVisits(first: int, last: int, seen: seq<int>, turns: nat)
    requires turns >= |Visited(false, first, last)|
    ensures SourceOpen(Note(), first, last, seen, turns) == Result(true, seen + Visited(false, first, last))
    decreases turns
  {
    if first < last {
      assert Visited(false, first, last) == [first] + Visited(false, first + 1, last);
      OpenVisits(first + 1, last, seen + [first], turns - 1);
      assert Note()(first, seen) == (false, seen + [first]);
      assert seen + [first] + Visited(false, first + 1, last) == seen + Visited(false, first, last);
    } else {
      assert seen + [] == seen;
    }
  }

  lemma {:induction false} ClosedVisits(first: int, last: int, seen: seq<int>, turns: nat)
    requires turns >= |Visited(true, first, last)|
    ensures SourceClosed(Note(), first, last, seen, turns) == Result(true, seen + Visited(true, first, last))
    decreases turns
  {
    assert Note()(first, seen) == (false, seen + [first]);
    if first < last {
      assert Visited(true, first, last) == [first] + Visited(true, first + 1, last);
      ClosedVisits(first + 1, last, seen + [first], turns - 1);
      assert seen + [first] + Visited(true, first + 1, last) == seen + Visited(true, first, last);
    } else if first == last {
      assert Visited(true, first, last) == [first];
    } else {
      assert seen + [] == seen;
    }
  }

  /** A constant bound: both loops end, having visited every value of the range once and in order,
      `b` itself exactly when the range is closed. */
  lemma RangeVisits(t: Counter, closed: bool, first: int, last: int, turns: nat)
    requires last <= t.max && turns >= |Visited(closed, first, last)|
    ensures Emitted(t, closed, s => (last, s), Note(), first, [], turns) == Result(true, Visited(closed, first, last))
  {
    var bound: Bound<seq<int>> := s => (last, s);
    KeptBoundAgrees(t, closed, bound, Note(), first, [], turns);
    if closed { ClosedVisits(first, last, [], turns); } else { OpenVisits(first, last, [], turns); }
    assert [] + Visited(closed, first, last) == Visited(closed, first, last);
  }

  // ----- an input -----

  /** `for i in 0..<n: n = n - 1`, from 4: the interpreter takes four turns, the emitted loop two. */
  lemma ShrinkingBound(t: Counter)
    requires t.max >= 4
    ensures
      var bound: Bound<int> := n => (n, n);
      var body: Body<int> := (i: int, n: int) => (false, n - 1);
      && Source(false, bound, body, 0, 4, 4) == Result(true, 0)
      && Emitted(t, false, bound, body, 0, 4, 4) == Result(true, 2)
  {
    var bound: Bound<int> := n => (n, n);
    var body: Body<int> := (i: int, n: int) => (false, n - 1);
    assert SourceOpen(body, 4, 4, 0, 0) == Result(true, 0);
    assert SourceOpen(body, 3, 4, 1, 1) == Result(true, 0);
    assert SourceOpen(body, 2, 4, 2, 2) == Result(true, 0);
    assert SourceOpen(body, 1, 4, 3, 3) == Result(true, 0);
    assert EmittedOpen(t, bound, body, 2, 2, 2) == Result(true, 2);
    assert EmittedOpen(t, bound, body, 1, 3, 3) == Result(true, 2);
  }
}
