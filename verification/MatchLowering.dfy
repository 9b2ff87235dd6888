/** `match` and the C written for it (src/emit/stmt.cpp): a `switch` for integers, `bool` and
    enums, a chain of `if`s for text and for optionals.  Guards and bodies are events the outside
    world answers, so what is proved here holds of any guards and any bodies. */
module MatchLowering {
  import ConstFold

  /** A pattern over integers, tags or numbered texts; 0 and 1 are `false` and `true`, or `none` and
      `some`.  `text` is how a literal or a case is spelled; a literal under `-` has none.  A range
      has the type of what is matched, and is `lo..=hi` when closed and else `lo..<hi`. */
  datatype Pattern =
    | Wild
    | One(n: int, text: string)
    | Range(ty: ConstFold.IntType, lo: int, hi: int, closed: bool)

  datatype Arm = Arm(patterns: seq<Pattern>, guarded: bool)

  /** `match_pat`: a range compares its ends and the value as unsigned words of the type's bits. */
  predicate Takes(p: Pattern, v: int) {
    match p
    case Wild => true
    case One(n, _) => v == n
    case Range(ty, lo, hi, closed) =>
      var span := ConstFold.Span(ty.width);
      var s, a, b := v % span, lo % span, hi % span;
      s >= a && (if closed then s <= b else s < b)
  }

  predicate Hits(ps: seq<Pattern>, v: int) { exists i :: 0 <= i < |ps| && Takes(ps[i], v) }

  datatype Event = Asked(arm: nat) | Ran(arm: nat)

  /** How a body ends: an unnamed `break` is told apart from every other way out. */
  datatype Outcome = Normal | Breaking | Leaving(way: nat) | NoArm

  datatype World = World(holds: seq<Event> -> bool, ends: seq<Event> -> Outcome)

  datatype Run = Run(out: Outcome, trace: seq<Event>)

  function Body(w: World, arm: nat, trace: seq<Event>): Run {
    var after := trace + [Ran(arm)];
    Run(w.ends(after), after)
  }

  /** `eval_match`: the first arm that hits and whose guard holds; none is a trap. */
  function Match(w: World, arms: seq<Arm>, i: nat, v: int, trace: seq<Event>): Run
    requires i <= |arms|
    decreases |arms| - i
  {
    if i == |arms| then Run(NoArm, trace)
    else if !Hits(arms[i].patterns, v) then Match(w, arms, i + 1, v, trace)
    else if !arms[i].guarded then Body(w, i, trace)
    else
      var after := trace + [Asked(i)];
      if w.holds(after) then Body(w, i, after) else Match(w, arms, i + 1, v, after)
  }

  // ----- the switch -----

  /** `case lo ... hi:`, which takes both ends. */
  datatype Label = CaseOf(lo: int, hi: int) | Default

  function LabelFor(p: Pattern): (l: Label)
    requires p != Wild
    ensures l.CaseOf?
  {
    match p
    case One(n, _) => CaseOf(n, n)
    case Range(_, lo, hi, closed) => CaseOf(lo, if closed then hi else hi - 1)
  }

  /** The `switch` is over `int64_t`, and its constants are converted to that. */
  function Signed64(x: int): int {
    var low := x % ConstFold.WORD;
    if low >= ConstFold.WORD / 2 then low - ConstFold.WORD else low
  }

  predicate CaseTakes(l: Label, v: int)
    requires l.CaseOf?
  {
    Signed64(l.lo) <= Signed64(v) <= Signed64(l.hi)
  }

  /** The labels and the braces written for one arm: `asks` is `if (guard) { ...; break; }`, and
      `breaks` a `break;` after the body. */
  datatype Block = Block(labels: seq<Label>, asks: bool, breaks: bool)

  predicate HasWild(ps: seq<Pattern>) { Wild in ps }

  /** `default:` is written once, for the first `_`. */
  function LabelsOf(ps: seq<Pattern>, defaulted: bool): seq<Label>
    decreases |ps|
  {
    if ps == [] then []
    else
      var front := LabelsOf(ps[..|ps| - 1], defaulted);
      var last := ps[|ps| - 1];
      if last != Wild then front + [LabelFor(last)]
      else if defaulted || HasWild(ps[..|ps| - 1]) then front
      else front + [Default]
  }

  predicate WildBefore(arms: seq<Arm>, i: nat)
    requires i <= |arms|
  {
    exists k :: 0 <= k < i && HasWild(arms[k].patterns)
  }

  function BlockOf(arms: seq<Arm>, valued: bool, i: nat): Block
    requires i < |arms|
  {
    Block(LabelsOf(arms[i].patterns, WildBefore(arms, i)), valued && arms[i].guarded, !arms[i].guarded)
  }

  function SwitchCode(arms: seq<Arm>, valued: bool): seq<Block> {
    seq(|arms|, i requires 0 <= i < |arms| => BlockOf(arms, valued, i))
  }

  /** `emit_match` on an integer or an enum: its two loops and the flag for `default:`. */
  method EmitSwitch(arms: seq<Arm>, valued: bool) returns (code: seq<Block>)
    ensures code == SwitchCode(arms, valued)
  {
    code := [];
    var defaulted := false;
    var i := 0;
    while i < |arms|
      invariant 0 <= i <= |arms| && defaulted == WildBefore(arms, i)
      invariant |code| == i && forall k :: 0 <= k < i ==> code[k] == BlockOf(arms, valued, k)
    {
      var ps, labels := arms[i].patterns, [];
      var j := 0;
      while j < |ps|
        invariant 0 <= j <= |ps| && labels == LabelsOf(ps[..j], WildBefore(arms, i))
        invariant defaulted == (WildBefore(arms, i) || HasWild(ps[..j]))
      {
        assert ps[..j + 1][..j] == ps[..j] && ps[..j + 1][j] == ps[j];
        if ps[j] == Wild {
          if !defaulted {
            labels := labels + [Default];
            defaulted := true;
          }
        } else {
          labels := labels + [LabelFor(ps[j])];
        }
        j := j + 1;
      }
      assert ps[..j] == ps;
      code := code + [Block(labels, valued && arms[i].guarded, !arms[i].guarded)];
      i := i + 1;
    }
  }

  predicate Labelled(b: Block, v: int) { exists k :: 0 <= k < |b.labels| && b.labels[k].CaseOf? && CaseTakes(b.labels[k], v) }

  /** Where a `switch` goes: the case label that takes the value, else `default:`, else past it. */
  function CaseFrom(code: seq<Block>, v: int, i: nat): nat
    requires i <= |code|
    decreases |code| - i
  {
    if i == |code| || Labelled(code[i], v) then i else CaseFrom(code, v, i + 1)
  }

  function DefaultFrom(code: seq<Block>, i: nat): nat
    requires i <= |code|
    decreases |code| - i
  {
    if i == |code| || Default in code[i].labels then i else DefaultFrom(code, i + 1)
  }

  function Entry(code: seq<Block>, v: int): nat {
    if CaseFrom(code, v, 0) < |code| then CaseFrom(code, v, 0) else DefaultFrom(code, 0)
  }

  /** A `break` inside a `switch` ends the `switch`. */
  function EndHere(r: Run): Run { if r.out == Breaking then r.(out := Normal) else r }

  /** Running from block `i` on: without a `break` the next block follows, whatever its labels. */
  function From(w: World, code: seq<Block>, i: nat, trace: seq<Event>): Run
    decreases |code| - i
  {
    if i >= |code| then Run(Normal, trace)
    else if code[i].asks then
      var after := trace + [Asked(i)];
      if w.holds(after) then EndHere(Body(w, i, after)) else From(w, code, i + 1, after)
    else
      var r := Body(w, i, trace);
      if r.out != Normal || code[i].breaks then EndHere(r) else From(w, code, i + 1, r.trace)
  }

  function Switch(w: World, code: seq<Block>, v: int, trace: seq<Event>): Run {
    From(w, code, Entry(code, v), trace)
  }

  // ----- the chains -----

  /** Text: pattern and guard are one condition. */
  function TextChain(w: World, arms: seq<Arm>, i: nat, v: int, trace: seq<Event>): Run
    requires i <= |arms|
    decreases |arms| - i
  {
    if i == |arms| then Run(Normal, trace)
    else if !Hits(arms[i].patterns, v) then TextChain(w, arms, i + 1, v, trace)
    else if !arms[i].guarded then Body(w, i, trace)
    else
      var after := trace + [Asked(i)];
      if w.holds(after) then Body(w, i, after) else TextChain(w, arms, i + 1, v, after)
  }

  /** Optionals: the condition is the last pattern's, and the guard, written only for a value, is
      inside. */
  function OptionalChain(w: World, arms: seq<Arm>, valued: bool, i: nat, v: int, trace: seq<Event>): Run
    requires i <= |arms|
    decreases |arms| - i
  {
    if i == |arms| then Run(Normal, trace)
    else if !LastHits(arms[i].patterns, v) then OptionalChain(w, arms, valued, i + 1, v, trace)
    else if !(valued && arms[i].guarded) then Body(w, i, trace)
    else
      var after := trace + [Asked(i)];
      if w.holds(after) then Body(w, i, after) else Run(Normal, after)
  }

  predicate LastHits(ps: seq<Pattern>, v: int) { ps != [] && Takes(ps[|ps| - 1], v) }

  // ----- what the checker asks -----

  /** What is matched. */
  datatype Kind = Integers | Booleans | Tags(count: nat) | Optionals | Texts

  predicate Of(kind: Kind, v: int) {
    match kind
    case Integers => true
    case Booleans => v == 0 || v == 1
    case Tags(count) => 0 <= v < count
    case Optionals => v == 0 || v == 1
    case Texts => true
  }

  /** Nothing after an unguarded `_`, no unguarded spelling twice, and enough arms. */
  predicate Accepted(kind: Kind, arms: seq<Arm>) {
    && (forall i :: 0 <= i < |arms| ==> arms[i].patterns != [])
    && (forall i :: 0 <= i < |arms| && Settles(arms[i]) ==> i == |arms| - 1 && !HasWild(arms[i].patterns[..|arms[i].patterns| - 1]))
    && (forall i, j :: 0 <= i < j < |arms| ==> arms[i].guarded || arms[j].guarded || Apart(arms[i].patterns, arms[j].patterns))
    && (forall i :: 0 <= i < |arms| ==> arms[i].guarded || Differ(arms[i].patterns))
    && Enough(kind, arms)
  }

  predicate Settles(a: Arm) { !a.guarded && HasWild(a.patterns) }

  /** An unguarded `_`, or else each value by itself.  Of `true` and `false` the guards are not
      looked at, and of texts nothing is asked. */
  predicate Enough(kind: Kind, arms: seq<Arm>) {
    || (exists i :: 0 <= i < |arms| && Settles(arms[i]))
    || match kind
       case Integers => false
       case Booleans => Mentioned(arms, 0) && Mentioned(arms, 1)
       case Tags(count) => forall v :: 0 <= v < count ==> Settled(arms, v)
       case Optionals => Settled(arms, 0) && Settled(arms, 1)
       case Texts => true
  }

  predicate Mentioned(arms: seq<Arm>, v: int) { exists i :: 0 <= i < |arms| && Names(arms[i].patterns, v) }

  predicate Settled(arms: seq<Arm>, v: int) { exists i :: 0 <= i < |arms| && !arms[i].guarded && Names(arms[i].patterns, v) }

  predicate Names(ps: seq<Pattern>, v: int) { exists a :: 0 <= a < |ps| && ps[a].One? && ps[a].n == v }

  predicate SameSpelling(p: Pattern, q: Pattern) { p.One? && q.One? && p.text != "" && p.text == q.text }

  predicate Apart(ps: seq<Pattern>, qs: seq<Pattern>) {
    forall a, b :: 0 <= a < |ps| && 0 <= b < |qs| ==> !SameSpelling(ps[a], qs[b])
  }

  predicate Differ(ps: seq<Pattern>) { forall a, b :: 0 <= a < b < |ps| ==> !SameSpelling(ps[a], ps[b]) }
}
