/** Why containment follows arrays, atomics, optionals and tuples: these are the types whose
    layout asks for the layout of what they hold (src/check/type.cpp, `type_size`, `type_align`). */
module ContainmentLayout {
  import opened Wrappers
  import opened Containment

  datatype Shape = Shape(size: nat, align: nat)

  /** The shapes of the declarations; None where the recursion does not end. */
  type Shapes = nat -> Option<Shape>

  function Padded(n: nat, align: nat): nat {
    if align <= 1 || n % align == 0 then n else n + (align - n % align)
  }

  function Times(size: nat, n: nat): nat { size * n }

  /** Size and alignment of a type from those of the declarations; `leaf` is any type of fixed size. */
  function ShapeOf(t: Ty, leaf: Shape, rs: Shapes): Option<Shape> {
    match t
    case Leaf => Some(leaf)
    case Record(d) => rs(d)
    case Array(e, n) =>
      var s := ShapeOf(e, leaf, rs);
      if s.None? then None else Some(Shape(Times(s.value.size, n), s.value.align))
    case Atomic(e) =>
      var s := ShapeOf(e, leaf, rs);
      if s.None? then None else Some(Shape(s.value.size, if s.value.size == 0 then 1 else s.value.size))
    case Optional(e) =>
      var s := ShapeOf(e, leaf, rs);
      if s.None? then None else Some(Shape(Padded(s.value.size + 1, s.value.align), s.value.align))
    case Tuple(es) =>
      var s := PartsShape(es, leaf, rs, Shape(0, 1));
      if s.None? then None else Some(Shape(Padded(s.value.size, s.value.align), s.value.align))
  }

  /** The parts placed one after the other, behind those that came to `before`. */
  function PartsShape(ts: Types, leaf: Shape, rs: Shapes, before: Shape): Option<Shape> {
    match ts
    case NoTypes => Some(before)
    case More(t, rest) =>
      var s := ShapeOf(t, leaf, rs);
      if s.None? then None
      else
        var after := Shape(Padded(before.size, s.value.align) + s.value.size, Max(before.align, s.value.align));
        PartsShape(rest, leaf, rs, after)
  }

  // ----- what is asked for -----

  /** A type has a layout exactly when everything it holds has one. */
  lemma {:induction false} LayoutNeedsHeld(t: Ty, leaf: Shape, rs: Shapes)
    ensures ShapeOf(t, leaf, rs).Some? <==> forall d :: d in Holds(t) ==> rs(d).Some?
  {
    match t
    case Leaf =>
    case Record(_) =>
    case Array(e, _) => LayoutNeedsHeld(e, leaf, rs);
    case Atomic(e) => LayoutNeedsHeld(e, leaf, rs);
    case Optional(e) => LayoutNeedsHeld(e, leaf, rs);
    case Tuple(es) => PartsNeedHeld(es, leaf, rs, Shape(0, 1));
  }

  lemma {:induction false} PartsNeedHeld(ts: Types, leaf: Shape, rs: Shapes, before: Shape)
    ensures PartsShape(ts, leaf, rs, before).Some? <==> forall d :: d in HoldsAny(ts) ==> rs(d).Some?
  {
    if ts.More? {
      LayoutNeedsHeld(ts.head, leaf, rs);
      var s := ShapeOf(ts.head, leaf, rs);
      if s.Some? {
        var after := Shape(Padded(before.size, s.value.align) + s.value.size, Max(before.align, s.value.align));
        PartsNeedHeld(ts.tail, leaf, rs, after);
      }
    }
  }

  // ----- whose size matters -----

  predicate NoEmptyArray(t: Ty) {
    match t
    case Array(e, n) => n > 0 && NoEmptyArray(e)
    case Atomic(e) => NoEmptyArray(e)
    case Optional(e) => NoEmptyArray(e)
    case Tuple(es) => NoEmptyArrays(es)
    case _ => true
  }

  predicate NoEmptyArrays(ts: Types) { ts.More? ==> NoEmptyArray(ts.head) && NoEmptyArrays(ts.tail) }

  /** `rs` and `rs'` give the same shapes to all declarations but `d`, and every one a shape. */
  ghost predicate DifferAt(rs: Shapes, rs': Shapes, d: nat) {
    (forall k :: rs(k).Some? && rs'(k).Some?) && forall k :: k != d ==> rs(k) == rs'(k)
  }

  lemma {:induction false} SameShape(t: Ty, leaf: Shape, rs: Shapes, rs': Shapes, d: nat)
    requires DifferAt(rs, rs', d) && d !in Holds(t)
    ensures ShapeOf(t, leaf, rs) == ShapeOf(t, leaf, rs')
  {
    match t
    case Array(e, _) => SameShape(e, leaf, rs, rs', d);
    case Atomic(e) => SameShape(e, leaf, rs, rs', d);
    case Optional(e) => SameShape(e, leaf, rs, rs', d);
    case Tuple(es) => SameParts(es, leaf, rs, rs', d, Shape(0, 1));
    case _ =>
  }

  lemma {:induction false} SameParts(ts: Types, leaf: Shape, rs: Shapes, rs': Shapes, d: nat, before: Shape)
    requires DifferAt(rs, rs', d) && d !in HoldsAny(ts)
    ensures PartsShape(ts, leaf, rs, before) == PartsShape(ts, leaf, rs', before)
  {
    if ts.More? {
      SameShape(ts.head, leaf, rs, rs', d);
      var s := ShapeOf(ts.head, leaf, rs);
      if s.Some? {
        var after := Shape(Padded(before.size, s.value.align) + s.value.size, Max(before.align, s.value.align));
        SameParts(ts.tail, leaf, rs, rs', d, after);
      }
    }
  }

  lemma TimesAtLeast(size: nat, n: nat)
    requires n > 0
    ensures Times(size, n) >= size
  {
    assert size * n == size + size * (n - 1);
  }

  /** A type is at least as large as what it holds. */
  lemma {:induction false} AtLeastHeld(t: Ty, leaf: Shape, rs: Shapes, d: nat)
    requires NoEmptyArray(t) && d in Holds(t) && ShapeOf(t, leaf, rs).Some?
    ensures rs(d).Some? && ShapeOf(t, leaf, rs).value.size >= rs(d).value.size
  {
    hide Padded, Times;
    match t
    case Record(_) =>
    case Array(e, n) =>
      AtLeastHeld(e, leaf, rs, d);
      TimesAtLeast(ShapeOf(e, leaf, rs).value.size, n);
    case Atomic(e) => AtLeastHeld(e, leaf, rs, d);
    case Optional(e) =>
      AtLeastHeld(e, leaf, rs, d);
      PaddedAtLeast(ShapeOf(e, leaf, rs).value.size + 1, ShapeOf(e, leaf, rs).value.align);
    case Tuple(es) =>
      PartsAtLeast(es, leaf, rs, Shape(0, 1), d);
      var s := PartsShape(es, leaf, rs, Shape(0, 1)).value;
      PaddedAtLeast(s.size, s.align);
  }

  lemma PaddedAtLeast(n: nat, align: nat)
    ensures Padded(n, align) >= n
  {
  }

  lemma {:induction false} PartsAtLeast(ts: Types, leaf: Shape, rs: Shapes, before: Shape, d: nat)
    requires NoEmptyArrays(ts) && PartsShape(ts, leaf, rs, before).Some?
    ensures PartsShape(ts, leaf, rs, before).value.size >= before.size
    ensures d in HoldsAny(ts) ==> rs(d).Some? && PartsShape(ts, leaf, rs, before).value.size >= rs(d).value.size
  {
    if ts.More? {
      var s := ShapeOf(ts.head, leaf, rs).value;
      PaddedAtLeast(before.size, s.align);
      PartsAtLeast(ts.tail, leaf, rs, Shape(Padded(before.size, s.align) + s.size, Max(before.align, s.align)), d);
      if d in Holds(ts.head) { AtLeastHeld(ts.head, leaf, rs, d); }
    }
  }

  /** The size of a type without empty arrays depends on that of declaration `d` exactly when
      containment says it holds `d`. */
  lemma SizeDependsIffHeld(t: Ty, leaf: Shape, d: nat)
    requires NoEmptyArray(t)
    ensures
      d in Holds(t) <==>
        exists rs: Shapes, rs': Shapes :: DifferAt(rs, rs', d) && ShapeOf(t, leaf, rs) != ShapeOf(t, leaf, rs')
  {
    if d in Holds(t) {
      var rs: Shapes := k => Some(Shape(0, 1));
      LayoutNeedsHeld(t, leaf, rs);
      var size := ShapeOf(t, leaf, rs).value.size;
      var rs': Shapes := k => Some(Shape(if k == d then size + 1 else 0, 1));
      LayoutNeedsHeld(t, leaf, rs');
      AtLeastHeld(t, leaf, rs', d);
      assert DifferAt(rs, rs', d) && ShapeOf(t, leaf, rs) != ShapeOf(t, leaf, rs');
    } else {
      forall rs: Shapes, rs': Shapes | DifferAt(rs, rs', d) ensures ShapeOf(t, leaf, rs) == ShapeOf(t, leaf, rs') {
        SameShape(t, leaf, rs, rs', d);
      }
    }
  }

  /** A declaration holds what its members hold. */
  lemma {:induction false} DeclarationHolds(ts: seq<Ty>, d: nat)
    ensures d in HoldsIn(ts) <==> exists i :: 0 <= i < |ts| && d in Holds(ts[i])
  {
    if ts != [] {
      DeclarationHolds(ts[1..], d);
      if d in HoldsIn(ts[1..]) {
        var i :| 0 <= i < |ts[1..]| && d in Holds(ts[1..][i]);
        assert d in Holds(ts[i + 1]);
      }
      if exists i :: 1 <= i < |ts| && d in Holds(ts[i]) {
        var i :| 1 <= i < |ts| && d in Holds(ts[i]);
        assert d in Holds(ts[1..][i - 1]);
      }
    }
  }

  /** `struct Node { next: Node? }` contains itself. */
  lemma OptionalSelfContained()
    ensures !Acyclic([[Optional(Record(0))]])
  {
    var ds := [[Optional(Record(0))]];
    assert Edges(ds, 0) == Holds(Optional(Record(0))) + HoldsIn(ds[0][1..]);
    ReachesNow(ds, Edges(ds, 0), 0);
  }
}
