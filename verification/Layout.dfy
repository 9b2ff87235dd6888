/** The sizes, alignments and offsets the checker computes (src/check/type.cpp), on a target
    with eight-byte pointers.  The functions say what they are; the methods below compute them
    as the checker does. */
module Layout {
  import opened Wrappers
  import opened CLayout

  /** `raise` is the N of `align(N)`, or 0. */
  datatype Field = Field(name: string, ty: Ty, raise: nat)

  datatype Case = Case(payload: seq<Ty>)

  datatype Kind =
    | Bool | I8 | I16 | I32 | I64 | Isize | U8 | U16 | U32 | U64 | Usize
    | F16 | F32 | F64 | Char | ErrorCode | CStr | Pointer | Func

  datatype Ty =
    | Scalar(kind: Kind)         // and integer enums and atomics, as the type they hold
    | TwoWords                   // `str`, spans, interfaces
    | ErrorVal
    | Allocator
    | Array(elem: Ty, length: nat)
    | Optional(elem: Ty)
    | Fallible(elem: Ty)
    | FallibleUnit
    | Tuple(parts: seq<Ty>)
    | Struct(fields: seq<Field>, packed: bool, raised: nat)
    | Union(members: seq<Ty>)
    | Enum(cases: seq<Case>)

  function PadTo(off: nat, align: nat): nat {
    if align <= 1 || off % align == 0 then off else off + (align - off % align)
  }

  /** `pad_to` moves to the first aligned offset. */
  lemma PadIsCeil()
    ensures forall off: nat, align: nat :: align > 0 ==> PadTo(off, align) == Ceil(off, align)
  {
    forall off: nat, align: nat | align > 0 ensures PadTo(off, align) == Ceil(off, align) {
      if off % align == 0 { PadNone(off, align); } else { PadSome(off, align); }
    }
  }

  lemma PadNone(off: nat, align: nat)
    requires align > 0 && off % align == 0
    ensures Ceil(off, align) == off
  {
    CeilIsLeastMultiple(off, align);
  }

  lemma PadSome(off: nat, align: nat)
    requires align > 0 && off % align != 0
    ensures Ceil(off, align) == off + (align - off % align)
  {
    var y := off + (align - off % align);
    assert y == (off / align + 1) * align;
    ModOfMultiple(off / align + 1, align);
    CeilIsLeastMultiple(off, align);
    var c := Ceil(off, align);
    if c < y {
      assert c / align * align == c && y / align * align == y;
      MultiplesApart(c / align, y / align, align);
    }
  }

  /** `type_size` of a scalar. */
  function ScalarSize(k: Kind): (r: nat)
    ensures r > 0
  {
    match k
    case Bool => 1
    case I8 => 1
    case U8 => 1
    case I16 => 2
    case U16 => 2
    case F16 => 2
    case I32 => 4
    case U32 => 4
    case F32 => 4
    case ErrorCode => 4
    case I64 => 8
    case U64 => 8
    case F64 => 8
    case Isize => 8
    case Usize => 8
    case Char => 4
    case Pointer => 8
    case CStr => 8
    case Func => 8
  }

  // ---------------------------------------------------------------- alignment

  function AlignOf(t: Ty): (r: nat)
    ensures r > 0
  {
    match t
    case Scalar(k) => ScalarSize(k)
    case TwoWords => 8
    case ErrorVal => 20
    case Allocator => 8
    case Array(e, _) => AlignOf(e)
    case Optional(e) => AlignOf(e)
    case Fallible(e) => if AlignOf(e) > 8 then AlignOf(e) else 8
    case FallibleUnit => 8
    case Tuple(ts) => AlignAll(ts)
    case Struct(fs, packed, raised) => Max(FieldsAlign(fs, packed), raised)
    case Union(ts) => AlignAll(ts)
    case Enum(cs) => Max(4, AlignCases(cs))
  }

  function FieldAlign(f: Field): (r: nat)
    ensures r > 0
  {
    Max(AlignOf(f.ty), f.raise)
  }

  function FieldsAlign(fs: seq<Field>, packed: bool): (r: nat)
    ensures r > 0
  {
    if fs == [] then 1
    else Max(FieldsAlign(fs[..|fs| - 1], packed), if packed then 1 else FieldAlign(fs[|fs| - 1]))
  }

  function AlignAll(ts: seq<Ty>): (r: nat)
    ensures r > 0
  {
    if ts == [] then 1 else Max(AlignAll(ts[..|ts| - 1]), AlignOf(ts[|ts| - 1]))
  }

  function CaseAlign(c: Case): (r: nat)
    ensures r > 0
  {
    AlignAll(c.payload)
  }

  function AlignCases(cs: seq<Case>): (r: nat)
    ensures r > 0
  {
    if cs == [] then 1 else Max(AlignCases(cs[..|cs| - 1]), CaseAlign(cs[|cs| - 1]))
  }

  // ---------------------------------------------------------------- size

  function Times(size: nat, n: nat): nat {
    size * n
  }

  function SizeOf(t: Ty): nat {
    match t
    case Scalar(k) => ScalarSize(k)
    case TwoWords => 16
    case ErrorVal => 20
    case Allocator => 12
    case Array(e, n) => Times(SizeOf(e), n)
    case Optional(e) => PadTo(SizeOf(e) + 1, AlignOf(t))
    case Fallible(e) => PadTo(PadTo(SizeOf(e), 8) + 24 + 1, AlignOf(t))
    case FallibleUnit => PadTo(25, 8)
    case Tuple(ts) => PadTo(EndOf(ts), AlignOf(t))
    case Struct(fs, packed, raised) => PadTo(FieldsEnd(fs, packed), AlignOf(t))
    case Union(ts) => PadTo(Largest(ts), AlignOf(t))
    case Enum(cs) =>
      var palign := AlignOf(t);
      PadTo(PadTo(4, palign) + LargestCase(cs), palign)
  }

  /** Where the field after `fs` may start, before its own alignment. */
  function FieldsEnd(fs: seq<Field>, packed: bool): nat {
    if fs == [] then 0
    else FieldStart(fs, packed) + FieldSize(fs[|fs| - 1])
  }

  function FieldSize(f: Field): nat {
    SizeOf(f.ty)
  }

  /** The offset of the last field of `fs`. */
  function FieldStart(fs: seq<Field>, packed: bool): nat
    requires fs != []
    decreases fs, packed, 0
  {
    var end := FieldsEnd(fs[..|fs| - 1], packed);
    if packed then end else PadTo(end, FieldAlign(fs[|fs| - 1]))
  }

  function OffsetAt(fs: seq<Field>, packed: bool, i: nat): nat
    requires i < |fs|
  {
    FieldStart(fs[..i + 1], packed)
  }

  function EndOf(ts: seq<Ty>): nat {
    if ts == [] then 0
    else PadTo(EndOf(ts[..|ts| - 1]), AlignOf(ts[|ts| - 1])) + SizeOf(ts[|ts| - 1])
  }

  function Largest(ts: seq<Ty>): nat {
    if ts == [] then 0 else Max(Largest(ts[..|ts| - 1]), SizeOf(ts[|ts| - 1]))
  }

  function LargestCase(cs: seq<Case>): nat {
    if cs == [] then 0 else Max(LargestCase(cs[..|cs| - 1]), CaseSize(cs[|cs| - 1]))
  }

  function CaseSize(c: Case): nat {
    PadTo(EndOf(c.payload), AlignAll(c.payload))
  }

  lemma FieldsEndStep(fs: seq<Field>, packed: bool, k: nat)
    requires k < |fs|
    ensures FieldsEnd(fs[..k + 1], packed) == OffsetAt(fs, packed, k) + SizeOf(fs[k].ty)
  {
    hide FieldStart, SizeOf;
    assert fs[..k + 1][|fs[..k + 1]| - 1] == fs[k];
  }

  lemma NoFields(packed: bool)
    ensures FieldsEnd([], packed) == 0 && FieldsAlign([], packed) == 1
  {
  }

  lemma FieldsAlignStep(fs: seq<Field>, packed: bool, k: nat)
    requires k < |fs|
    ensures FieldsAlign(fs[..k + 1], packed)
         == Max(FieldsAlign(fs[..k], packed), if packed then 1 else FieldAlign(fs[k]))
  {
    hide FieldAlign;
    assert fs[..k + 1][..k] == fs[..k] && fs[..k + 1][k] == fs[k];
  }

  lemma OffsetStep(fs: seq<Field>, packed: bool, k: nat)
    requires k < |fs|
    ensures OffsetAt(fs, packed, k)
         == if packed then FieldsEnd(fs[..k], packed) else PadTo(FieldsEnd(fs[..k], packed), FieldAlign(fs[k]))
  {
    hide FieldAlign, FieldsEnd, PadTo;
    assert fs[..k + 1][..k] == fs[..k] && fs[..k + 1][k] == fs[k];
  }

  // ---------------------------------------------------------------- as the checker computes them

  /** `type_align`. */
  method TypeAlign(t: Ty) returns (align: nat)
    ensures align == AlignOf(t)
    decreases t
  {
    match t
    case Scalar(k) => align := ScalarSize(k);
    case TwoWords => align := 8;
    case ErrorVal => align := 20;
    case Allocator => align := 8;
    case Array(e, _) => align := TypeAlign(e);
    case Optional(e) => align := TypeAlign(e);
    case FallibleUnit => align := 8;
    case Fallible(e) =>
      var a := TypeAlign(e);
      align := if a > 8 then a else 8;
    case Struct(fs, packed, raised) =>
      align := 1;
      var i := 0;
      while i < |fs|
        invariant 0 <= i <= |fs| && align == FieldsAlign(fs[..i], packed)
      {
        assert fs[..i + 1][..i] == fs[..i];
        var a := 1;
        if !packed {
          a := TypeAlign(fs[i].ty);
          a := if fs[i].raise > a then fs[i].raise else a;
        }
        if a > align { align := a; }
        i := i + 1;
      }
      assert fs[..i] == fs;
      if raised > align { align := raised; }
    case Tuple(ts) => align := AlignEach(ts);
    case Union(ts) => align := AlignEach(ts);
    case Enum(cs) =>
      align := 4;
      var i := 0;
      while i < |cs|
        invariant 0 <= i <= |cs| && align == Max(4, AlignCases(cs[..i]))
      {
        assert cs[..i + 1][..i] == cs[..i];
        var a := AlignEach(cs[i].payload);
        if a > align { align := a; }
        i := i + 1;
      }
      assert cs[..i] == cs;
  }

  method AlignEach(ts: seq<Ty>) returns (align: nat)
    ensures align == AlignAll(ts)
    decreases ts
  {
    align := 1;
    var i := 0;
    while i < |ts|
      invariant 0 <= i <= |ts| && align == AlignAll(ts[..i])
    {
      assert ts[..i + 1][..i] == ts[..i];
      var a := TypeAlign(ts[i]);
      if a > align { align := a; }
      i := i + 1;
    }
    assert ts[..i] == ts;
  }

  /** `type_size`. */
  method TypeSize(t: Ty) returns (size: nat)
    ensures size == SizeOf(t)
    decreases t, 1
  {
    hide PadTo, AlignOf, EndOf, FieldsEnd, Largest, LargestCase, Times;
    match t
    case Scalar(k) => size := ScalarSize(k);
    case TwoWords => size := 16;
    case ErrorVal => size := 20;
    case Allocator => size := 12;
    case Array(e, n) =>
      var s := TypeSize(e);
      size := Times(s, n);
    case Optional(e) =>
      var align := TypeAlign(t);
      var s := TypeSize(e);
      size := PadTo(s + 1, align);
    case FallibleUnit => size := PadTo(25, 8);
    case Fallible(e) =>
      var align := TypeAlign(t);
      var s := TypeSize(e);
      size := PadTo(PadTo(s, 8) + 24 + 1, align);
    case Struct(_, _, _) =>
      var off;
      size, off := LayoutStruct(t, "");
    case Tuple(_) => size := TupleSize(t);
    case Union(_) => size := UnionSize(t);
    case Enum(_) => size := EnumSize(t);
  }

  method TupleSize(t: Ty) returns (size: nat)
    requires t.Tuple?
    ensures size == SizeOf(t)
    decreases t, 0
  {
    var ts := t.parts;
    size := 0;
    var i := 0;
    while i < |ts|
      invariant 0 <= i <= |ts| && size == EndOf(ts[..i])
    {
      assert ts[..i + 1][..i] == ts[..i];
      var a := TypeAlign(ts[i]);
      var s := TypeSize(ts[i]);
      size := PadTo(size, a) + s;
      i := i + 1;
    }
    assert ts[..i] == ts;
    var align := TypeAlign(t);
    size := PadTo(size, align);
  }

  method UnionSize(t: Ty) returns (size: nat)
    requires t.Union?
    ensures size == SizeOf(t)
    decreases t, 0
  {
    var ts := t.members;
    size := 0;
    var align := 1;
    var i := 0;
    while i < |ts|
      invariant 0 <= i <= |ts| && size == Largest(ts[..i]) && align == AlignAll(ts[..i])
    {
      assert ts[..i + 1][..i] == ts[..i];
      var s := TypeSize(ts[i]);
      var a := TypeAlign(ts[i]);
      if s > size { size := s; }
      if a > align { align := a; }
      i := i + 1;
    }
    assert ts[..i] == ts;
    size := PadTo(size, align);
  }

  method EnumSize(t: Ty) returns (size: nat)
    requires t.Enum?
    ensures size == SizeOf(t)
    decreases t, 0
  {
    var cs := t.cases;
    var psz, palign := 0, 4;
    var i := 0;
    while i < |cs|
      invariant 0 <= i <= |cs| && psz == LargestCase(cs[..i]) && palign == Max(4, AlignCases(cs[..i]))
    {
      assert cs[..i + 1][..i] == cs[..i];
      var s, a := CaseLayout(cs[i]);
      if s > psz { psz := s; }
      if a > palign { palign := a; }
      i := i + 1;
    }
    assert cs[..i] == cs;
    size := PadTo(PadTo(4, palign) + psz, palign);
  }

  /** One case's payload, as `type_size` adds it up. */
  method CaseLayout(c: Case) returns (s: nat, a: nat)
    ensures s == CaseSize(c) && a == CaseAlign(c)
    decreases c, 0
  {
    s, a := 0, 1;
    var ps := c.payload;
    var i := 0;
    while i < |ps|
      invariant 0 <= i <= |ps| && s == EndOf(ps[..i]) && a == AlignAll(ps[..i])
    {
      assert ps[..i + 1][..i] == ps[..i];
      var fa := TypeAlign(ps[i]);
      var fs := TypeSize(ps[i]);
      s := PadTo(s, fa) + fs;
      if fa > a { a := fa; }
      i := i + 1;
    }
    assert ps[..i] == ps;
    s := PadTo(s, a);
  }

  predicate HasField(fs: seq<Field>, name: string) {
    exists i :: 0 <= i < |fs| && fs[i].name == name
  }

  predicate DistinctNames(fs: seq<Field>) {
    forall i, j :: 0 <= i < j < |fs| ==> fs[i].name != fs[j].name
  }

  /** `layout_struct`: the size, and the offset of field `want`, or -1. */
  method LayoutStruct(t: Ty, want: string) returns (size: nat, off: int)
    requires t.Struct?
    ensures size == SizeOf(t)
    ensures !HasField(t.fields, want) ==> off == -1
    ensures DistinctNames(t.fields) ==>
      forall i :: 0 <= i < |t.fields| && t.fields[i].name == want ==> off == OffsetAt(t.fields, t.packed, i)
    decreases t, 0
  {
    hide PadTo, OffsetAt, FieldsEnd, FieldsAlign;
    var fs, packed := t.fields, t.packed;
    NoFields(packed);
    assert fs[..0] == [];
    size, off := 0, -1;
    var align := 1;
    var i := 0;
    while i < |fs|
      invariant 0 <= i <= |fs|
      invariant size == FieldsEnd(fs[..i], packed) && align == FieldsAlign(fs[..i], packed)
      invariant (forall k :: 0 <= k < i ==> fs[k].name != want) ==> off == -1
      invariant DistinctNames(fs) ==> forall k :: 0 <= k < i && fs[k].name == want ==> off == OffsetAt(fs, packed, k)
    {
      FieldsEndStep(fs, packed, i);
      FieldsAlignStep(fs, packed, i);
      OffsetStep(fs, packed, i);
      var fa := 1;
      if !packed {
        fa := TypeAlign(fs[i].ty);
        fa := if fs[i].raise > fa then fs[i].raise else fa;
      }
      var s := TypeSize(fs[i].ty);
      if !packed {
        size := PadTo(size, fa);
      }
      if fs[i].name == want {
        off := size;
      }
      size := size + s;
      if fa > align { align := fa; }
      i := i + 1;
    }
    assert fs[..i] == fs;
    if t.raised > align { align := t.raised; }
    size := PadTo(size, align);
  }

  /** `type_offset`. */
  method TypeOffset(t: Ty, name: string) returns (off: int)
    requires t.Struct? || t.Union?
    ensures t.Union? ==> off == 0
    ensures t.Struct? && DistinctNames(t.fields) ==>
      forall i :: 0 <= i < |t.fields| && t.fields[i].name == name ==> off == OffsetAt(t.fields, t.packed, i)
    ensures t.Struct? && !HasField(t.fields, name) ==> off == -1
  {
    if t.Union? {
      return 0;
    }
    var size;
    size, off := LayoutStruct(t, name);
  }
}
