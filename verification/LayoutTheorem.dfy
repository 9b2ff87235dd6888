/** The checker's layouts are well formed, and they are the layouts C gives the definitions the
    emitter writes, exactly for the types whose records the two read alike. */
module LayoutTheorem {
  import opened Wrappers
  import opened CLayout
  import opened Layout

  // ---------------------------------------------------------------- rounding, further

  lemma CeilUnique(x: nat, a: nat, y: nat)
    requires a > 0 && y % a == 0 && x <= y < x + a
    ensures Ceil(x, a) == y
  {
    CeilIsLeastMultiple(x, a);
    var c := Ceil(x, a);
    if c < y {
      assert c / a * a == c && y / a * a == y;
      MultiplesApart(c / a, y / a, a);
    }
  }

  lemma CeilAdd(m: nat, x: nat, a: nat)
    requires a > 0 && m % a == 0
    ensures Ceil(m + x, a) == m + Ceil(x, a)
  {
    CeilIsLeastMultiple(x, a);
    AddMod(m, Ceil(x, a), a);
    CeilUnique(m + x, a, m + Ceil(x, a));
  }

  lemma CeilTwice(x: nat, a: nat, b: nat)
    requires a > 0 && b > 0 && b % a == 0
    ensures Ceil(Ceil(x, a), b) == Ceil(x, b)
  {
    CeilIsLeastMultiple(x, a);
    CeilIsLeastMultiple(x, b);
    DividesThrough(Ceil(x, b), b, a);
    CeilUnique(Ceil(x, a), b, Ceil(x, b));
  }

  lemma CeilOne(x: nat)
    ensures Ceil(x, 1) == x
  {
  }

  lemma SmallPowers(k: Kind)
    ensures PowerOfTwo(ScalarSize(k)) && PowerOfTwo(1) && PowerOfTwo(4) && PowerOfTwo(8)
  {
    assert PowerOfTwo(2) && PowerOfTwo(4) && PowerOfTwo(8);
  }

  // ---------------------------------------------------------------- which types

  predicate RaisesPowers(f: Field) {
    f.raise == 0 || PowerOfTwo(f.raise)
  }

  /** Every `align(N)` is a power of two, as the checker demands, and no `Error` or
      `Allocator` is held by value. */
  predicate Regular(t: Ty) {
    match t
    case Scalar(_) => true
    case TwoWords => true
    case FallibleUnit => true
    case ErrorVal => false
    case Allocator => false
    case Tuple(ts) => RegularAll(ts)
    case Union(ts) => RegularAll(ts)
    case Struct(fs, _, raised) => (raised == 0 || PowerOfTwo(raised)) && RegularFields(fs)
    case Enum(cs) => RegularCases(cs)
    case _ => Regular(t.elem)
  }

  predicate RegularAll(ts: seq<Ty>) {
    forall i :: 0 <= i < |ts| ==> Regular(ts[i])
  }

  predicate RegularField(f: Field) {
    Regular(f.ty) && RaisesPowers(f)
  }

  predicate RegularFields(fs: seq<Field>) {
    forall i :: 0 <= i < |fs| ==> RegularField(fs[i])
  }

  predicate RegularCase(c: Case) {
    RegularAll(c.payload)
  }

  predicate RegularCases(cs: seq<Case>) {
    forall i :: 0 <= i < |cs| ==> RegularCase(cs[i])
  }

  // ---------------------------------------------------------------- alignments divide sizes

  /** Every alignment is a power of two that divides the size. */
  lemma {:induction false} PowerOfTwoDividesSize(t: Ty)
    requires Regular(t)
    ensures PowerOfTwo(AlignOf(t)) && SizeOf(t) % AlignOf(t) == 0
    decreases t
  {
    hide SizeOf;
    if !t.Array? { SizePadded(t); }
    SmallPowers(I8);
    match t
    case Scalar(k) => SmallPowers(k);
    case TwoWords =>
    case FallibleUnit =>
    case Array(e, n) =>
      PowerOfTwoDividesSize(e);
      ArraySize(e, n);
    case Optional(e) => PowerOfTwoDividesSize(e);
    case Fallible(e) => PowerOfTwoDividesSize(e);
    case Tuple(ts) => AllPowers(ts);
    case Union(ts) => AllPowers(ts);
    case Struct(fs, packed, raised) => FieldPowers(fs, packed);
    case Enum(cs) => CasePowers(cs);
  }

  /** Every size but an array's, an error's and an allocator's is rounded up to the alignment. */
  lemma SizePadded(t: Ty)
    requires !t.Array? && !t.Allocator?
    ensures SizeOf(t) % AlignOf(t) == 0
  {
    hide PadTo, AlignOf;
    PadAligned();
    match t
    case Scalar(_) => assert SizeOf(t) == AlignOf(t) by { ScalarSquare(t.kind); }
    case TwoWords => assert AlignOf(t) == 8 by { TwoWordsAlign(); }
    case ErrorVal => assert AlignOf(t) == 20 by { TwoWordsAlign(); }
    case FallibleUnit => assert AlignOf(t) == 8 by { TwoWordsAlign(); }
    case _ =>
  }

  lemma ScalarSquare(k: Kind)
    ensures SizeOf(Scalar(k)) == AlignOf(Scalar(k))
  {
  }

  lemma TwoWordsAlign()
    ensures AlignOf(TwoWords) == 8 && AlignOf(FallibleUnit) == 8 && AlignOf(ErrorVal) == 20
  {
  }

  lemma PadAligned()
    ensures forall off: nat, align: nat :: align > 0 ==> PadTo(off, align) % align == 0
  {
    PadIsCeil();
    forall off: nat, align: nat | align > 0 ensures PadTo(off, align) % align == 0 {
      CeilIsLeastMultiple(off, align);
    }
  }

  lemma ArraySize(e: Ty, n: nat)
    requires SizeOf(e) % AlignOf(e) == 0
    ensures SizeOf(Array(e, n)) % AlignOf(Array(e, n)) == 0
  {
    ProductMod(SizeOf(e), n, AlignOf(e));
  }

  lemma ProductMod(s: nat, n: nat, a: nat)
    requires a > 0 && s % a == 0
    ensures s * n % a == 0
  {
    var q := s / a;
    assert s * n == (q * n) * a;
    ModOfMultiple(q * n, a);
  }

  lemma {:induction false} AllPowers(ts: seq<Ty>)
    requires RegularAll(ts)
    ensures PowerOfTwo(AlignAll(ts))
    decreases ts
  {
    if ts != [] {
      AllPowers(ts[..|ts| - 1]);
      PowerOfTwoDividesSize(ts[|ts| - 1]);
    }
  }

  lemma {:induction false} FieldPowers(fs: seq<Field>, packed: bool)
    requires RegularFields(fs)
    ensures PowerOfTwo(FieldsAlign(fs, packed))
    decreases fs
  {
    if fs != [] {
      FieldPowers(fs[..|fs| - 1], packed);
      FieldPower(fs[|fs| - 1]);
    }
  }

  lemma {:induction false} FieldPower(f: Field)
    requires RegularField(f)
    ensures PowerOfTwo(FieldAlign(f))
    decreases f
  {
    PowerOfTwoDividesSize(f.ty);
  }

  lemma {:induction false} CasePowers(cs: seq<Case>)
    requires RegularCases(cs)
    ensures PowerOfTwo(AlignCases(cs))
    decreases cs
  {
    if cs != [] {
      CasePowers(cs[..|cs| - 1]);
      CasePower(cs[|cs| - 1]);
    }
  }

  lemma {:induction false} CasePower(c: Case)
    requires RegularCase(c)
    ensures PowerOfTwo(CaseAlign(c))
    decreases c
  {
    AllPowers(c.payload);
  }

  // ---------------------------------------------------------------- fields in their struct

  lemma {:induction false} FieldsInOrder(fs: seq<Field>, packed: bool, i: nat, j: nat)
    requires i < j <= |fs|
    ensures OffsetAt(fs, packed, i) + SizeOf(fs[i].ty) <= FieldsEnd(fs[..j], packed)
    ensures j < |fs| ==> FieldsEnd(fs[..j], packed) <= OffsetAt(fs, packed, j)
    decreases j
  {
    hide Ceil, PadTo;
    PadIsCeil();
    assert fs[..j][..j - 1] == fs[..j - 1] && fs[..i + 1][..i] == fs[..i];
    if i == j - 1 {
      assert fs[..j][|fs[..j]| - 1] == fs[i];
    } else {
      FieldsInOrder(fs, packed, i, j - 1);
    }
    if j < |fs| {
      assert fs[..j + 1][..j] == fs[..j];
      CeilIsLeastMultiple(FieldsEnd(fs[..j], packed), FieldAlign(fs[j]));
    }
  }

  lemma {:induction false} FieldAlignBounded(fs: seq<Field>, i: nat)
    requires i < |fs|
    ensures FieldAlign(fs[i]) <= FieldsAlign(fs, false)
    decreases |fs|
  {
    if i < |fs| - 1 {
      FieldAlignBounded(fs[..|fs| - 1], i);
    }
  }

  /** Fields lie in order, apart and inside; unpacked ones are aligned, and stay so in every
      element of an array that starts at an aligned address. */
  lemma FieldsWellPlaced(t: Ty, i: nat)
    requires t.Struct? && i < |t.fields|
    ensures OffsetAt(t.fields, t.packed, i) + SizeOf(t.fields[i].ty) <= SizeOf(t)
    ensures forall j :: i < j < |t.fields| ==>
      OffsetAt(t.fields, t.packed, i) + SizeOf(t.fields[i].ty) <= OffsetAt(t.fields, t.packed, j)
    ensures Regular(t) && !t.packed ==>
      forall base: nat, k: nat {:trigger base + k * SizeOf(t)} :: base % AlignOf(t) == 0 ==>
        (base + k * SizeOf(t) + OffsetAt(t.fields, t.packed, i)) % FieldAlign(t.fields[i]) == 0
  {
    var fs, packed := t.fields, t.packed;
    hide Ceil, PadTo;
    PadIsCeil();
    FieldsInOrder(fs, packed, i, |fs|);
    assert fs[..|fs|] == fs;
    CeilIsLeastMultiple(FieldsEnd(fs, packed), AlignOf(t));
    forall j | i < j < |fs| ensures OffsetAt(fs, packed, i) + SizeOf(fs[i].ty) <= OffsetAt(fs, packed, j) {
      FieldsInOrder(fs, packed, i, j);
    }
    if Regular(t) && !packed {
      forall base: nat, k: nat | base % AlignOf(t) == 0
        ensures (base + k * SizeOf(t) + OffsetAt(fs, packed, i)) % FieldAlign(fs[i]) == 0
      {
        FieldAlignedAt(t, i, base, k);
      }
    }
  }

  lemma FieldAlignedAt(t: Ty, i: nat, base: nat, k: nat)
    requires t.Struct? && i < |t.fields| && Regular(t) && !t.packed && base % AlignOf(t) == 0
    ensures (base + k * SizeOf(t) + OffsetAt(t.fields, t.packed, i)) % FieldAlign(t.fields[i]) == 0
  {
    var fs := t.fields;
    hide Ceil, PadTo, SizeOf, PowerOfTwo, FieldsAlign;
    PowerOfTwoDividesSize(t);
    FieldPower(fs[i]);
    FieldAlignBounded(fs, i);
    SmallerDivides(FieldAlign(fs[i]), AlignOf(t));
    OffsetAligned(fs, i);
    ElementAligned(base, k, SizeOf(t), OffsetAt(fs, false, i), FieldAlign(fs[i]), AlignOf(t));
  }

  lemma OffsetAligned(fs: seq<Field>, i: nat)
    requires i < |fs|
    ensures OffsetAt(fs, false, i) % FieldAlign(fs[i]) == 0
  {
    hide Ceil, PadTo;
    PadAligned();
    assert fs[..i + 1][..i] == fs[..i];
  }

  lemma ElementAligned(base: nat, k: nat, size: nat, off: nat, fa: nat, a: nat)
    requires fa > 0 && a > 0 && base % a == 0 && size % a == 0 && a % fa == 0 && off % fa == 0
    ensures (base + k * size + off) % fa == 0
  {
    ProductMod(size, k, a);
    assert size * k == k * size;
    AddMod(base, k * size, a);
    DividesThrough(base + k * size, a, fa);
    AddMod(base + k * size, off, fa);
  }

  // ---------------------------------------------------------------- the C definitions

  function Word(): CMember {
    CMember(Prim(VoidPtr), 0)
  }

  function StrC(): CTy {
    CStruct([Word(), Word()], false, 0)
  }

  function ErrorC(): CTy {
    CStruct([CMember(Prim(Int32), 0), CMember(StrC(), 0)], false, 0)
  }

  function BoolMember(): CMember {
    CMember(Prim(CBool), 0)
  }

  /** `c_type_name` of a scalar. */
  function NameInC(k: Kind): CName {
    match k
    case Bool => CBool
    case I8 => Int8
    case I16 => Int16
    case I32 => Int32
    case I64 => Int64
    case Isize => IntPtr
    case U8 => UInt8
    case U16 => UInt16
    case U32 => UInt32
    case ErrorCode => UInt32
    case U64 => UInt64
    case Usize => SizeT
    case F16 => Half
    case F32 => Float
    case F64 => Double
    case Char => UInt32
    case CStr => VoidPtr
    case Pointer => VoidPtr
    case Func => VoidPtr
  }

  /** The checker's sizes of scalars are those of the C types written for them. */
  lemma ScalarsAgree(k: Kind)
    ensures ScalarSize(k) == CBytes(NameInC(k))
  {
  }

  /** The type the emitter writes for `t`: `emit_struct`, `emit_union`, `emit_enum`, array and
      tuple structures, and the runtime's `LB_OPT` and `LB_RES`. */
  function ToC(t: Ty): CTy {
    match t
    case Scalar(k) => Prim(NameInC(k))
    case TwoWords => StrC()
    case ErrorVal => ErrorC()
    case Allocator => CStruct([Word(), CMember(Prim(Int32), 0)], false, 0)
    case Array(e, n) => CStruct([CMember(CArray(ToC(e), n), 0)], false, 0)
    case Optional(e) => CStruct([CMember(ToC(e), 0), BoolMember()], false, 0)
    case Fallible(e) => CStruct([CMember(ToC(e), 0), CMember(ErrorC(), 0), BoolMember()], false, 0)
    case FallibleUnit => CStruct([CMember(ErrorC(), 0), BoolMember()], false, 0)
    case Tuple(ts) => CStruct(PartMembers(ts), false, 0)
    case Struct(fs, packed, raised) => CStruct(if fs == [] then [CMember(Prim(Int32), 0)] else FieldMembers(fs), packed, raised)
    case Union(ts) => CUnion(if ts == [] then [Prim(Int32)] else Alternatives(ts))
    case Enum(cs) =>
      var u := Payloads(cs);
      CStruct([CMember(Prim(Int32), 0)] + (if u == [] then [] else [CMember(CUnion(u), 0)]), false, 0)
  }

  function PartMembers(ts: seq<Ty>): (r: seq<CMember>)
    ensures |r| == |ts|
  {
    if ts == [] then [] else PartMembers(ts[..|ts| - 1]) + [CMember(ToC(ts[|ts| - 1]), 0)]
  }

  function FieldMember(f: Field): CMember {
    CMember(ToC(f.ty), f.raise)
  }

  function FieldMembers(fs: seq<Field>): (r: seq<CMember>)
    ensures |r| == |fs|
  {
    if fs == [] then [] else FieldMembers(fs[..|fs| - 1]) + [FieldMember(fs[|fs| - 1])]
  }

  function Alternatives(ts: seq<Ty>): seq<CTy> {
    if ts == [] then [] else Alternatives(ts[..|ts| - 1]) + [ToC(ts[|ts| - 1])]
  }

  function PayloadC(c: Case): CTy {
    CStruct(PartMembers(c.payload), false, 0)
  }

  /** One alternative for each case that carries something. */
  function Payloads(cs: seq<Case>): seq<CTy> {
    if cs == [] then []
    else Payloads(cs[..|cs| - 1]) + if cs[|cs| - 1].payload == [] then [] else [PayloadC(cs[|cs| - 1])]
  }

  // ---------------------------------------------------------------- agreement

  predicate Agrees(t: Ty) {
    && SizeOf(t) == CSize(ToC(t)) && AlignOf(t) == CAlign(ToC(t))
    && (t.Struct? && t.fields != [] ==> OffsetsAgree(t))
  }

  predicate OffsetsAgree(t: Ty)
    requires t.Struct?
  {
    forall i :: 0 <= i < |t.fields| ==> OffsetAgrees(t, i)
  }

  predicate OffsetAgrees(t: Ty, i: nat)
    requires t.Struct? && i < |t.fields|
  {
    OffsetAt(t.fields, t.packed, i) == COffset(FieldMembers(t.fields), t.packed, i)
  }

  /** In a packed struct, field alignments ask for nothing that packing does not already give. */
  predicate PackedFits(fs: seq<Field>, raised: nat) {
    forall i :: 0 <= i < |fs| ==> PackedFieldFits(fs, raised, i)
  }

  predicate PackedFieldFits(fs: seq<Field>, raised: nat, i: nat)
    requires i < |fs|
  {
    fs[i].raise > 1 ==> fs[i].raise <= raised && FieldsEnd(fs[..i], true) % fs[i].raise == 0
  }

  /** No `Error`, `Allocator`, memberless struct or memberless union is held by value, and
      field alignments in packed structs change nothing. */
  predicate Plain(t: Ty) {
    match t
    case Scalar(_) => true
    case TwoWords => true
    case FallibleUnit => true
    case ErrorVal => false
    case Allocator => false
    case Tuple(ts) => PlainAll(ts)
    case Union(ts) => ts != [] && PlainAll(ts)
    case Struct(fs, packed, raised) => fs != [] && PlainFields(fs) && (packed ==> PackedFits(fs, raised))
    case Enum(cs) => PlainCases(cs)
    case _ => Plain(t.elem)
  }

  predicate PlainAll(ts: seq<Ty>) {
    forall i :: 0 <= i < |ts| ==> Plain(ts[i])
  }

  predicate PlainField(f: Field) {
    Plain(f.ty)
  }

  predicate PlainFields(fs: seq<Field>) {
    forall i :: 0 <= i < |fs| ==> PlainField(fs[i])
  }

  predicate PlainCase(c: Case) {
    PlainAll(c.payload)
  }

  predicate PlainCases(cs: seq<Case>) {
    forall i :: 0 <= i < |cs| ==> PlainCase(cs[i])
  }

  /** `t` agrees with C, and so does every type it holds by value. */
  predicate AgreesThroughout(t: Ty) {
    && Agrees(t)
    && match t
       case Tuple(ts) => ThroughoutAll(ts)
       case Union(ts) => ThroughoutAll(ts)
       case Struct(fs, _, _) => ThroughoutFields(fs)
       case Enum(cs) => ThroughoutCases(cs)
       case Array(e, _) => AgreesThroughout(e)
       case Optional(e) => AgreesThroughout(e)
       case Fallible(e) => AgreesThroughout(e)
       case _ => true
  }

  predicate ThroughoutAll(ts: seq<Ty>) {
    forall i :: 0 <= i < |ts| ==> AgreesThroughout(ts[i])
  }

  predicate ThroughoutField(f: Field) {
    AgreesThroughout(f.ty)
  }

  predicate ThroughoutFields(fs: seq<Field>) {
    forall i :: 0 <= i < |fs| ==> ThroughoutField(fs[i])
  }

  predicate ThroughoutCase(c: Case) {
    ThroughoutAll(c.payload)
  }

  predicate ThroughoutCases(cs: seq<Case>) {
    forall i :: 0 <= i < |cs| ==> ThroughoutCase(cs[i])
  }

  /** Every `align(N)` is a power of two. */
  predicate PowerAligned(t: Ty) {
    match t
    case Scalar(_) => true
    case TwoWords => true
    case FallibleUnit => true
    case ErrorVal => true
    case Allocator => true
    case Tuple(ts) => forall i :: 0 <= i < |ts| ==> PowerAligned(ts[i])
    case Union(ts) => forall i :: 0 <= i < |ts| ==> PowerAligned(ts[i])
    case Struct(fs, _, raised) =>
      (raised == 0 || PowerOfTwo(raised)) && forall i :: 0 <= i < |fs| ==> PowerAlignedField(fs[i])
    case Enum(cs) => forall i :: 0 <= i < |cs| ==> PowerAlignedCase(cs[i])
    case _ => PowerAligned(t.elem)
  }

  predicate PowerAlignedField(f: Field) {
    PowerAligned(f.ty) && RaisesPowers(f)
  }

  predicate PowerAlignedCase(c: Case) {
    forall i :: 0 <= i < |c.payload| ==> PowerAligned(c.payload[i])
  }
}
