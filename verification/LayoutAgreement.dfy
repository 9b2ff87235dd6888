/** The checker's layout of a type is the layout of its C definition, throughout, exactly when
    the type is plain. */
module LayoutAgreement {
  import opened Wrappers
  import opened CLayout
  import opened Layout
  import opened LayoutTheorem

  // ---------------------------------------------------------------- adding members

  lemma MemberAdded(ms: seq<CMember>, m: CMember, packed: bool)
    ensures CEnd(ms + [m], packed) == Ceil(CEnd(ms, packed), CMemberAlign(m, packed)) + CSize(m.ty)
    ensures CMembersAlign(ms + [m], packed) == Max(CMembersAlign(ms, packed), CMemberAlign(m, packed))
  {
    assert (ms + [m])[..|ms + [m]| - 1] == ms;
  }

  lemma AlternativeAdded(ts: seq<CTy>, t: CTy)
    ensures CUnionEnd(ts + [t]) == Max(CUnionEnd(ts), CSize(t))
    ensures CUnionAlign(ts + [t]) == Max(CUnionAlign(ts), CAlign(t))
  {
    assert (ts + [t])[..|ts + [t]| - 1] == ts;
  }

  lemma OneMember(m: CMember)
    ensures CEnd([m], false) == CSize(m.ty) && CMembersAlign([m], false) == CMemberAlign(m, false)
  {
    assert [] + [m] == [m];
    MemberAdded([], m, false);
    CeilUnique(0, CMemberAlign(m, false), 0);
  }

  lemma TwoMembers(m: CMember, n: CMember)
    ensures CEnd([m, n], false) == Ceil(CSize(m.ty), CMemberAlign(n, false)) + CSize(n.ty)
    ensures CMembersAlign([m, n], false) == Max(CMemberAlign(m, false), CMemberAlign(n, false))
  {
    assert [m] + [n] == [m, n];
    OneMember(m);
    MemberAdded([m], n, false);
  }

  lemma StrRecord()
    ensures CSize(StrC()) == 16 && CAlign(StrC()) == 8
  {
    hide Ceil;
    TwoMembers(Word(), Word());
    CeilUnique(8, 8, 8);
    CeilUnique(16, 8, 16);
  }

  lemma ErrorRecord()
    ensures CSize(ErrorC()) == 24 && CAlign(ErrorC()) == 8
  {
    hide Ceil;
    StrRecord();
    TwoMembers(CMember(Prim(Int32), 0), CMember(StrC(), 0));
    CeilUnique(4, 8, 8);
    CeilUnique(24, 8, 24);
  }

  lemma AllocatorRecord()
    ensures CSize(ToC(Allocator)) == 16
  {
    hide Ceil;
    TwoMembers(Word(), CMember(Prim(Int32), 0));
    CeilUnique(8, 4, 8);
    CeilUnique(12, 8, 16);
  }

  // ---------------------------------------------------------------- plain types agree

  lemma {:induction false} PlainIsRegular(t: Ty)
    requires Plain(t) && PowerAligned(t)
    ensures Regular(t)
    decreases t
  {
    match t
    case Tuple(ts) => forall i | 0 <= i < |ts| ensures Regular(ts[i]) { PlainIsRegular(ts[i]); }
    case Union(ts) => forall i | 0 <= i < |ts| ensures Regular(ts[i]) { PlainIsRegular(ts[i]); }
    case Struct(fs, _, _) =>
      forall i | 0 <= i < |fs| ensures RegularField(fs[i]) {
        assert PlainField(fs[i]) && PowerAlignedField(fs[i]);
        PlainIsRegular(fs[i].ty);
      }
    case Enum(cs) => forall i | 0 <= i < |cs| ensures RegularCase(cs[i]) { PlainCaseIsRegular(cs[i]); }
    case Array(e, _) => PlainIsRegular(e);
    case Optional(e) => PlainIsRegular(e);
    case Fallible(e) => PlainIsRegular(e);
    case _ =>
  }

  lemma {:induction false} PlainCaseIsRegular(c: Case)
    requires PlainCase(c) && PowerAlignedCase(c)
    ensures RegularCase(c)
    decreases c
  {
    forall i | 0 <= i < |c.payload| ensures Regular(c.payload[i]) { PlainIsRegular(c.payload[i]); }
  }

  lemma {:induction false} PlainAgrees(t: Ty)
    requires Plain(t) && PowerAligned(t)
    ensures AgreesThroughout(t) && Agrees(t)
    decreases t, 1
  {
    hide Agrees, SizeOf, AlignOf, CSize, CAlign, ToC;
    match t
    case Scalar(_) => LeafAgrees(t);
    case TwoWords => LeafAgrees(t);
    case FallibleUnit => LeafAgrees(t);
    case Array(e, n) => ArrayAgrees(t);
    case Optional(e) =>
      PlainAgrees(e);
      OptionalAgrees(e);
    case Fallible(e) =>
      PlainAgrees(e);
      FallibleAgrees(e);
    case Tuple(ts) =>
      PartsAgree(ts);
      TupleAgrees(ts);
    case Union(ts) =>
      AlternativesAgree(ts);
      UnionAgrees(ts);
    case Struct(_, _, _) => StructAgrees(t);
    case Enum(cs) => EnumAgrees(t);
  }

  lemma LeafAgrees(t: Ty)
    requires t.Scalar? || t.TwoWords? || t.FallibleUnit?
    ensures Agrees(t)
  {
    hide Ceil, PadTo;
    PadIsCeil();
    StrRecord();
    ErrorRecord();
    TwoMembers(CMember(ErrorC(), 0), BoolMember());
    CeilOne(24);
  }

  lemma OptionalAgrees(e: Ty)
    requires Agrees(e)
    ensures Agrees(Optional(e))
  {
    hide Ceil, PadTo, CEnd, CMembersAlign;
    PadIsCeil();
    OptionalMembers(ToC(e));
  }

  lemma OptionalMembers(v: CTy)
    ensures var ms := [CMember(v, 0), BoolMember()];
            CEnd(ms, false) == CSize(v) + 1 && CMembersAlign(ms, false) == CAlign(v)
  {
    hide Ceil, CEnd, CMembersAlign, CSize, CAlign;
    TwoMembers(CMember(v, 0), BoolMember());
    OneByte();
    CeilOne(CSize(v));
  }

  lemma TupleAgrees(ts: seq<Ty>)
    requires EndOf(ts) == CEnd(PartMembers(ts), false) && AlignAll(ts) == CMembersAlign(PartMembers(ts), false)
    ensures Agrees(Tuple(ts))
  {
    hide Ceil, PadTo, EndOf, CEnd;
    PadIsCeil();
  }

  lemma UnionAgrees(ts: seq<Ty>)
    requires ts != []
    requires Largest(ts) == CUnionEnd(Alternatives(ts)) && AlignAll(ts) == CUnionAlign(Alternatives(ts))
    ensures Agrees(Union(ts))
  {
    hide Ceil, PadTo, Largest, CUnionEnd;
    PadIsCeil();
  }

  lemma {:induction false} ArrayAgrees(t: Ty)
    requires t.Array? && Plain(t) && PowerAligned(t)
    ensures AgreesThroughout(t)
    decreases t, 0
  {
    hide Ceil, PadTo;
    PadIsCeil();
    PlainAgrees(t.elem);
    PlainIsRegular(t.elem);
    PowerOfTwoDividesSize(t.elem);
    OneMember(CMember(CArray(ToC(t.elem), t.length), 0));
    ProductMod(SizeOf(t.elem), t.length, AlignOf(t.elem));
    CeilUnique(SizeOf(t), AlignOf(t), SizeOf(t));
  }

  lemma FallibleAgrees(e: Ty)
    requires Agrees(e)
    ensures Agrees(Fallible(e))
  {
    hide Ceil, PadTo, CEnd, CMembersAlign;
    PadIsCeil();
    FallibleMembers(ToC(e));
  }

  lemma FallibleMembers(v: CTy)
    ensures var ms := [CMember(v, 0), CMember(ErrorC(), 0), BoolMember()];
            CEnd(ms, false) == Ceil(CSize(v), 8) + 24 + 1 && CMembersAlign(ms, false) == Max(CAlign(v), 8)
  {
    hide Ceil, CEnd, CMembersAlign, CSize, CAlign, ErrorC;
    var value, error := CMember(v, 0), CMember(ErrorC(), 0);
    ErrorRecord();
    TwoMembers(value, error);
    assert [value, error] + [BoolMember()] == [value, error, BoolMember()];
    MemberAdded([value, error], BoolMember(), false);
    assert CSize(Prim(CBool)) == 1 && CAlign(Prim(CBool)) == 1 by { OneByte(); }
    CeilOne(Ceil(CSize(v), 8) + 24);
  }

  lemma OneByte()
    ensures CSize(Prim(CBool)) == 1 && CAlign(Prim(CBool)) == 1
  {
  }

  lemma {:induction false} PartsAgree(ts: seq<Ty>)
    requires PlainAll(ts) && forall i :: 0 <= i < |ts| ==> PowerAligned(ts[i])
    ensures EndOf(ts) == CEnd(PartMembers(ts), false) && AlignAll(ts) == CMembersAlign(PartMembers(ts), false)
    ensures ThroughoutAll(ts)
    decreases ts, 0
  {
    hide Ceil, PadTo, SizeOf, AlignOf, CSize, CAlign, ToC, AgreesThroughout;
    PadIsCeil();
    if ts != [] {
      var n := |ts| - 1;
      PartsAgree(ts[..n]);
      PlainAgrees(ts[n]);
      MemberAdded(PartMembers(ts[..n]), CMember(ToC(ts[n]), 0), false);
      forall i | 0 <= i < |ts| ensures AgreesThroughout(ts[i]) {
        assert i < n ==> ts[i] == ts[..n][i];
      }
    }
  }

  lemma {:induction false} AlternativesAgree(ts: seq<Ty>)
    requires PlainAll(ts) && forall i :: 0 <= i < |ts| ==> PowerAligned(ts[i])
    ensures Largest(ts) == CUnionEnd(Alternatives(ts)) && AlignAll(ts) == CUnionAlign(Alternatives(ts))
    ensures ThroughoutAll(ts)
    decreases ts, 0
  {
    hide SizeOf, AlignOf, CSize, CAlign, ToC, AgreesThroughout;
    if ts != [] {
      var n := |ts| - 1;
      AlternativesAgree(ts[..n]);
      PlainAgrees(ts[n]);
      AlternativeAdded(Alternatives(ts[..n]), ToC(ts[n]));
      forall i | 0 <= i < |ts| ensures AgreesThroughout(ts[i]) {
        assert i < n ==> ts[i] == ts[..n][i];
      }
    }
  }

  // ---------------------------------------------------------------- structs

  lemma {:induction false} MembersTake(fs: seq<Field>, i: nat)
    requires i <= |fs|
    ensures FieldMembers(fs)[..i] == FieldMembers(fs[..i])
    ensures i < |fs| ==> FieldMembers(fs)[i] == FieldMember(fs[i])
    decreases |fs|
  {
    if i == |fs| {
      assert fs[..i] == fs;
    } else {
      var n := |fs| - 1;
      if i < n {
        MembersTake(fs[..n], i);
        assert fs[..n][..i] == fs[..i];
      }
    }
  }

  lemma FitsPrefix(fs: seq<Field>, raised: nat, n: nat)
    requires PackedFits(fs, raised) && n <= |fs|
    ensures PackedFits(fs[..n], raised)
  {
    forall i | 0 <= i < n ensures PackedFieldFits(fs[..n], raised, i) {
      assert PackedFieldFits(fs, raised, i) && fs[..n][..i] == fs[..i];
    }
  }

  /** How the fields placed so far compare: with `packed`, field alignments that fit add nothing. */
  lemma {:induction false} FieldsAgree(fs: seq<Field>, packed: bool, raised: nat)
    requires forall i :: 0 <= i < |fs| ==> Agrees(fs[i].ty)
    requires packed ==> PackedFits(fs, raised)
    ensures FieldsEnd(fs, packed) == CEnd(FieldMembers(fs), packed)
    ensures Max(FieldsAlign(fs, packed), raised) == Max(CMembersAlign(FieldMembers(fs), packed), raised)
    decreases |fs|
  {
    hide Ceil, PadTo, SizeOf, AlignOf, CSize, CAlign, ToC;
    PadIsCeil();
    if fs != [] {
      var n := |fs| - 1;
      var init, f := fs[..n], fs[n];
      if packed { FitsPrefix(fs, raised, n); }
      FieldsAgree(init, packed, raised);
      MemberAdded(FieldMembers(init), FieldMember(f), packed);
      if packed {
        assert PackedFieldFits(fs, raised, n);
        CeilOne(FieldsEnd(init, true));
        if f.raise > 1 { CeilUnique(FieldsEnd(init, true), f.raise, FieldsEnd(init, true)); }
      }
    }
  }

  lemma OffsetsFollow(t: Ty, i: nat)
    requires t.Struct? && i < |t.fields|
    requires forall k :: 0 <= k < |t.fields| ==> Agrees(t.fields[k].ty)
    requires t.packed ==> PackedFits(t.fields, t.raised)
    ensures OffsetAgrees(t, i)
  {
    hide Ceil, PadTo;
    PadIsCeil();
    var fs := t.fields;
    var init := fs[..i];
    if t.packed { FitsPrefix(fs, t.raised, i); }
    FieldsAgree(init, t.packed, t.raised);
    MembersTake(fs, i);
    assert fs[..i + 1][..i] == init;
    if t.packed {
      assert PackedFieldFits(fs, t.raised, i);
      CeilOne(FieldsEnd(init, true));
      if fs[i].raise > 1 { CeilUnique(FieldsEnd(init, true), fs[i].raise, FieldsEnd(init, true)); }
    }
  }

  lemma {:induction false} StructAgrees(t: Ty)
    requires t.Struct? && Plain(t) && PowerAligned(t)
    ensures AgreesThroughout(t)
    decreases t, 0
  {
    hide Agrees, OffsetAgrees, SizeOf, AlignOf, CSize, CAlign, ToC, FieldsEnd, CEnd, FieldsAlign, CMembersAlign;
    var fs := t.fields;
    forall i | 0 <= i < |fs| ensures ThroughoutField(fs[i]) && Agrees(fs[i].ty) {
      assert PlainField(fs[i]) && PowerAlignedField(fs[i]);
      PlainAgrees(fs[i].ty);
    }
    FieldsAgree(fs, t.packed, t.raised);
    forall i | 0 <= i < |fs| ensures OffsetAgrees(t, i) {
      OffsetsFollow(t, i);
    }
    FieldsMakeStruct(t);
  }

  lemma FieldsMakeStruct(t: Ty)
    requires t.Struct? && t.fields != [] && OffsetsAgree(t)
    requires FieldsEnd(t.fields, t.packed) == CEnd(FieldMembers(t.fields), t.packed)
    requires Max(FieldsAlign(t.fields, t.packed), t.raised) == Max(CMembersAlign(FieldMembers(t.fields), t.packed), t.raised)
    ensures Agrees(t)
  {
    hide Ceil, PadTo, FieldsEnd, CEnd, FieldsAlign, CMembersAlign, OffsetsAgree, FieldMembers;
    PadIsCeil();
  }

  // ---------------------------------------------------------------- enums

  lemma {:induction false} CasesAgree(cs: seq<Case>)
    requires PlainCases(cs) && forall i :: 0 <= i < |cs| ==> PowerAlignedCase(cs[i])
    ensures LargestCase(cs) == CUnionEnd(Payloads(cs)) && AlignCases(cs) == CUnionAlign(Payloads(cs))
    ensures ThroughoutCases(cs)
    decreases cs, 0
  {
    hide Ceil, PadTo;
    PadIsCeil();
    if cs != [] {
      var n := |cs| - 1;
      CasesAgree(cs[..n]);
      CaseAgrees(cs[n]);
      AlternativeAdded(Payloads(cs[..n]), PayloadC(cs[n]));
      if cs[n].payload == [] {
        assert Payloads(cs) == Payloads(cs[..n]);
        CeilOne(0);
      }
      forall i | 0 <= i < |cs| ensures ThroughoutCase(cs[i]) {
        assert i < n ==> cs[i] == cs[..n][i];
      }
    }
  }

  lemma {:induction false} CaseAgrees(c: Case)
    requires PlainCase(c) && PowerAlignedCase(c)
    ensures CaseSize(c) == CSize(PayloadC(c)) && CaseAlign(c) == CAlign(PayloadC(c)) && ThroughoutCase(c)
    decreases c, 0
  {
    hide Ceil, PadTo;
    PadIsCeil();
    PartsAgree(c.payload);
  }

  /** The checker's formula, and C's structure of a tag and a union aligned to `a`. */
  lemma EnumFormula(a: nat, psz: nat)
    requires PowerOfTwo(a)
    ensures Ceil(Ceil(4, Max(4, a)) + psz, Max(4, a)) == Ceil(Ceil(4, a) + Ceil(psz, a), Max(4, a))
  {
    hide Ceil;
    SmallPowers(I8);
    if a >= 4 {
      CeilIsLeastMultiple(4, a);
      CeilIsLeastMultiple(psz, a);
      CeilAdd(Ceil(4, a), psz, a);
      AddMod(Ceil(4, a), Ceil(psz, a), a);
      CeilUnique(Ceil(4, a) + Ceil(psz, a), a, Ceil(4, a) + Ceil(psz, a));
    } else {
      SmallerDivides(a, 4);
      CeilUnique(4, a, 4);
      CeilUnique(4, 4, 4);
      CeilAdd(4, psz, 4);
      CeilTwice(psz, a, 4);
      CeilAdd(4, Ceil(psz, a), 4);
    }
  }

  /** C's structure of a tag, and a union if any case carries something. */
  lemma TaggedUnion(u: seq<CTy>, tagged: CTy)
    requires tagged == CStruct([CMember(Prim(Int32), 0)] + (if u == [] then [] else [CMember(CUnion(u), 0)]), false, 0)
    ensures CAlign(tagged) == Max(4, CUnionAlign(u))
    ensures CSize(tagged) == Ceil(Ceil(4, CUnionAlign(u)) + Ceil(CUnionEnd(u), CUnionAlign(u)), Max(4, CUnionAlign(u)))
  {
    hide Ceil;
    var tag, un := CMember(Prim(Int32), 0), CMember(CUnion(u), 0);
    if u == [] {
      assert [tag] + [] == [tag];
      OneMember(tag);
      CeilOne(4);
      CeilOne(0);
    } else {
      assert [tag] + [un] == [tag, un];
      TwoMembers(tag, un);
    }
  }

  lemma {:induction false} EnumAgrees(t: Ty)
    requires t.Enum? && Plain(t) && PowerAligned(t)
    ensures AgreesThroughout(t)
    decreases t, 0
  {
    hide Ceil, PadTo, LargestCase, CUnionEnd, CUnionAlign, AlignCases, CSize, CAlign, Payloads;
    PadIsCeil();
    CasesAgree(t.cases);
    PlainIsRegular(t);
    CasePowers(t.cases);
    TaggedUnion(Payloads(t.cases), ToC(t));
    EnumFormula(AlignCases(t.cases), LargestCase(t.cases));
  }

  // ---------------------------------------------------------------- agreeing types are plain

  lemma {:induction false} AgreeingIsPlain(t: Ty)
    requires AgreesThroughout(t)
    ensures Plain(t)
    decreases t
  {
    ErrorRecord();
    AllocatorRecord();
    hide Ceil, PadTo, FieldsEnd, AlignOf, CAlign, OffsetsAgree;
    match t
    case Tuple(ts) => forall i | 0 <= i < |ts| ensures Plain(ts[i]) { AgreeingIsPlain(ts[i]); }
    case Union(ts) =>
      forall i | 0 <= i < |ts| ensures Plain(ts[i]) { AgreeingIsPlain(ts[i]); }
      if ts == [] { EmptyUnionDiffers(); }
    case Struct(fs, packed, raised) =>
      forall i | 0 <= i < |fs| ensures PlainField(fs[i]) {
        assert ThroughoutField(fs[i]);
        AgreeingIsPlain(fs[i].ty);
      }
      if fs == [] { EmptyStructDiffers(packed, raised); }
      if packed && fs != [] {
        forall i | 0 <= i < |fs| ensures PackedFieldFits(fs, raised, i) {
          PackedMustFit(t, i);
        }
      }
    case Enum(cs) => forall i | 0 <= i < |cs| ensures PlainCase(cs[i]) { AgreeingCaseIsPlain(cs[i]); }
    case Array(e, _) => AgreeingIsPlain(e);
    case Optional(e) => AgreeingIsPlain(e);
    case Fallible(e) => AgreeingIsPlain(e);
    case _ =>
  }

  lemma {:induction false} AgreeingCaseIsPlain(c: Case)
    requires ThroughoutCase(c)
    ensures PlainCase(c)
    decreases c
  {
    forall i | 0 <= i < |c.payload| ensures Plain(c.payload[i]) { AgreeingIsPlain(c.payload[i]); }
  }

  /** A union with no members occupies nothing in the checker, and an `int` in C. */
  lemma EmptyUnionDiffers()
    ensures SizeOf(Union([])) == 0 && CSize(ToC(Union([]))) == 4
  {
    hide Ceil;
    assert [] + [Prim(Int32)] == [Prim(Int32)];
    AlternativeAdded([], Prim(Int32));
    CeilUnique(4, 4, 4);
    CeilUnique(0, 1, 0);
  }

  lemma EmptyStructDiffers(packed: bool, raised: nat)
    ensures SizeOf(Struct([], packed, raised)) == 0 && CSize(ToC(Struct([], packed, raised))) >= 4
  {
    var m := CMember(Prim(Int32), 0);
    var t := Struct([], packed, raised);
    CeilUnique(0, AlignOf(t), 0);
    assert [] + [m] == [m];
    MemberAdded([], m, packed);
    CeilIsLeastMultiple(CEnd([m], packed), CAlign(ToC(t)));
  }

  /** `Error` and `Allocator`: 20 and 12 bytes in the checker, 24 and 16 in C. */
  lemma RuntimeRecordsDiffer()
    ensures SizeOf(ErrorVal) == 20 && CSize(ToC(ErrorVal)) == 24
    ensures SizeOf(Allocator) == 12 && CSize(ToC(Allocator)) == 16
  {
    ErrorRecord();
    AllocatorRecord();
  }

  /** `packed struct { a: u8, b: u32 align(4) }`: `b` is at 1 in the checker, and at 4 in C, where
      an `aligned` attribute on the member has the last word. */
  lemma PackedAlignDiffers(a: Field, b: Field)
    requires a == Field("a", Scalar(U8), 0) && b == Field("b", Scalar(U32), 4)
    ensures OffsetAt([a, b], true, 1) == 1 && COffset(FieldMembers([a, b]), true, 1) == 4
    ensures PowerAligned(Struct([a, b], true, 0))
    ensures !Agrees(Struct([a, b], true, 0)) && !Plain(Struct([a, b], true, 0))
  {
    hide OffsetAt, COffset, FieldMembers, Ceil, Agrees, Plain;
    PackedPair(a, b);
    CeilUnique(1, 4, 4);
    PackedPairDiffers(a, b);
    assert PowerOfTwo(2) && PowerOfTwo(4);
    assert PowerAlignedField(a) && PowerAlignedField(b);
  }

  /** The second of two packed fields: right after the first, or where C rounds that up to. */
  lemma PackedPair(a: Field, b: Field)
    requires a.ty.Scalar? && a.raise == 0
    ensures OffsetAt([a, b], true, 1) == SizeOf(a.ty)
    ensures COffset(FieldMembers([a, b]), true, 1) == Ceil(SizeOf(a.ty), Max(1, b.raise))
  {
    hide Ceil;
    var fs := [a, b];
    assert fs[..1] == [a] && fs[..2] == fs && [a][..0] == [];
    assert FieldStart([a], true) == FieldsEnd([], true) == 0;
    assert FieldsEnd([a], true) == FieldSize(a) == SizeOf(a.ty);
    var ms, m := FieldMembers(fs), FieldMember(a);
    MembersTake(fs, 1);
    MembersTake(fs, 0);
    assert ms[..1] == [] + [m];
    MemberAdded([], m, true);
    CeilUnique(0, CMemberAlign(m, true), 0);
    assert CEnd(ms[..1], true) == CSize(ToC(a.ty)) == SizeOf(a.ty);
  }

  lemma PackedPairDiffers(a: Field, b: Field)
    requires OffsetAt([a, b], true, 1) != COffset(FieldMembers([a, b]), true, 1)
    requires SizeOf(a.ty) % Max(1, b.raise) != 0 && b.raise > 1
    ensures !Agrees(Struct([a, b], true, 0)) && !Plain(Struct([a, b], true, 0))
  {
    hide OffsetAt, COffset, FieldMembers, Ceil, SizeOf, AlignOf, CSize, CAlign, ToC;
    var t := Struct([a, b], true, 0);
    assert !OffsetAgrees(t, 1);
    assert !PackedFieldFits(t.fields, t.raised, 1);
  }

  lemma {:induction false} RaiseBounded(ms: seq<CMember>, packed: bool, i: nat)
    requires i < |ms|
    ensures ms[i].raised <= CMembersAlign(ms, packed)
    decreases |ms|
  {
    if i < |ms| - 1 { RaiseBounded(ms[..|ms| - 1], packed, i); }
  }

  lemma {:induction false} PackedAlign(fs: seq<Field>)
    ensures FieldsAlign(fs, true) == 1
  {
    if fs != [] { PackedAlign(fs[..|fs| - 1]); }
  }

  /** Equal offsets up to a field mean C had nothing to pad before it. */
  lemma {:induction false} PackedMustFit(t: Ty, i: nat)
    requires t.Struct? && t.packed && AgreesThroughout(t) && i < |t.fields|
    ensures PackedFieldFits(t.fields, t.raised, i)
    decreases i
  {
    hide Ceil, PadTo;
    PadIsCeil();
    var fs, ms := t.fields, FieldMembers(t.fields);
    MembersTake(fs, i);
    RaiseBounded(ms, true, i);
    PackedAlign(fs);
    assert OffsetAgrees(t, i);
    assert fs[..i + 1][..i] == fs[..i];
    if i > 0 {
      assert OffsetAgrees(t, i - 1) && ThroughoutField(fs[i - 1]);
      FieldAgreeing(fs[i - 1]);
      PackedEnds(t, i - 1);
    }
    CeilIsLeastMultiple(CEnd(ms[..i], true), CMemberAlign(ms[i], true));
  }

  lemma CEndStep(ms: seq<CMember>, packed: bool, k: nat)
    requires k < |ms|
    ensures CEnd(ms[..k + 1], packed) == COffset(ms, packed, k) + CSize(ms[k].ty)
  {
    assert ms[..k + 1] == ms[..k] + [ms[k]];
    hide CEnd, CSize, Ceil, CMemberAlign;
    MemberAdded(ms[..k], ms[k], packed);
  }

  lemma FieldAgreeing(f: Field)
    requires ThroughoutField(f)
    ensures Agrees(f.ty)
  {
    hide Agrees;
  }

  lemma PackedEnds(t: Ty, k: nat)
    requires t.Struct? && k < |t.fields| && OffsetAgrees(t, k) && Agrees(t.fields[k].ty)
    ensures FieldsEnd(t.fields[..k + 1], t.packed) == CEnd(FieldMembers(t.fields)[..k + 1], t.packed)
  {
    hide FieldsEnd, CEnd, SizeOf, AlignOf, CSize, CAlign, ToC, OffsetAt, COffset;
    MembersTake(t.fields, k);
    FieldsEndStep(t.fields, t.packed, k);
    CEndStep(FieldMembers(t.fields), t.packed, k);
  }

  /** The two layouts agree on a type and on all it is made of exactly when it is plain. */
  lemma LayoutAgreesIffPlain(t: Ty)
    requires PowerAligned(t)
    ensures AgreesThroughout(t) <==> Plain(t)
  {
    if Plain(t) { PlainAgrees(t); }
    if AgreesThroughout(t) { AgreeingIsPlain(t); }
  }
}
