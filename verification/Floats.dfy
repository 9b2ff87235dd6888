/** Floating-point constants in the emitted C (`float_constant_from_bits`, src/emit/call.cpp):
    hexadecimal literals that denote exactly the value of a bit pattern. */
module Floats {
  import opened Wrappers
  import opened Names

  datatype Kind = F16 | F32 | F64

  // ---------------------------------------------------------------- formats

  /** 2 to the number of mantissa bits. */
  function MantissaRange(k: Kind): nat {
    match k
    case F16 => 0x400
    case F32 => 0x80_0000
    case F64 => 0x10_0000_0000_0000
  }

  /** 2 to the number of exponent bits. */
  function ExponentRange(k: Kind): nat {
    match k
    case F16 => 0x20
    case F32 => 0x100
    case F64 => 0x800
  }

  function Bias(k: Kind): nat {
    ExponentRange(k) / 2 - 1
  }

  function Mantissa(k: Kind, bits: nat): (m: nat)
    ensures m < MantissaRange(k)
  {
    bits % MantissaRange(k)
  }

  function Exponent(k: Kind, bits: nat): nat {
    bits / MantissaRange(k) % ExponentRange(k)
  }

  /** Bits above the sign are ignored. */
  predicate Negative(k: Kind, bits: nat) {
    bits / (MantissaRange(k) * ExponentRange(k)) % 2 == 1
  }

  predicate Finite(k: Kind, bits: nat) {
    Exponent(k, bits) != ExponentRange(k) - 1
  }

  // ---------------------------------------------------------------- the value of the bits

  function Pow2(e: int): (r: real)
    ensures r > 0.0
    decreases if e < 0 then -e else e
  {
    if e == 0 then 1.0 else if e > 0 then 2.0 * Pow2(e - 1) else Pow2(e + 1) / 2.0
  }

  /** Section 3.4 of IEEE 754-2008, without the sign. */
  function Magnitude(k: Kind, bits: nat): real {
    var fraction := Mantissa(k, bits) as real / MantissaRange(k) as real;
    if Exponent(k, bits) == 0 then fraction * Pow2(1 - Bias(k))
    else (1.0 + fraction) * Pow2(Exponent(k, bits) - Bias(k))
  }

  // ---------------------------------------------------------------- the constant

  function HexDigit(d: nat): char
    requires d < 16
  {
    "0123456789abcdef"[d]
  }

  function Hex(v: nat, digits: nat): (s: string)
    ensures |s| == digits
  {
    if digits == 0 then "" else Hex(v / 16, digits - 1) + [HexDigit(v % 16)]
  }

  lemma HexLast(v: nat, n: nat, tail: string)
    ensures Hex(v, n + 1) + tail == Hex(v / 16, n) + ([HexDigit(v % 16)] + tail)
  {
  }

  method HexDigits(v: nat, digits: nat) returns (s: string)
    ensures s == Hex(v, digits)
  {
    hide Hex, HexDigit;
    var a := new char[digits](_ => '0');
    assert Hex(v, digits) + a[digits..] == Hex(v, digits);
    var rest := v;
    var i := digits;
    while i > 0
      invariant 0 <= i <= digits
      invariant Hex(rest, i) + a[i..] == Hex(v, digits)
    {
      i := i - 1;
      ghost var tail := a[i + 1..];
      a[i] := HexDigit(rest % 16);
      assert a[i..] == [HexDigit(rest % 16)] + tail;
      HexLast(rest, i, tail);
      rest := rest / 16;
    }
    s := a[..];
    assert Hex(rest, 0) + a[0..] == a[..];
  }

  function Digits(k: Kind): nat {
    match k
    case F16 => 3
    case F32 => 6
    case F64 => 13
  }

  /** 2 to the bits by which the mantissa is moved to fill whole digits. */
  function Filler(k: Kind): nat {
    match k
    case F16 => 4
    case F32 => 2
    case F64 => 1
  }

  function Suffix(k: Kind): string {
    match k
    case F16 => "f16"
    case F32 => "f"
    case F64 => ""
  }

  function TypeName(k: Kind): string {
    match k
    case F16 => "_Float16"
    case F32 => "float"
    case F64 => "double"
  }

  function SignedDecimal(e: int): string {
    if e < 0 then "-" + Decimal(-e) else Decimal(e)
  }

  function Sign(negative: bool): string {
    if negative then "-" else ""
  }

  /** The digits of a finite constant, between `0x` and the suffix. */
  function FiniteBody(k: Kind, bits: nat): string {
    var e, m := Exponent(k, bits), Mantissa(k, bits);
    if e == 0 && m == 0 then "0p0"
    else (if e == 0 then "0." else "1.") + Hex(m * Filler(k), Digits(k)) + "p"
         + SignedDecimal(if e == 0 then 1 - Bias(k) else e - Bias(k))
  }

  function FiniteConstant(k: Kind, bits: nat): string {
    "(" + Sign(Negative(k, bits)) + "0x" + FiniteBody(k, bits) + Suffix(k) + ")"
  }

  method FloatConstantFromBits(k: Kind, bits: nat) returns (s: string)
    ensures Finite(k, bits) ==> s == FiniteConstant(k, bits)
    ensures !Finite(k, bits) && Mantissa(k, bits) == 0 ==>
      s == "((" + TypeName(k) + ")(" + Sign(Negative(k, bits)) + "__builtin_inf()))"
  {
    var negative, exponent, mantissa := Negative(k, bits), Exponent(k, bits), Mantissa(k, bits);
    var sign := Sign(negative);
    if exponent == ExponentRange(k) - 1 {
      if mantissa == 0 {
        return "((" + TypeName(k) + ")(" + sign + "__builtin_inf()))";
      }
      var half := MantissaRange(k) / 2;
      var payload := mantissa % half;
      var builtin := (if mantissa / half == 1 then "__builtin_nan" else "__builtin_nans") + (if k == F64 then "" else "f");
      var text := HexDigits(if k == F16 then payload * 8192 else payload, 16);
      return "((" + TypeName(k) + ")(" + sign + builtin + "(\"0x" + text + "\")))";
    }
    var body;
    if exponent == 0 && mantissa == 0 {
      body := "0p0";
    } else {
      var text := HexDigits(mantissa * Filler(k), Digits(k));
      body := (if exponent == 0 then "0." else "1.") + text + "p"
        + SignedDecimal(if exponent == 0 then 1 - Bias(k) else exponent - Bias(k));
    }
    s := "(" + sign + "0x" + body + Suffix(k) + ")";
  }

  // ---------------------------------------------------------------- C's reading

  predicate IsHex(c: char) {
    IsDigit(c) || 'a' <= c <= 'f' || 'A' <= c <= 'F'
  }

  function HexDigitValue(c: char): nat
    requires IsHex(c)
  {
    if IsDigit(c) then (c - '0') as nat else if 'a' <= c <= 'f' then (c - 'a') as nat + 10 else (c - 'A') as nat + 10
  }

  function HexValue(s: string): nat {
    if s == "" || !IsHex(s[|s| - 1]) then 0 else 16 * HexValue(s[..|s| - 1]) + HexDigitValue(s[|s| - 1])
  }

  function HexLength(t: string): (n: nat)
    ensures n <= |t|
  {
    if t == "" || !IsHex(t[0]) then 0 else 1 + HexLength(t[1..])
  }

  datatype Constant = Constant(negative: bool, magnitude: real, kind: Kind)

  function KindOfSuffix(s: string): Option<Kind> {
    if s == "" then Some(F64) else if s == "f" then Some(F32) else if s == "f16" then Some(F16) else None
  }

  /** Decimal digits and a suffix. */
  function ReadDigits(u: string): Option<(nat, Kind)> {
    var n := DigitsLength(u);
    var kind := KindOfSuffix(u[n..]);
    if n == 0 || kind == None then None else Some((ValueOf(u[..n]), kind.value))
  }

  /** `p`, an exponent, and a suffix, after the digits of a constant. */
  function ReadExponent(t: string): Option<(int, Kind)> {
    if |t| < 2 || t[0] != 'p' then None
    else if t[1] == '-' then
      var r := ReadDigits(t[2..]);
      if r == None then None else Some((-(r.value.0 as int), r.value.1))
    else
      var r := ReadDigits(t[1..]);
      if r == None then None else Some((r.value.0 as int, r.value.1))
  }

  /** The digits before the point, those after it if there is one, and the rest. */
  function SplitDigits(t: string): (string, string, string) {
    var n := HexLength(t);
    var whole, rest := t[..n], t[n..];
    if rest == "" || rest[0] != '.' then (whole, "", rest)
    else
      var m := HexLength(rest[1..]);
      (whole, rest[1..][..m], rest[1..][m..])
  }

  /** The number whose hexadecimal digits are these, times a power of two. */
  function Scaled(whole: string, fraction: string, e: int): real {
    (HexValue(whole) as real + HexValue(fraction) as real / Pow2(4 * |fraction|)) * Pow2(e)
  }

  /** Section 6.4.4.2 of ISO C11: digits, perhaps a point and more digits, times a power of two. */
  function ReadHexFloat(t: string): Option<(real, Kind)> {
    var (whole, fraction, tail) := SplitDigits(t);
    var e := ReadExponent(tail);
    if whole + fraction == "" || e == None then None
    else Some((Scaled(whole, fraction, e.value.0), e.value.1))
  }

  /** A constant in parentheses, perhaps negated. */
  function ReadConstant(t: string): Option<Constant> {
    if |t| < 2 || t[0] != '(' || t[|t| - 1] != ')' then None
    else
      var u := t[1..|t| - 1];
      var negative := u != "" && u[0] == '-';
      var v := if negative then u[1..] else u;
      if |v| < 2 || v[0] != '0' || v[1] != 'x' then None
      else
        var r := ReadHexFloat(v[2..]);
        if r == None then None else Some(Constant(negative, r.value.0, r.value.1))
  }

  // ---------------------------------------------------------------- round trip

  lemma HexDigitReads(d: nat)
    requires d < 16
    ensures IsHex(HexDigit(d)) && HexDigitValue(HexDigit(d)) == d
  {
  }

  function Pow16(n: nat): (r: nat)
    ensures r > 0
  {
    if n == 0 then 1 else 16 * Pow16(n - 1)
  }

  lemma {:induction false} HexReads(v: nat, digits: nat)
    requires v < Pow16(digits)
    ensures HexValue(Hex(v, digits)) == v && forall i :: 0 <= i < digits ==> IsHex(Hex(v, digits)[i])
    decreases digits
  {
    if digits > 0 {
      HexReads(v / 16, digits - 1);
      HexDigitReads(v % 16);
      var s := Hex(v, digits);
      assert s[..digits - 1] == Hex(v / 16, digits - 1) && s[digits - 1] == HexDigit(v % 16);
    }
  }

  lemma {:induction false} HexEnds(digits: string, t: string)
    requires (forall i :: 0 <= i < |digits| ==> IsHex(digits[i])) && (t == "" || !IsHex(t[0]))
    ensures HexLength(digits + t) == |digits|
    decreases |digits|
  {
    if digits == "" {
      assert digits + t == t;
    } else {
      assert (digits + t)[1..] == digits[1..] + t;
      HexEnds(digits[1..], t);
    }
  }

  lemma SuffixReads(k: Kind)
    ensures KindOfSuffix(Suffix(k)) == Some(k) && (Suffix(k) == "" || !IsDigit(Suffix(k)[0]))
  {
  }

  lemma DigitsRead(n: nat, k: Kind)
    ensures ReadDigits(Decimal(n) + Suffix(k)) == Some((n, k))
  {
    SuffixReads(k);
    hide Decimal, ValueOf, DigitsLength, Suffix, KindOfSuffix;
    var d := Decimal(n);
    var u := d + Suffix(k);
    DigitsEnd(d, Suffix(k));
    DecimalValue(n);
    assert u[..|d|] == d && u[|d|..] == Suffix(k);
  }

  lemma ExponentReads(e: int, k: Kind)
    ensures ReadExponent("p" + SignedDecimal(e) + Suffix(k)) == Some((e, k))
  {
    hide Decimal, ReadDigits, Suffix;
    var t := "p" + SignedDecimal(e) + Suffix(k);
    if e < 0 {
      DigitsRead(-e, k);
      assert t == "p-" + (Decimal(-e) + Suffix(k)) && t[1] == '-';
      assert t[2..] == Decimal(-e) + Suffix(k);
    } else {
      DigitsRead(e, k);
      assert t == "p" + (Decimal(e) + Suffix(k)) && t[1] == Decimal(e)[0] && IsDigit(t[1]);
      assert t[1..] == Decimal(e) + Suffix(k);
    }
  }

  lemma PointSplits(whole: char, digits: string, tail: string)
    requires IsHex(whole) && (forall i :: 0 <= i < |digits| ==> IsHex(digits[i])) && tail != "" && tail[0] == 'p'
    ensures SplitDigits([whole] + "." + digits + tail) == ([whole], digits, tail)
  {
    hide HexLength;
    var t, rest := [whole] + "." + digits + tail, "." + digits + tail;
    assert t == [whole] + rest;
    HexEnds([whole], rest);
    assert t[..1] == [whole] && t[1..] == rest;
    HexEnds(digits, tail);
    var after := digits + tail;
    assert rest[1..] == after && after[..|digits|] == digits && after[|digits|..] == tail;
  }

  lemma NoPointSplits(whole: char, tail: string)
    requires IsHex(whole) && tail != "" && tail[0] == 'p'
    ensures SplitDigits([whole] + tail) == ([whole], "", tail)
  {
    hide HexLength;
    var t := [whole] + tail;
    HexEnds([whole], tail);
    assert t[..1] == [whole] && t[1..] == tail;
  }

  lemma HexFloatReads(whole: char, digits: string, e: int, k: Kind)
    requires IsHex(whole) && forall i :: 0 <= i < |digits| ==> IsHex(digits[i])
    ensures ReadHexFloat([whole] + "." + digits + ("p" + SignedDecimal(e) + Suffix(k)))
         == Some((Scaled([whole], digits, e), k))
  {
    hide SignedDecimal, ReadExponent, Scaled, Suffix, SplitDigits;
    var tail := "p" + SignedDecimal(e) + Suffix(k);
    ExponentReads(e, k);
    PointSplits(whole, digits, tail);
    assert [whole] + digits != "";
  }

  lemma OneHexDigit(c: char)
    requires IsHex(c)
    ensures HexValue([c]) == HexDigitValue(c)
  {
    assert [c][..0] == "";
  }

  lemma ZeroReads(k: Kind)
    ensures ReadHexFloat("0p0" + Suffix(k)) == Some((0.0, k))
  {
    assert Decimal(0) == "0";
    ExponentReads(0, k);
    ZeroScaled();
    hide ReadExponent, Suffix, SplitDigits, Scaled, Decimal;
    var tail := "p" + SignedDecimal(0) + Suffix(k);
    assert "0p0" + Suffix(k) == ['0'] + tail;
    NoPointSplits('0', tail);
    assert ['0'] + "" != "" && ['0'] == "0";
  }

  lemma ZeroScaled()
    ensures Scaled("0", "", 0) == 0.0
  {
    OneHexDigit('0');
    assert "0" == ['0'];
  }

  lemma {:induction false} PowersAgree(n: nat)
    ensures Pow2(4 * n) == Pow16(n) as real
  {
    if n > 0 {
      PowersAgree(n - 1);
      assert Pow2(4 * n) == 2.0 * Pow2(4 * n - 1) == 4.0 * Pow2(4 * n - 2) == 8.0 * Pow2(4 * n - 3) == 16.0 * Pow2(4 * n - 4);
    }
  }

  lemma DigitsFit(k: Kind)
    ensures Pow16(Digits(k)) == Filler(k) * MantissaRange(k)
  {
    assert Pow16(3) == 0x1000;
    assert Pow16(6) == 0x100_0000;
    assert Pow16(9) == 0x10_0000_0000;
    assert Pow16(13) == 0x10_0000_0000_0000;
  }

  /** The digits after the point are the mantissa, as a fraction. */
  lemma FractionExact(k: Kind, m: nat)
    requires m < MantissaRange(k)
    ensures HexValue(Hex(m * Filler(k), Digits(k))) as real / Pow2(4 * Digits(k)) == m as real / MantissaRange(k) as real
    ensures forall i :: 0 <= i < Digits(k) ==> IsHex(Hex(m * Filler(k), Digits(k))[i])
  {
    hide Hex, HexValue, Pow2, Pow16;
    DigitsFit(k);
    PowersAgree(Digits(k));
    HexReads(m * Filler(k), Digits(k));
  }

  lemma MagnitudeScaled(k: Kind, bits: nat)
    ensures var e := Exponent(k, bits);
            Magnitude(k, bits) == Scaled([if e == 0 then '0' else '1'], Hex(Mantissa(k, bits) * Filler(k), Digits(k)),
                                         if e == 0 then 1 - Bias(k) else e - Bias(k))
  {
    hide Hex, HexValue, Pow2;
    FractionExact(k, Mantissa(k, bits));
    OneHexDigit('0');
    OneHexDigit('1');
  }

  lemma BodyReads(k: Kind, bits: nat)
    ensures ReadHexFloat(FiniteBody(k, bits) + Suffix(k)) == Some((Magnitude(k, bits), k))
  {
    hide ReadHexFloat, Hex, HexValue, Pow2, SignedDecimal, Suffix, Scaled, Magnitude, Exponent, Mantissa;
    var e, m := Exponent(k, bits), Mantissa(k, bits);
    if e == 0 && m == 0 {
      ZeroReads(k);
      ZeroMagnitude(k, bits);
    } else {
      var whole, digits := if e == 0 then '0' else '1', Hex(m * Filler(k), Digits(k));
      var power := if e == 0 then 1 - Bias(k) else e - Bias(k);
      FractionExact(k, m);
      HexFloatReads(whole, digits, power, k);
      MagnitudeScaled(k, bits);
      BodyText(k, bits);
    }
  }

  lemma ZeroMagnitude(k: Kind, bits: nat)
    requires Exponent(k, bits) == 0 && Mantissa(k, bits) == 0
    ensures Magnitude(k, bits) == 0.0
  {
    hide Pow2;
  }

  lemma BodyText(k: Kind, bits: nat)
    requires !(Exponent(k, bits) == 0 && Mantissa(k, bits) == 0)
    ensures var e := Exponent(k, bits);
            FiniteBody(k, bits) + Suffix(k)
            == [if e == 0 then '0' else '1'] + "." + Hex(Mantissa(k, bits) * Filler(k), Digits(k))
               + ("p" + SignedDecimal(if e == 0 then 1 - Bias(k) else e - Bias(k)) + Suffix(k))
  {
    hide Hex, SignedDecimal, Suffix, Exponent, Mantissa;
    assert "0." == ['0'] + "." && "1." == ['1'] + ".";
  }

  /** For every finite pattern, normal or subnormal, the constant denotes the sign and exactly
      the magnitude of the bits, in the type of the bits. */
  lemma ConstantIsExact(k: Kind, bits: nat)
    requires Finite(k, bits)
    ensures ReadConstant(FiniteConstant(k, bits)) == Some(Constant(Negative(k, bits), Magnitude(k, bits), k))
  {
    BodyReads(k, bits);
    hide ReadHexFloat, FiniteBody, Suffix, Magnitude, Negative;
    var body := FiniteBody(k, bits) + Suffix(k);
    var sign := Sign(Negative(k, bits));
    var v := "0x" + body;
    var t := FiniteConstant(k, bits);
    assert t == "(" + (sign + v) + ")";
    assert t[1..|t| - 1] == sign + v;
    assert v[2..] == body;
    if Negative(k, bits) {
      assert (sign + v)[1..] == v;
    } else {
      assert sign + v == v;
    }
  }
}
