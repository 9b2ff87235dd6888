/** C string literals (src/emit/cgen.cpp), read back as ISO C11 does: trigraphs (section
    5.2.1.1), then the literal and its escapes (sections 6.4.4.4 and 6.4.5). */
module CEscaping {
  import opened Wrappers

  newtype Byte = x: int | 0 <= x < 256

  const QUOTE: Byte := 34
  const QUESTION: Byte := 63
  const SLASH: Byte := 92
  const ZERO: Byte := 48
  const NEWLINE: Byte := 10
  const TAB: Byte := 9
  const RETURN: Byte := 13

  function EscapedByte(c: Byte): seq<Byte> {
    if c == SLASH || c == QUOTE || c == QUESTION then [SLASH, c]
    else if c == NEWLINE then [SLASH, 110]
    else if c == TAB then [SLASH, 116]
    else if c == RETURN then [SLASH, 114]
    else if c < 32 || c >= 127 then [SLASH, ZERO + c / 64, ZERO + c / 8 % 8, ZERO + c % 8]
    else [c]
  }

  function EscapedBytes(s: seq<Byte>): seq<Byte> {
    if s == [] then [] else EscapedByte(s[0]) + EscapedBytes(s[1..])
  }

  function Escaped(s: seq<Byte>): seq<Byte> {
    [QUOTE] + EscapedBytes(s) + [QUOTE]
  }

  method CEscape(s: seq<Byte>) returns (out: seq<Byte>)
    ensures out == Escaped(s)
  {
    hide EscapedByte;
    out := [QUOTE];
    var i := 0;
    while i < |s|
      invariant 0 <= i <= |s| && out + EscapedBytes(s[i..]) == [QUOTE] + EscapedBytes(s)
    {
      assert s[i..][1..] == s[i + 1..] && s[i..][0] == s[i];
      assert EscapedBytes(s[i..]) == EscapedByte(s[i]) + EscapedBytes(s[i + 1..]);
      ghost var before := out;
      out := AppendEscaped(out, s[i]);
      assert out + EscapedBytes(s[i + 1..]) == before + (EscapedByte(s[i]) + EscapedBytes(s[i + 1..]));
      i := i + 1;
    }
    assert s[i..] == [] && out + [] == out;
    out := out + [QUOTE];
  }

  /** One byte of the literal. */
  method AppendEscaped(text: seq<Byte>, c: Byte) returns (out: seq<Byte>)
    ensures out == text + EscapedByte(c)
  {
    if c == SLASH || c == QUOTE || c == QUESTION {
      out := text + [SLASH, c];
    } else if c == NEWLINE {
      out := text + [SLASH, 110];
    } else if c == TAB {
      out := text + [SLASH, 116];
    } else if c == RETURN {
      out := text + [SLASH, 114];
    } else if c < 32 || c >= 127 {
      out := text + [SLASH, ZERO + c / 64, ZERO + c / 8 % 8, ZERO + c % 8];
    } else {
      out := text + [c];
    }
  }

  // ---------------------------------------------------------------- the C compiler

  /** What `??c` stands for. */
  function Trigraph(c: Byte): Option<Byte> {
    match c as int
    case 61 => Some(35)    // #
    case 40 => Some(91)    // [
    case 47 => Some(92)    // \
    case 41 => Some(93)    // ]
    case 39 => Some(94)    // ^
    case 60 => Some(123)   // {
    case 33 => Some(124)   // |
    case 62 => Some(125)   // }
    case 45 => Some(126)   // ~
    case _ => None
  }

  /** Translation phase 1. */
  function ReplaceTrigraphs(t: seq<Byte>): seq<Byte> {
    if t == [] then []
    else if |t| >= 3 && t[0] == QUESTION && t[1] == QUESTION && Trigraph(t[2]).Some? then
      [Trigraph(t[2]).value] + ReplaceTrigraphs(t[3..])
    else [t[0]] + ReplaceTrigraphs(t[1..])
  }

  predicate IsOctal(c: Byte) {
    48 <= c <= 55
  }

  function SimpleEscape(c: Byte): Option<Byte> {
    match c as int
    case 39 => Some(39)
    case 34 => Some(34)
    case 63 => Some(63)
    case 92 => Some(92)
    case 97 => Some(7)
    case 98 => Some(8)
    case 102 => Some(12)
    case 110 => Some(10)
    case 114 => Some(13)
    case 116 => Some(9)
    case 118 => Some(11)
    case _ => None
  }

  /** Up to three octal digits, as many as there are. */
  function OctalLength(t: seq<Byte>): (n: nat)
    ensures n <= |t| && n <= 3 && forall i :: 0 <= i < n ==> IsOctal(t[i])
  {
    if t == [] || !IsOctal(t[0]) then 0
    else if |t| == 1 || !IsOctal(t[1]) then 1
    else if |t| == 2 || !IsOctal(t[2]) then 2
    else 3
  }

  function OctalValue(t: seq<Byte>): nat
    requires forall i :: 0 <= i < |t| ==> IsOctal(t[i])
  {
    if t == [] then 0
    else
      assert IsOctal(t[|t| - 1]);
      8 * OctalValue(t[..|t| - 1]) + (t[|t| - 1] as int - 48)
  }

  /** The bytes of a literal whose opening quote has been read, up to its closing quote, which
      ends `t`.  Hexadecimal and universal escapes do not occur. */
  function ReadBody(t: seq<Byte>): Option<seq<Byte>> {
    if t == [] || t[0] == NEWLINE then None
    else if t[0] == QUOTE then (if |t| == 1 then Some([]) else None)
    else if t[0] != SLASH then Prepend(t[0], ReadBody(t[1..]))
    else if |t| == 1 then None
    else if SimpleEscape(t[1]).Some? then Prepend(SimpleEscape(t[1]).value, ReadBody(t[2..]))
    else
      var n := OctalLength(t[1..]);
      if n == 0 || OctalValue(t[1..1 + n]) >= 256 then None
      else Prepend(OctalValue(t[1..1 + n]) as Byte, ReadBody(t[1 + n..]))
  }

  function ReadLiteral(t: seq<Byte>): Option<seq<Byte>> {
    if t == [] || t[0] != QUOTE then None else ReadBody(t[1..])
  }

  // ---------------------------------------------------------------- no trigraph

  predicate NoDoubleQuestion(t: seq<Byte>) {
    forall i :: 0 <= i < |t| - 1 ==> !(t[i] == QUESTION && t[i + 1] == QUESTION)
  }

  lemma {:induction false} NothingReplaced(t: seq<Byte>)
    requires NoDoubleQuestion(t)
    ensures ReplaceTrigraphs(t) == t
    decreases |t|
  {
    if t != [] {
      assert |t| >= 2 ==> !(t[0] == QUESTION && t[0 + 1] == QUESTION);
      NothingReplaced(t[1..]);
      assert t == [t[0]] + t[1..];
    }
  }

  lemma {:induction false} QuestionsApart(s: seq<Byte>)
    ensures NoDoubleQuestion(EscapedBytes(s)) && (s != [] ==> EscapedBytes(s) != [] && EscapedBytes(s)[0] != QUESTION)
    decreases |s|
  {
    if s != [] {
      var e, rest := EscapedByte(s[0]), EscapedBytes(s[1..]);
      QuestionsApart(s[1..]);
      assert EscapedBytes(s) == e + rest;
      assert NoDoubleQuestion(e) && e[0] != QUESTION;
    }
  }

  /** No `??` survives escaping, so no trigraph is replaced. */
  lemma NoTrigraph(s: seq<Byte>)
    ensures ReplaceTrigraphs(Escaped(s)) == Escaped(s)
  {
    QuestionsApart(s);
    var b := EscapedBytes(s);
    assert Escaped(s) == [QUOTE] + b + [QUOTE];
    NothingReplaced(Escaped(s));
  }

  // ---------------------------------------------------------------- round trip

  lemma ReadEscapedByte(c: Byte, t: seq<Byte>)
    ensures ReadBody(EscapedByte(c) + t) == Prepend(c, ReadBody(t))
  {
    var e := EscapedByte(c);
    var all := e + t;
    assert all[|e|..] == t;
    if |e| == 4 {
      ReadOctal(c, t);
    }
  }

  lemma ReadOctal(c: Byte, t: seq<Byte>)
    requires c < 32 || c >= 127
    ensures ReadBody([SLASH, ZERO + c / 64, ZERO + c / 8 % 8, ZERO + c % 8] + t) == Prepend(c, ReadBody(t))
  {
    var a, b, d := ZERO + c / 64, ZERO + c / 8 % 8, ZERO + c % 8;
    var all := [SLASH, a, b, d] + t;
    assert IsOctal(a) && IsOctal(b) && IsOctal(d);
    assert SimpleEscape(a) == None;
    assert all[1..4] == [a, b, d];
    assert all[1..][0] == a && all[1..][1] == b && all[1..][2] == d;
    OctalOfThree(a, b, d);
    assert all[4..] == t;
  }

  lemma OctalOfThree(a: Byte, b: Byte, d: Byte)
    requires IsOctal(a) && IsOctal(b) && IsOctal(d)
    ensures OctalValue([a, b, d]) == 64 * (a as int - 48) + 8 * (b as int - 48) + (d as int - 48)
  {
    assert [a, b, d][..2] == [a, b] && [a, b][..1] == [a] && [a][..0] == [];
    assert OctalValue([a]) == a as int - 48;
    assert OctalValue([a, b]) == 8 * (a as int - 48) + (b as int - 48);
  }

  lemma {:induction false} ReadEscapedBytes(s: seq<Byte>)
    ensures ReadBody(EscapedBytes(s) + [QUOTE]) == Some(s)
    decreases |s|
  {
    if s == [] {
      assert EscapedBytes(s) + [QUOTE] == [QUOTE];
    } else {
      ReadEscapedBytes(s[1..]);
      ReadEscapedByte(s[0], EscapedBytes(s[1..]) + [QUOTE]);
      assert EscapedBytes(s) + [QUOTE] == EscapedByte(s[0]) + (EscapedBytes(s[1..]) + [QUOTE]);
      assert s == [s[0]] + s[1..];
    }
  }

  /** Every text survives: the compiler reads the literal as exactly the bytes escaped. */
  lemma EscapeRoundTrip(s: seq<Byte>)
    ensures ReadLiteral(ReplaceTrigraphs(Escaped(s))) == Some(s)
  {
    NoTrigraph(s);
    ReadEscapedBytes(s);
    assert Escaped(s) == [QUOTE] + (EscapedBytes(s) + [QUOTE]);
    assert Escaped(s)[1..] == EscapedBytes(s) + [QUOTE];
  }
}
