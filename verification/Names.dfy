/** The C names the emitter generates (src/emit/cgen.cpp), and the readers that show nothing is
    lost in them. */
module Names {
  import opened Wrappers

  // ---------------------------------------------------------------- type spellings

  predicate IsAlnum(c: char) {
    'a' <= c <= 'z' || 'A' <= c <= 'Z' || '0' <= c <= '9'
  }

  /** The letter for a byte that is not alphanumeric. */
  function SpellingCode(c: char): (r: char)
    ensures 'a' <= r <= 'z'
  {
    match c
    case '_' => 'u'
    case '.' => 'd'
    case '*' => 'p'
    case '?' => 'q'
    case '[' => 'l'
    case ']' => 'r'
    case '(' => 'o'
    case ')' => 'c'
    case ',' => 'm'
    case ' ' => 's'
    case '!' => 'f'
    case '@' => 'a'
    case '-' => 'h'
    case '>' => 'g'
    case _ => 'x'
  }

  function CodedByte(code: char): Option<char> {
    match code
    case 'u' => Some('_')
    case 'd' => Some('.')
    case 'p' => Some('*')
    case 'q' => Some('?')
    case 'l' => Some('[')
    case 'r' => Some(']')
    case 'o' => Some('(')
    case 'c' => Some(')')
    case 'm' => Some(',')
    case 's' => Some(' ')
    case 'f' => Some('!')
    case 'a' => Some('@')
    case 'h' => Some('-')
    case 'g' => Some('>')
    case _ => None
  }

  /** Bytes with a letter of their own; every other byte shares `x`. */
  predicate Spellable(c: char) {
    IsAlnum(c) || c in "_.*?[](), !@->"
  }

  predicate AllSpellable(s: string) {
    forall i :: 0 <= i < |s| ==> Spellable(s[i])
  }

  function SanitizeByte(c: char): string {
    if IsAlnum(c) then [c] else ['_', SpellingCode(c)]
  }

  function Sanitize(s: string): string {
    if s == "" then "" else Sanitize(s[..|s| - 1]) + SanitizeByte(s[|s| - 1])
  }

  method SanitizeTypeName(s: string) returns (o: string)
    ensures o == Sanitize(s)
  {
    o := "";
    var i := 0;
    while i < |s|
      invariant 0 <= i <= |s| && o == Sanitize(s[..i])
    {
      assert s[..i + 1][..i] == s[..i];
      var c := s[i];
      if 'a' <= c <= 'z' || 'A' <= c <= 'Z' || '0' <= c <= '9' {
        o := o + [c];
      } else {
        o := o + "_" + [SpellingCode(c)];
      }
      i := i + 1;
    }
    assert s[..i] == s;
  }

  lemma {:induction false} SanitizeFront(s: string)
    requires s != ""
    ensures Sanitize(s) == SanitizeByte(s[0]) + Sanitize(s[1..])
    decreases |s|
  {
    if |s| > 1 {
      var n := |s| - 1;
      SanitizeFront(s[..n]);
      assert s[..n][1..] == s[1..][..n - 1];
    } else {
      assert s[..0] == "" && s[1..] == "";
    }
  }

  /** Read a sanitized name: an alphanumeric byte is itself, `_` and a letter the byte it names. */
  function Unsanitize(o: string): Option<string> {
    if o == "" then Some("")
    else if o[0] != '_' then
      var rest := Unsanitize(o[1..]);
      if rest.Some? then Some([o[0]] + rest.value) else None
    else if |o| == 1 || CodedByte(o[1]) == None then None
    else
      var rest := Unsanitize(o[2..]);
      if rest.Some? then Some([CodedByte(o[1]).value] + rest.value) else None
  }

  lemma CodesInvert(c: char)
    requires !IsAlnum(c)
    ensures CodedByte(SpellingCode(c)) == if Spellable(c) then Some(c) else None
  {
  }

  lemma UnsanitizeByte(c: char, t: string)
    ensures Unsanitize(SanitizeByte(c) + t) == if Spellable(c) then Prepend(c, Unsanitize(t)) else None
  {
    hide Spellable, SpellingCode, CodedByte;
    var b := SanitizeByte(c);
    assert (b + t)[|b|..] == t;
    if IsAlnum(c) {
      assert Spellable(c) by { AlnumSpellable(c); }
      assert c != '_';
    } else {
      CodesInvert(c);
    }
  }

  lemma AlnumSpellable(c: char)
    requires IsAlnum(c)
    ensures Spellable(c)
  {
  }

  lemma AllSpellableFront(s: string)
    requires s != ""
    ensures AllSpellable(s) <==> Spellable(s[0]) && AllSpellable(s[1..])
  {
    hide Spellable;
    assert s == [s[0]] + s[1..];
  }

  /** A sanitized spelling reads back exactly when every byte has its own letter. */
  lemma {:induction false} SanitizeRoundTrip(s: string)
    ensures Unsanitize(Sanitize(s)) == if AllSpellable(s) then Some(s) else None
    decreases |s|
  {
    if s != "" {
      SanitizeFront(s);
      hide Sanitize, Unsanitize, SanitizeByte, Spellable, AllSpellable;
      SanitizeRoundTrip(s[1..]);
      UnsanitizeByte(s[0], Sanitize(s[1..]));
      AllSpellableFront(s);
      assert s == [s[0]] + s[1..];
    }
  }

  /** Two spellings sanitize alike only if they are one; it takes bytes with no letter of their
      own to collide. */
  lemma SanitizeInjective(s: string, t: string)
    requires AllSpellable(s) && AllSpellable(t)
    ensures Sanitize(s) == Sanitize(t) <==> s == t
  {
    SanitizeRoundTrip(s);
    SanitizeRoundTrip(t);
  }

  lemma UnlistedBytesCollide()
    ensures Sanitize("#") == Sanitize("$") == "_x"
  {
    assert "#"[..0] == "" && "$"[..0] == "";
  }

  /** A sanitized name holds no `__` and does not end in `_`, whatever the bytes. */
  lemma {:induction false} SanitizedShape(s: string)
    ensures forall i :: 0 <= i < |Sanitize(s)| - 1 ==> !(Sanitize(s)[i] == '_' && Sanitize(s)[i + 1] == '_')
    ensures Sanitize(s) != "" ==> Sanitize(s)[|Sanitize(s)| - 1] != '_'
    decreases |s|
  {
    if s != "" { SanitizedShape(s[..|s| - 1]); }
  }

  // ---------------------------------------------------------------- tuples and functions

  /** The sanitized pieces of a name, each after `__`. */
  function Pieces(ts: seq<string>): string {
    if ts == [] then "" else Pieces(ts[..|ts| - 1]) + "__" + Sanitize(ts[|ts| - 1])
  }

  method TupCName(components: seq<string>) returns (s: string)
    ensures s == "lb_t" + Pieces(components)
  {
    s := AddPieces("lb_t", components);
  }

  method AddPieces(prefix: string, ts: seq<string>) returns (s: string)
    ensures s == prefix + Pieces(ts)
  {
    s := prefix;
    var i := 0;
    while i < |ts|
      invariant 0 <= i <= |ts| && s == prefix + Pieces(ts[..i])
    {
      assert ts[..i + 1][..i] == ts[..i];
      var o := SanitizeTypeName(ts[i]);
      s := s + "__";
      s := s + o;
      i := i + 1;
    }
    assert ts[..i] == ts;
  }

  datatype Returned = UnitOrNever | Spelled(spelling: string)

  /** What the name of a function type tells of its result: `()` and `never` are one. */
  function ReturnedPiece(r: Returned): string {
    match r
    case UnitOrNever => "unit"
    case Spelled(t) => Sanitize(t)
  }

  method FnCName(params: seq<string>, result: Returned) returns (s: string)
    ensures s == "lb_fn" + Pieces(params) + "__to__" + ReturnedPiece(result)
  {
    s := AddPieces("lb_fn", params);
    s := s + "__to__";
    match result
    case UnitOrNever => s := s + "unit";
    case Spelled(t) =>
      var o := SanitizeTypeName(t);
      s := s + o;
  }

  /** Read one sanitized piece: up to `__`, or to the end. */
  function ReadPiece(t: string): (r: (string, string))
    ensures t == r.0 + r.1
  {
    if t == "" then ("", "")
    else if t[0] != '_' then
      var (p, rest) := ReadPiece(t[1..]);
      ([t[0]] + p, rest)
    else if |t| >= 2 && t[1] != '_' then
      var (p, rest) := ReadPiece(t[2..]);
      (t[..2] + p, rest)
    else ("", t)
  }

  predicate Separated(t: string) {
    |t| >= 2 && t[0] == '_' && t[1] == '_'
  }

  predicate EndsPiece(rest: string) {
    rest == "" || Separated(rest)
  }

  lemma ReadByte(c: char, t: string)
    ensures ReadPiece(SanitizeByte(c) + t) == (SanitizeByte(c) + ReadPiece(t).0, ReadPiece(t).1)
  {
    var b := SanitizeByte(c);
    assert (b + t)[|b|..] == t && (b + t)[..|b|] == b;
  }

  lemma {:induction false} ReadSanitized(s: string, rest: string)
    requires EndsPiece(rest)
    ensures ReadPiece(Sanitize(s) + rest) == (Sanitize(s), rest)
    decreases |s|
  {
    if s == "" {
      assert Sanitize(s) + rest == rest;
    } else {
      SanitizeFront(s);
      hide Sanitize, ReadPiece, SanitizeByte;
      ReadSanitized(s[1..], rest);
      ReadByte(s[0], Sanitize(s[1..]) + rest);
      assert Sanitize(s) + rest == SanitizeByte(s[0]) + (Sanitize(s[1..]) + rest);
    }
  }

  lemma {:induction false} PiecesFront(ts: seq<string>)
    requires ts != []
    ensures Pieces(ts) == "__" + Sanitize(ts[0]) + Pieces(ts[1..])
    decreases |ts|
  {
    var n := |ts| - 1;
    if n > 0 {
      PiecesFront(ts[..n]);
      assert ts[..n][1..] == ts[1..][..n - 1];
    } else {
      assert ts[..0] == [] && ts[1..] == [];
    }
  }

  predicate EachSpellable(ts: seq<string>) {
    forall i :: 0 <= i < |ts| ==> AllSpellable(ts[i])
  }

  lemma PiecesEnd(ts: seq<string>)
    ensures EndsPiece(Pieces(ts))
  {
    if ts != [] { PiecesFront(ts); }
  }

  /** Two names that go on alike start with the same piece. */
  lemma SamePiece(s: string, rest: string, t: string, rest': string)
    requires EndsPiece(rest) && EndsPiece(rest') && Sanitize(s) + rest == Sanitize(t) + rest'
    ensures Sanitize(s) == Sanitize(t) && rest == rest'
  {
    ReadSanitized(s, rest);
    ReadSanitized(t, rest');
  }

  lemma {:induction false} PiecesInjective(a: seq<string>, b: seq<string>)
    requires EachSpellable(a) && EachSpellable(b) && Pieces(a) == Pieces(b)
    ensures a == b
    decreases |a|
  {
    hide Pieces, Sanitize, AllSpellable;
    PiecesHead(a);
    PiecesHead(b);
    if a != [] && b != [] {
      PiecesEnd(a[1..]);
      PiecesEnd(b[1..]);
      SamePiece(a[0], Pieces(a[1..]), b[0], Pieces(b[1..]));
      SanitizeInjective(a[0], b[0]);
      PiecesInjective(a[1..], b[1..]);
      assert a == [a[0]] + a[1..] && b == [b[0]] + b[1..];
    }
  }

  lemma PiecesHead(ts: seq<string>)
    ensures |Pieces(ts)| >= 2 <==> ts != []
    ensures ts != [] ==> Pieces(ts)[2..] == Sanitize(ts[0]) + Pieces(ts[1..])
  {
    if ts == [] {
      NoPieces();
    } else {
      hide Pieces, Sanitize;
      PiecesFront(ts);
      DropSeparator(Sanitize(ts[0]), Pieces(ts[1..]));
    }
  }

  lemma DropSeparator(p: string, rest: string)
    ensures ("__" + p + rest)[2..] == p + rest
  {
  }

  lemma NoPieces()
    ensures Pieces([]) == ""
  {
  }

  /** A tuple's name determines its component spellings. */
  lemma TupNameInjective(a: seq<string>, b: seq<string>)
    requires EachSpellable(a) && EachSpellable(b)
    ensures "lb_t" + Pieces(a) == "lb_t" + Pieces(b) <==> a == b
  {
    if "lb_t" + Pieces(a) == "lb_t" + Pieces(b) {
      assert Pieces(a) == ("lb_t" + Pieces(a))[4..] && Pieces(b) == ("lb_t" + Pieces(b))[4..];
      PiecesInjective(a, b);
    }
  }

  predicate ReturnedSpellable(r: Returned) {
    r.Spelled? ==> AllSpellable(r.spelling)
  }

  /** The spelling a function's name gives its result. */
  function ReturnedSpelling(r: Returned): string {
    if r.UnitOrNever? then "unit" else r.spelling
  }

  lemma {:induction false} LettersStay(s: string)
    requires forall i :: 0 <= i < |s| ==> IsAlnum(s[i])
    ensures Sanitize(s) == s
    decreases |s|
  {
    if s != "" {
      var front, last := s[..|s| - 1], s[|s| - 1];
      LettersStay(front);
      assert s == front + [last];
    }
  }

  lemma PiecesSnoc(ts: seq<string>, t: string)
    ensures Pieces(ts + [t]) == Pieces(ts) + "__" + Sanitize(t)
  {
    assert (ts + [t])[..|ts|] == ts;
  }

  /** The result is one more piece, after the piece `to`. */
  lemma FnPieces(ps: seq<string>, r: Returned)
    ensures Pieces(ps) + "__to__" + ReturnedPiece(r) == Pieces(ps + ["to"] + [ReturnedSpelling(r)])
  {
    FixedWords();
    hide Pieces, Sanitize;
    var to, last := "to", ReturnedSpelling(r);
    PiecesSnoc(ps, to);
    PiecesSnoc(ps + [to], last);
    Joined(Pieces(ps), to, Sanitize(last));
  }

  lemma FixedWords()
    ensures Sanitize("unit") == "unit" && Sanitize("to") == "to"
  {
    hide Sanitize;
    LettersStay("unit");
    LettersStay("to");
  }

  lemma Joined(p: string, to: string, last: string)
    requires to == "to"
    ensures p + "__to__" + last == p + "__" + to + "__" + last
  {
    assert "__to__" == "__" + to + "__";
    assert p + ("__" + to + "__") == p + "__" + to + "__";
  }

  /** A function's name determines its parameter spellings and its result's, unit and never
      counting as one. */
  lemma FnNameInjective(a: seq<string>, r: Returned, b: seq<string>, q: Returned)
    requires EachSpellable(a) && EachSpellable(b) && ReturnedSpellable(r) && ReturnedSpellable(q)
    ensures "lb_fn" + Pieces(a) + "__to__" + ReturnedPiece(r) == "lb_fn" + Pieces(b) + "__to__" + ReturnedPiece(q)
            <==> a == b && ReturnedSpelling(r) == ReturnedSpelling(q)
  {
    hide Pieces, Sanitize, ReturnedPiece, ReturnedSpelling, AllSpellable;
    var x, y := a + ["to"] + [ReturnedSpelling(r)], b + ["to"] + [ReturnedSpelling(q)];
    var s, t := Pieces(a) + "__to__" + ReturnedPiece(r), Pieces(b) + "__to__" + ReturnedPiece(q);
    FnPieces(a, r);
    FnPieces(b, q);
    assert "lb_fn" + Pieces(a) + "__to__" + ReturnedPiece(r) == "lb_fn" + s;
    assert "lb_fn" + Pieces(b) + "__to__" + ReturnedPiece(q) == "lb_fn" + t;
    if "lb_fn" + s == "lb_fn" + t {
      assert s == ("lb_fn" + s)[5..] && t == ("lb_fn" + t)[5..];
      FnSpellable(a, r);
      FnSpellable(b, q);
      PiecesInjective(x, y);
      assert a == x[..|x| - 2] && b == y[..|y| - 2];
      assert ReturnedSpelling(r) == x[|x| - 1] && ReturnedSpelling(q) == y[|y| - 1];
    }
    if a == b && ReturnedSpelling(r) == ReturnedSpelling(q) {
      assert x == y;
    }
  }

  lemma FnSpellable(a: seq<string>, r: Returned)
    requires EachSpellable(a) && ReturnedSpellable(r)
    ensures EachSpellable(a + ["to"] + [ReturnedSpelling(r)])
  {
    assert AllSpellable("to") && AllSpellable("unit");
  }

  // ---------------------------------------------------------------- pieces of symbols

  function Digit(d: nat): char
    requires d < 10
  {
    "0123456789"[d]
  }

  predicate IsDigit(c: char) {
    '0' <= c <= '9'
  }

  /** `std::to_string` of a size. */
  function Decimal(n: nat): (r: string)
    ensures r != "" && forall i :: 0 <= i < |r| ==> IsDigit(r[i])
  {
    if n < 10 then [Digit(n)] else Decimal(n / 10) + [Digit(n % 10)]
  }

  /** A name as one piece of a symbol: with its length in front if it holds an underscore. */
  function Piece(name: string): string {
    if '_' in name then Decimal(|name|) + name else name
  }

  function JoinPieces(names: seq<string>): string {
    if names == [] then ""
    else if |names| == 1 then Piece(names[0])
    else Piece(names[0]) + "_" + JoinPieces(names[1..])
  }

  /** A name as the language has them. */
  predicate Identifier(name: string) {
    name != "" && !IsDigit(name[0])
  }

  predicate Identifiers(names: seq<string>) {
    forall i :: 0 <= i < |names| ==> Identifier(names[i])
  }

  function ValueOf(digits: string): nat {
    if digits == "" || !IsDigit(digits[|digits| - 1]) then 0
    else 10 * ValueOf(digits[..|digits| - 1]) + (digits[|digits| - 1] - '0') as nat
  }

  lemma {:induction false} DecimalValue(n: nat)
    ensures ValueOf(Decimal(n)) == n
  {
    if n >= 10 {
      DecimalValue(n / 10);
      var d := Decimal(n);
      assert d[..|d| - 1] == Decimal(n / 10);
      DigitValue(n % 10);
    } else {
      DigitValue(n);
      assert [Digit(n)][..0] == "";
    }
  }

  lemma DigitValue(d: nat)
    requires d < 10
    ensures IsDigit(Digit(d)) && (Digit(d) - '0') as nat == d
  {
  }

  /** How far the digits, or the bytes before the next underscore, reach. */
  function DigitsLength(t: string): (n: nat)
    ensures n <= |t|
  {
    if t == "" || !IsDigit(t[0]) then 0 else 1 + DigitsLength(t[1..])
  }

  function PlainLength(t: string): (n: nat)
    ensures n <= |t|
  {
    if t == "" || t[0] == '_' then 0 else 1 + PlainLength(t[1..])
  }

  /** Read one piece of a symbol, and what follows it. */
  function ReadName(t: string): Option<(string, string)> {
    var d := DigitsLength(t);
    if d == 0 then
      var n := PlainLength(t);
      Some((t[..n], t[n..]))
    else
      var n := ValueOf(t[..d]);
      if d + n <= |t| then Some((t[d..d + n], t[d + n..])) else None
  }

  lemma {:induction false} DigitsEnd(digits: string, t: string)
    requires (forall i :: 0 <= i < |digits| ==> IsDigit(digits[i])) && (t == "" || !IsDigit(t[0]))
    ensures DigitsLength(digits + t) == |digits|
    decreases |digits|
  {
    if digits == "" {
      assert digits + t == t;
    } else {
      assert (digits + t)[1..] == digits[1..] + t;
      DigitsEnd(digits[1..], t);
    }
  }

  lemma {:induction false} PlainEnds(name: string, t: string)
    requires '_' !in name && (t == "" || t[0] == '_')
    ensures PlainLength(name + t) == |name|
    decreases |name|
  {
    if name == "" {
      assert name + t == t;
    } else {
      assert (name + t)[1..] == name[1..] + t;
      PlainEnds(name[1..], t);
    }
  }

  /** A piece is read back whole, whatever piece follows. */
  lemma ReadPieceBack(name: string, rest: string)
    requires Identifier(name) && (rest == "" || rest[0] == '_')
    ensures ReadName(Piece(name) + rest) == Some((name, rest))
  {
    hide Decimal, ValueOf, DigitsLength, PlainLength;
    var t := Piece(name) + rest;
    if '_' in name {
      var d := Decimal(|name|);
      assert t == d + (name + rest);
      DigitsEnd(d, name + rest);
      DecimalValue(|name|);
      assert t[..|d|] == d && t[|d|..|d| + |name|] == name && t[|d| + |name|..] == rest;
    } else {
      DigitsEnd("", t);
      assert "" + t == t;
      PlainEnds(name, rest);
      assert t[..|name|] == name && t[|name|..] == rest;
    }
  }

  function ReadNames(t: string): Option<seq<string>>
    decreases |t|
  {
    if t == "" then Some([])
    else
      var first := ReadName(t);
      if first.None? then None
      else
        var (name, rest) := first.value;
        if rest == "" then Some([name])
        else if |rest| >= |t| then None
        else
          var more := ReadNames(rest[1..]);
          if more.Some? then Some([name] + more.value) else None
  }

  lemma ReadNameThenMore(name: string, rest: string, more: seq<string>)
    requires Identifier(name) && ReadNames(rest) == Some(more)
    ensures ReadNames(Piece(name) + "_" + rest) == Some([name] + more)
  {
    hide ReadName, Piece;
    var t, after := Piece(name) + "_" + rest, "_" + rest;
    PieceNotEmpty(name);
    assert t == Piece(name) + after;
    ReadPieceBack(name, after);
    assert after[1..] == rest;
  }

  lemma ReadLastName(name: string)
    requires Identifier(name)
    ensures ReadNames(Piece(name)) == Some([name])
  {
    hide ReadName, Piece;
    PieceNotEmpty(name);
    ReadPieceBack(name, "");
    assert Piece(name) + "" == Piece(name);
  }

  lemma {:induction false} ReadNamesBack(names: seq<string>)
    requires Identifiers(names)
    ensures ReadNames(JoinPieces(names)) == Some(names)
    decreases |names|
  {
    hide ReadName, Piece;
    if |names| == 1 {
      ReadLastName(names[0]);
      assert names == [names[0]];
    } else if |names| > 1 {
      ReadNamesBack(names[1..]);
      ReadNameThenMore(names[0], JoinPieces(names[1..]), names[1..]);
      assert names == [names[0]] + names[1..];
    }
  }

  lemma PieceNotEmpty(name: string)
    requires Identifier(name)
    ensures Piece(name) != ""
  {
  }

  /** Joined pieces determine the list of names: `a` with `b_c` is never `a_b` with `c`. */
  lemma JoinInjective(a: seq<string>, b: seq<string>)
    requires Identifiers(a) && Identifiers(b)
    ensures JoinPieces(a) == JoinPieces(b) <==> a == b
  {
    ReadNamesBack(a);
    ReadNamesBack(b);
  }
}
