/** The Windows command line (src/emit/host_windows.cpp): arguments quoted and joined, and the
    Microsoft C runtime's rules for taking them apart again. */
module WindowsQuoting {
  import opened Wrappers

  function Slashes(n: nat): (r: string)
    ensures |r| == n && forall i :: 0 <= i < n ==> r[i] == '\\'
  {
    seq(n, _ => '\\')
  }

  predicate Special(c: char) {
    c == ' ' || c == '\t' || c == '\r' || c == '\n' || c == '"'
  }

  predicate NeedsQuotes(text: string) {
    text == "" || exists i :: 0 <= i < |text| && Special(text[i])
  }

  /** What is written for `t` inside quotes when `k` backslashes wait to be written. */
  function QuoteFrom(t: string, k: nat): string {
    if t == "" then Slashes(2 * k) + "\""
    else if t[0] == '\\' then QuoteFrom(t[1..], k + 1)
    else Slashes(if t[0] == '"' then 2 * k + 1 else k) + [t[0]] + QuoteFrom(t[1..], 0)
  }

  function Quoted(text: string): string {
    if NeedsQuotes(text) then "\"" + QuoteFrom(text, 0) else text
  }

  method Quote(text: string) returns (out: string)
    ensures out == Quoted(text)
  {
    if text != "" && !NeedsQuotes(text) {
      return text;
    }
    out := "\"";
    var slashes := 0;
    var i := 0;
    while i < |text|
      invariant 0 <= i <= |text| && out + QuoteFrom(text[i..], slashes) == "\"" + QuoteFrom(text, 0)
    {
      var ch := text[i];
      assert text[i..][1..] == text[i + 1..];
      if ch == '\\' {
        slashes := slashes + 1;
      } else {
        ghost var before := out;
        out := out + Slashes(if ch == '"' then slashes * 2 + 1 else slashes);
        out := out + [ch];
        assert out + QuoteFrom(text[i + 1..], 0) == before + QuoteFrom(text[i..], slashes);
        slashes := 0;
      }
      i := i + 1;
    }
    assert text[i..] == "";
    out := out + Slashes(slashes * 2);
    out := out + "\"";
  }

  function Tail(args: seq<string>): string {
    if args == [] then "" else " " + Quoted(args[0]) + Tail(args[1..])
  }

  /** The command line `run_exe` passes on. */
  method CommandLine(executable: string, args: seq<string>) returns (command: string)
    ensures command == Quoted(executable) + Tail(args)
  {
    command := Quote(executable);
    var i := 0;
    while i < |args|
      invariant 0 <= i <= |args| && command + Tail(args[i..]) == Quoted(executable) + Tail(args)
    {
      assert args[i..][1..] == args[i + 1..];
      var q := Quote(args[i]);
      assert command + Tail(args[i..]) == command + (" " + q) + Tail(args[i + 1..]);
      command := command + (" " + q);
      i := i + 1;
    }
    assert args[i..] == [] && command + "" == command;
  }

  // ---------------------------------------------------------------- the C runtime

  function CountSlashes(p: string): (k: nat)
    ensures k <= |p| && p[..k] == Slashes(k) && (k < |p| ==> p[k] != '\\')
  {
    if p == "" || p[0] != '\\' then 0
    else
      var k := CountSlashes(p[1..]);
      assert p[..k + 1] == [p[0]] + p[1..][..k];
      k + 1
  }

  predicate Blank(c: char) {
    c == ' ' || c == '\t'
  }

  predicate AtEnd(p: string) {
    p == "" || p[0] == '\0'
  }

  /** One argument and what follows it.  2n backslashes before a quote are n, and the quote
      opens or closes; 2n+1 are n and a quote; `""` inside quotes is a quote. */
  function ParseArg(p: string, quoted: bool): (r: (string, string))
    ensures |r.1| <= |p|
    ensures !AtEnd(p) && !Blank(p[0]) ==> |r.1| < |p|
    decreases |p|
  {
    var k := CountSlashes(p);
    var q := p[k..];
    if AtEnd(q) || (!quoted && Blank(q[0])) then (Slashes(k), q)
    else if q[0] == '"' && k % 2 == 0 && !(quoted && |q| >= 2 && q[1] == '"') then
      var r := ParseArg(q[1..], !quoted);
      (Slashes(k / 2) + r.0, r.1)
    else
      var taken := if q[0] == '"' && k % 2 == 0 then 2 else 1;
      var r := ParseArg(q[taken..], quoted);
      (Slashes(if q[0] == '"' then k / 2 else k) + [q[0]] + r.0, r.1)
  }

  /** The arguments after the program's name. */
  function ParseArgs(p: string): seq<string>
    decreases |p|
  {
    if AtEnd(p) then []
    else if Blank(p[0]) then ParseArgs(p[1..])
    else
      var r := ParseArg(p, false);
      [r.0] + ParseArgs(r.1)
  }

  // ---------------------------------------------------------------- round trip

  predicate Ends(rest: string) {
    rest == "" || Blank(rest[0])
  }

  lemma {:induction false} SlashesCounted(k: nat, t: string)
    requires t == "" || t[0] != '\\'
    ensures CountSlashes(Slashes(k) + t) == k && (Slashes(k) + t)[k..] == t
    decreases k
  {
    var p := Slashes(k) + t;
    if k > 0 {
      assert p[1..] == Slashes(k - 1) + t;
      SlashesCounted(k - 1, t);
    } else {
      assert p == t;
    }
  }

  /** Backslashes, then a byte that is neither one nor a quote. */
  lemma ParsePlain(k: nat, c: char, t: string, quoted: bool)
    requires c != '\\' && c != '"' && c != '\0' && (quoted || !Blank(c))
    ensures ParseArg(Slashes(k) + [c] + t, quoted) == (Slashes(k) + [c] + ParseArg(t, quoted).0, ParseArg(t, quoted).1)
  {
    var q := [c] + t;
    assert Slashes(k) + [c] + t == Slashes(k) + q;
    SlashesCounted(k, q);
    assert q[1..] == t;
  }

  lemma ParseEscapedQuote(k: nat, t: string)
    ensures ParseArg(Slashes(2 * k + 1) + "\"" + t, true) == (Slashes(k) + "\"" + ParseArg(t, true).0, ParseArg(t, true).1)
  {
    var q := "\"" + t;
    var n := 2 * k + 1;
    assert Slashes(n) + "\"" + t == Slashes(n) + q;
    SlashesCounted(n, q);
    hide CountSlashes, Slashes;
    assert n % 2 == 1 && n / 2 == k && [q[0]] == "\"";
    assert q[1..] == t;
  }

  lemma ParseEnd(k: nat, rest: string)
    requires Ends(rest)
    ensures ParseArg(Slashes(k) + rest, false) == (Slashes(k), rest)
  {
    SlashesCounted(k, rest);
  }

  lemma ParseClose(k: nat, rest: string)
    requires Ends(rest)
    ensures ParseArg(Slashes(2 * k) + "\"" + rest, true) == (Slashes(k), rest)
  {
    var q := "\"" + rest;
    var n := 2 * k;
    assert Slashes(n) + "\"" + rest == Slashes(n) + q;
    SlashesCounted(n, q);
    ParseEnd(0, rest);
    assert Slashes(0) + rest == rest && Slashes(k) + Slashes(0) == Slashes(k);
    hide CountSlashes, Slashes;
    assert n % 2 == 0 && n / 2 == k;
    assert q[1..] == rest;
  }

  /** A byte taken from the front of `t` joins what stands before it. */
  lemma Regroup(before: string, t: string)
    requires t != ""
    ensures before + [t[0]] + t[1..] == before + t
  {
  }

  lemma OneMoreSlash(k: nat, t: string)
    requires t != "" && t[0] == '\\'
    ensures Slashes(k + 1) + t[1..] == Slashes(k) + t
  {
    assert Slashes(k + 1) == Slashes(k) + [t[0]];
  }

  lemma NoSlashes(t: string)
    ensures Slashes(0) + t == t
  {
  }

  lemma TailHasNoNul(t: string)
    requires t != "" && NoNul(t)
    ensures t[0] != '\0' && NoNul(t[1..])
  {
    assert t[0] in t;
  }

  lemma {:induction false} ParseQuoted(t: string, k: nat, rest: string)
    requires NoNul(t) && Ends(rest)
    ensures ParseArg(QuoteFrom(t, k) + rest, true) == (Slashes(k) + t, rest)
    decreases |t|
  {
    hide ParseArg, CountSlashes, Slashes, NoNul;
    if t == "" {
      ParseClose(k, rest);
      assert Slashes(k) + t == Slashes(k);
    } else {
      var c, tail := t[0], t[1..];
      TailHasNoNul(t);
      if c == '\\' {
        ParseQuoted(tail, k + 1, rest);
        OneMoreSlash(k, t);
      } else {
        ParseQuoted(tail, 0, rest);
        NoSlashes(tail);
        var after := QuoteFrom(tail, 0) + rest;
        assert QuoteFrom(t, k) + rest == Slashes(if c == '"' then 2 * k + 1 else k) + [c] + after;
        if c == '"' { ParseEscapedQuote(k, after); } else { ParsePlain(k, c, after, true); }
        Regroup(Slashes(k), t);
      }
    }
  }

  predicate Bare(t: string) {
    forall i :: 0 <= i < |t| ==> !Special(t[i])
  }

  lemma BareTail(t: string)
    requires t != "" && Bare(t)
    ensures !Special(t[0]) && Bare(t[1..])
  {
  }

  lemma {:induction false} ParseBare(t: string, k: nat, rest: string)
    requires NoNul(t) && Ends(rest) && Bare(t)
    ensures ParseArg(Slashes(k) + (t + rest), false) == (Slashes(k) + t, rest)
    decreases |t|
  {
    hide ParseArg, CountSlashes, Slashes, NoNul, Bare;
    if t == "" {
      ParseEnd(k, rest);
      assert t + rest == rest && Slashes(k) + t == Slashes(k);
    } else {
      var c, tail, all := t[0], t[1..], t + rest;
      assert all[0] == c && all[1..] == tail + rest;
      TailHasNoNul(t);
      BareTail(t);
      if c == '\\' {
        ParseBare(tail, k + 1, rest);
        OneMoreSlash(k, t);
        OneMoreSlash(k, all);
      } else {
        ParseBare(tail, 0, rest);
        NoSlashes(tail + rest);
        NoSlashes(tail);
        ParsePlain(k, c, tail + rest, false);
        Regroup(Slashes(k), all);
        Regroup(Slashes(k), t);
      }
    }
  }

  lemma OpenQuote(q: string, quoted: bool)
    requires !quoted
    ensures ParseArg("\"" + q, quoted) == ParseArg(q, !quoted)
  {
    var p := "\"" + q;
    SlashesCounted(0, p);
    NoSlashes(p);
    var r := ParseArg(q, !quoted);
    NoSlashes(r.0);
    var k := CountSlashes(p);
    var rest := p[k..];
    assert k == 0 && rest == p && p[0] == '"' && rest[1..] == q;
    assert !(AtEnd(rest) || (!quoted && Blank(rest[0])));
    assert ParseArg(p, quoted) == (Slashes(k / 2) + ParseArg(rest[1..], !quoted).0, ParseArg(rest[1..], !quoted).1);
  }

  lemma ParseOne(arg: string, rest: string)
    requires NoNul(arg) && Ends(rest)
    ensures Quoted(arg) != "" && !AtEnd(Quoted(arg)) && !Blank(Quoted(arg)[0])
    ensures ParseArg(Quoted(arg) + rest, false) == (arg, rest)
  {
    hide ParseArg, QuoteFrom, Slashes;
    NoSlashes(arg);
    if NeedsQuotes(arg) {
      assert Quoted(arg) + rest == "\"" + (QuoteFrom(arg, 0) + rest);
      OpenQuote(QuoteFrom(arg, 0) + rest, false);
      ParseQuoted(arg, 0, rest);
    } else {
      ParseBare(arg, 0, rest);
      NoSlashes(arg + rest);
      BareTail(arg);
      TailHasNoNul(arg);
    }
  }

  lemma ParseNext(first: string, rest: string)
    requires NoNul(first) && Ends(rest)
    ensures ParseArgs(" " + Quoted(first) + rest) == [first] + ParseArgs(rest)
  {
    hide ParseArg, Quoted;
    var p, q := " " + Quoted(first) + rest, Quoted(first) + rest;
    ParseOne(first, rest);
    assert p[1..] == q && q[0] == Quoted(first)[0];
    assert ParseArgs(p) == ParseArgs(q);
  }

  lemma {:induction false} ParseTail(args: seq<string>)
    requires forall i :: 0 <= i < |args| ==> NoNul(args[i])
    ensures ParseArgs(Tail(args)) == args && Ends(Tail(args))
    decreases |args|
  {
    hide ParseArg, Quoted, ParseArgs;
    if args == [] {
      NothingToParse();
    } else {
      ParseTail(args[1..]);
      ParseNext(args[0], Tail(args[1..]));
      assert args == [args[0]] + args[1..];
    }
  }

  lemma NothingToParse()
    ensures ParseArgs("") == []
  {
  }

  lemma {:induction false} ParsedHasNoNul(p: string, quoted: bool)
    ensures NoNul(ParseArg(p, quoted).0)
    decreases |p|
  {
    var k := CountSlashes(p);
    var q := p[k..];
    if !(AtEnd(q) || (!quoted && Blank(q[0]))) {
      if q[0] == '"' && k % 2 == 0 && !(quoted && |q| >= 2 && q[1] == '"') {
        ParsedHasNoNul(q[1..], !quoted);
      } else {
        ParsedHasNoNul(q[if q[0] == '"' && k % 2 == 0 then 2 else 1..], quoted);
      }
    }
  }

  lemma {:induction false} ParsedHaveNoNul(p: string)
    ensures forall i :: 0 <= i < |ParseArgs(p)| ==> NoNul(ParseArgs(p)[i])
    decreases |p|
  {
    if !AtEnd(p) {
      if Blank(p[0]) {
        ParsedHaveNoNul(p[1..]);
      } else {
        ParsedHasNoNul(p, false);
        ParsedHaveNoNul(ParseArg(p, false).1);
      }
    }
  }

  /** The runtime takes the command line apart into exactly the arguments given, provided none
      holds a NUL, which no command line can carry. */
  lemma CommandLineRoundTrip(args: seq<string>)
    ensures ParseArgs(Tail(args)) == args <==> forall i :: 0 <= i < |args| ==> NoNul(args[i])
  {
    if forall i :: 0 <= i < |args| ==> NoNul(args[i]) {
      ParseTail(args);
    }
    ParsedHaveNoNul(Tail(args));
  }
}
