/** Quoting for a POSIX shell (src/emit/host.cpp), read back by section 2.2 of the Shell Command
    Language. */
module ShellQuoting {
  import opened Wrappers

  function QuotedByte(c: char): string {
    if c == '\'' then "'\\''" else [c]
  }

  function QuotedBytes(s: string): string {
    if s == "" then "" else QuotedByte(s[0]) + QuotedBytes(s[1..])
  }

  function Quoted(s: string): string {
    "'" + QuotedBytes(s) + "'"
  }

  method ShellQuote(s: string) returns (out: string)
    ensures out == Quoted(s)
  {
    out := "'";
    var i := 0;
    while i < |s|
      invariant 0 <= i <= |s| && out + QuotedBytes(s[i..]) == "'" + QuotedBytes(s)
    {
      assert s[i..][1..] == s[i + 1..];
      ghost var before := out;
      if s[i] == '\'' {
        out := out + "'\\''";
      } else {
        out := out + [s[i]];
      }
      assert out + QuotedBytes(s[i + 1..]) == before + (QuotedByte(s[i]) + QuotedBytes(s[i + 1..]));
      i := i + 1;
    }
    assert s[i..] == "" && out + "" == out;
    out := out + "'";
  }

  // ---------------------------------------------------------------- the shell

  /** Bytes that end a word or mean something to the shell outside quotes. */
  predicate Meta(c: char) {
    c in "|&;<>()$`\" \t\n*?[#~=%"
  }

  /** The word at the start of `t`: single quotes keep everything up to the next one, a
      backslash keeps the byte after it.  `None` when a quote is left open, when the text ends
      at a NUL inside it, or when another construct begins. */
  function ReadWord(t: string, quoted: bool): Option<string> {
    if t == "" || t[0] == '\0' then (if quoted then None else Some(""))
    else if t[0] == '\'' then ReadWord(t[1..], !quoted)
    else if quoted then Prepend(t[0], ReadWord(t[1..], true))
    else if t[0] == '\\' then
      if |t| == 1 || t[1] == '\n' || t[1] == '\0' then None else Prepend(t[1], ReadWord(t[2..], false))
    else if Meta(t[0]) then None
    else Prepend(t[0], ReadWord(t[1..], false))
  }

  lemma ReadQuoteEscape(t: string)
    ensures ReadWord("'\\''" + t, true) == Prepend('\'', ReadWord(t, true))
  {
    var all := "'\\''" + t;
    assert all[1..] == "\\''" + t;
    assert all[1..][2..] == "'" + t;
    assert ("'" + t)[1..] == t;
    assert ReadWord(all, true) == ReadWord(all[1..], false);
    assert ReadWord(all[1..], false) == Prepend('\'', ReadWord(all[1..][2..], false));
    assert ReadWord("'" + t, false) == ReadWord(t, true);
  }

  lemma ReadPlain(c: char, t: string)
    requires c != '\'' && c != '\0'
    ensures ReadWord([c] + t, true) == Prepend(c, ReadWord(t, true))
  {
    assert ([c] + t)[1..] == t;
  }

  lemma {:induction false} ReadQuotedBytes(s: string)
    ensures ReadWord(QuotedBytes(s) + "'", true) == if NoNul(s) then Some(s) else None
    decreases |s|
  {
    if s == "" {
      assert QuotedBytes(s) + "'" == "'" && "'"[1..] == "";
      assert ReadWord("'", true) == ReadWord("", false);
    } else {
      var c, tail := s[0], s[1..];
      ReadQuotedBytes(tail);
      var rest := QuotedBytes(tail) + "'";
      assert QuotedBytes(s) + "'" == QuotedByte(c) + rest;
      assert s == [c] + tail;
      if c == '\'' {
        ReadQuoteEscape(rest);
      } else if c == '\0' {
        assert ([c] + rest)[0] == '\0';
      } else {
        ReadPlain(c, rest);
      }
    }
  }

  /** The shell reads a quoted text back as that text, provided it holds no NUL. */
  lemma ShellRoundTrip(s: string)
    ensures ReadWord(Quoted(s), false) == if NoNul(s) then Some(s) else None
  {
    ReadQuotedBytes(s);
    assert Quoted(s) == "'" + (QuotedBytes(s) + "'");
    assert Quoted(s)[1..] == QuotedBytes(s) + "'";
  }
}
