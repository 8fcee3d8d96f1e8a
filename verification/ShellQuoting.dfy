/**
 Quoting a value for a shell command (commands.rs: `shell_quoted`), against the
 reading of double quotes that section 2.2.3 of the POSIX shell command language
 prescribes.
 */
module ShellQuoting {
  import opened Basics

  predicate Special(c: char) {
    c == '\\' || c == '"' || c == '`' || c == '$'
  }

  function EscapedFor(s: string): string {
    if s == "" then "" else
      var n := |s| - 1;
      EscapedFor(s[..n]) + (if Special(s[n]) then ['\\', s[n]] else [s[n]])
  }

  /** The fold of the program. */
  method ShellQuoted(value: string) returns (quoted: string)
    ensures quoted == "\"" + EscapedFor(value) + "\""
  {
    var escaped := "";
    for n := 0 to |value|
      invariant escaped == EscapedFor(value[..n])
    {
      assert value[..n + 1][..n] == value[..n];
      if Special(value[n]) {
        escaped := escaped + ['\\'];
      }
      escaped := escaped + [value[n]];
    }
    assert value[..|value|] == value;
    quoted := "\"" + escaped + "\"";
  }

  // ---- what a shell makes of it ----

  /** What was quoted, and what follows the closing quote. */
  datatype Quoted = Quoted(value: string, rest: string)

  /**
   Inside double quotes a backslash takes `$`, a backquote, a quote or a backslash
   literally, joins lines before a newline, and stands for itself before anything
   else; a bare `$` or backquote starts an expansion, which is no literal value.
   */
  function ReadInside(s: string): Option<Quoted> {
    if s == "" || s[0] == '$' || s[0] == '`' then None
    else if s[0] == '"' then Some(Quoted("", s[1..]))
    else if s[0] == '\\' && |s| > 1 && (s[1] == '$' || s[1] == '`' || s[1] == '"' || s[1] == '\\') then
      Prepend([s[1]], ReadInside(s[2..]))
    else if s[0] == '\\' && |s| > 1 && s[1] == '\n' then ReadInside(s[2..])
    else Prepend([s[0]], ReadInside(s[1..]))
  }

  function Prepend(c: string, q: Option<Quoted>): Option<Quoted> {
    match q case None => None case Some(r) => Some(Quoted(c + r.value, r.rest))
  }

  function ReadQuoted(s: string): Option<Quoted> {
    if s != "" && s[0] == '"' then ReadInside(s[1..]) else None
  }

  lemma Assoc(a: string, b: string, c: string)
    ensures (a + b) + c == a + (b + c)
  {}

  lemma ReadOneInside(c: char, rest: string)
    ensures ReadInside((if Special(c) then ['\\', c] else [c]) + rest) == Prepend([c], ReadInside(rest))
  {
    assert (['\\', c] + rest)[2..] == rest;
    assert ([c] + rest)[1..] == rest;
  }

  lemma {:induction false} EscapedReads(value: string, rest: string)
    requires ReadInside(rest).Some?
    ensures ReadInside(EscapedFor(value) + rest) ==
            Some(Quoted(value + ReadInside(rest).value.value, ReadInside(rest).value.rest))
    decreases |value|
  {
    if value == "" {
      assert EscapedFor(value) + rest == rest;
      assert value + ReadInside(rest).value.value == ReadInside(rest).value.value;
    } else {
      var n := |value| - 1;
      var c := value[n];
      var last := if Special(c) then ['\\', c] else [c];
      ReadOneInside(c, rest);
      EscapedReads(value[..n], last + rest);
      Assoc(EscapedFor(value[..n]), last, rest);
      Assoc(value[..n], [c], ReadInside(rest).value.value);
      assert value == value[..n] + [c];
    }
  }

  lemma OpeningQuote(body: string)
    ensures ReadQuoted("\"" + body) == ReadInside(body)
  {
    assert ("\"" + body)[1..] == body;
  }

  /** A shell reads any quoted value back as it was, expands nothing in it, and stops at its end. */
  lemma QuotedReadsBack(value: string, tail: string)
    ensures ReadQuoted("\"" + EscapedFor(value) + "\"" + tail) == Some(Quoted(value, tail))
  {
    var close := "\"" + tail;
    assert close[1..] == tail;
    EscapedReads(value, close);
    Assoc("\"" + EscapedFor(value), "\"", tail);
    Assoc("\"", EscapedFor(value), close);
    OpeningQuote(EscapedFor(value) + close);
    assert value + "" == value;
  }
}
