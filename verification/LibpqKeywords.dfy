/**
 Rewriting a Postgres URI into libpq's keyword/value form (commands.rs:
 `pg_libpq_keywords`, `decode_url_component`, `libpq_value`).

 The program is compared with two independent definitions: a canonical printer of
 URIs (section 2.1 of RFC 3986) on the way in, and a reader of keyword/value
 strings (section 34.1.1.1 of the PostgreSQL 16 documentation) on the way out.
 */
module LibpqKeywords {
  import opened Basics
  import opened PercentCoding

  datatype Pair = Pair(key: Text, value: Text)

  const HOST: Text := ['h', 'o', 's', 't']
  const PORT: Text := ['p', 'o', 'r', 't']
  const DBNAME: Text := ['d', 'b', 'n', 'a', 'm', 'e']
  const USER: Text := ['u', 's', 'e', 'r']
  const PASSWORD: Text := ['p', 'a', 's', 's', 'w', 'o', 'r', 'd']
  const LONG_SCHEME: Text := ['p', 'o', 's', 't', 'g', 'r', 'e', 's', 'q', 'l', ':', '/', '/']
  const SHORT_SCHEME: Text := ['p', 'o', 's', 't', 'g', 'r', 'e', 's', ':', '/', '/']

  predicate IsSpace(c: Octet) {
    '\t' <= c <= '\r' || c == ' '
  }

  lemma ConcatAssoc(a: Text, b: Text, c: Text)
    ensures (a + b) + c == a + (b + c)
  {}

  // ---- form decoding (`url::form_urlencoded::parse`) ----

  function PlusToSpace(s: Text): Text {
    if s == [] then [] else [if s[0] == '+' then ' ' else s[0]] + PlusToSpace(s[1..])
  }

  function FormDecode(s: Text): Text {
    Decode(PlusToSpace(s))
  }

  function FormPair(segment: Text): Pair {
    match SplitOnce(segment, '=')
    case None => Pair(FormDecode(segment), [])
    case Some(h) => Pair(FormDecode(h.left), FormDecode(h.right))
  }

  lemma {:induction false} SplitOnceShrinks(s: Text, c: Octet)
    requires SplitOnce(s, c).Some?
    ensures |SplitOnce(s, c).value.right| < |s|
  {
    if s[0] != c {
      SplitOnceShrinks(s[1..], c);
    }
  }

  function FormParse(s: Text): seq<Pair>
    decreases |s|
  {
    match SplitOnce(s, '&')
    case None => if s == [] then [] else [FormPair(s)]
    case Some(h) =>
      SplitOnceShrinks(s, '&');
      (if h.left == [] then [] else [FormPair(h.left)]) + FormParse(h.right)
  }

  /** Form encoding: as percent-encoding, with spaces written as `+`. */
  function FormEncode(s: Text, safe: Octet -> bool): Text {
    if s == [] then []
    else (if s[0] == ' ' then ['+'] else if safe(s[0]) then [s[0]] else Escaped(s[0])) + FormEncode(s[1..], safe)
  }

  lemma EscapeHasNoPlus(c: Octet, rest: Text)
    ensures PlusToSpace(Escaped(c) + rest) == Escaped(c) + PlusToSpace(rest)
  {
    HexRoundTrip(c as int / 16);
    HexRoundTrip(c as int % 16);
    var e := Escaped(c);
    var third := [e[2]] + rest;
    var second := [e[1]] + third;
    PlusToSpaceStep(e[2], rest);
    PlusToSpaceStep(e[1], third);
    PlusToSpaceStep(e[0], second);
    assert e + rest == [e[0]] + second;
    assert e + PlusToSpace(rest) == [e[0]] + ([e[1]] + ([e[2]] + PlusToSpace(rest)));
  }

  lemma DecodePlain(c: Octet, rest: Text)
    requires c != '%'
    ensures Decode([c] + rest) == [c] + Decode(rest)
  {
    assert ([c] + rest)[1..] == rest;
  }

  /** In a query a `+` is a space: what form encoding writes, form decoding reads back. */
  lemma {:induction false} FormDecodeUndoes(s: Text, safe: Octet -> bool)
    requires !safe('%') && !safe('+')
    ensures FormDecode(FormEncode(s, safe)) == s
  {
    if s != [] {
      var rest := FormEncode(s[1..], safe);
      FormDecodeUndoes(s[1..], safe);
      if s[0] == ' ' {
        PlusToSpaceStep('+', rest);
        DecodePlain(' ', PlusToSpace(rest));
      } else if safe(s[0]) {
        PlusToSpaceStep(s[0], rest);
        DecodePlain(s[0], PlusToSpace(rest));
      } else {
        EscapeHasNoPlus(s[0], rest);
        DecodeEscaped(s[0], PlusToSpace(rest));
      }
      assert s == [s[0]] + s[1..];
    }
  }

  // ---- `decode_url_component` ----

  const VALUE_EQUALS: Text := ['v', 'a', 'l', 'u', 'e', '=']

  function ProtectPlus(s: Text): Text {
    if s == [] then [] else (if s[0] == '+' then ['%', '2', 'B'] else [s[0]]) + ProtectPlus(s[1..])
  }

  function DecodeUrlComponent(s: Text): Text {
    var pairs := FormParse(VALUE_EQUALS + ProtectPlus(s));
    if pairs == [] then s else pairs[0].value
  }

  /** The part before the first `&`. */
  function UpToAmpersand(s: Text): Text {
    match SplitOnce(s, '&') case None => s case Some(h) => h.left
  }

  lemma PlusToSpaceStep(c: Octet, rest: Text)
    ensures PlusToSpace([c] + rest) == [if c == '+' then ' ' else c] + PlusToSpace(rest)
  {
    assert ([c] + rest)[1..] == rest;
  }

  lemma ProtectStep(c: Octet, rest: Text)
    ensures ProtectPlus([c] + rest) == (if c == '+' then ['%', '2', 'B'] else [c]) + ProtectPlus(rest)
  {
    assert ([c] + rest)[1..] == rest;
  }

  lemma {:induction false} ProtectedHasNoPlus(s: Text)
    ensures PlusToSpace(ProtectPlus(s)) == ProtectPlus(s)
  {
    if s != [] {
      ProtectedHasNoPlus(s[1..]);
      var rest := ProtectPlus(s[1..]);
      if s[0] == '+' {
        EscapedPlusStep(rest);
      } else {
        PlusToSpaceStep(s[0], rest);
      }
    }
  }

  lemma EscapedPlusStep(rest: Text)
    ensures PlusToSpace(['%', '2', 'B'] + rest) == ['%', '2', 'B'] + PlusToSpace(rest)
  {
    var b := ['B'] + rest;
    var two := ['2'] + b;
    PlusToSpaceStep('B', rest);
    PlusToSpaceStep('2', b);
    PlusToSpaceStep('%', two);
    assert ['%', '2', 'B'] + rest == ['%'] + two;
  }

  /** Protecting `+` does not change what the escapes say. */
  lemma {:induction false} DecodeProtected(s: Text)
    ensures Decode(ProtectPlus(s)) == Decode(s)
  {
    if s != [] {
      var p, rest := ProtectPlus(s), ProtectPlus(s[1..]);
      DecodeProtected(s[1..]);
      if s[0] == '+' {
        DecodeEscaped('+', rest);
        assert p == Escaped('+') + rest;
      } else if StartsEscape(s) {
        DecodeProtected(s[3..]);
        ProtectSkips(s);
      } else {
        assert p[1..] == rest;
        if StartsEscape(p) {
          ProtectedEscape(s);
        }
      }
    }
  }

  lemma ProtectSkips(s: Text)
    requires StartsEscape(s)
    ensures ProtectPlus(s) == s[..3] + ProtectPlus(s[3..])
  {
    var rest := s[3..];
    ProtectStep(s[2], rest);
    ProtectStep(s[1], [s[2]] + rest);
    ProtectStep(s[0], [s[1]] + ([s[2]] + rest));
    assert s == [s[0]] + ([s[1]] + ([s[2]] + rest));
    assert s[..3] + ProtectPlus(rest) == [s[0]] + ([s[1]] + ([s[2]] + ProtectPlus(rest)));
  }

  lemma ProtectedEscape(s: Text)
    requires s != [] && s[0] != '+' && StartsEscape(ProtectPlus(s))
    ensures StartsEscape(s)
  {
    var p := ProtectPlus(s);
    var q := ProtectPlus(s[1..]);
    assert p[1..] == q && q[0] == p[1] && q[1] == p[2];
    assert s[1..] != [] && s[1] != '+' && q[0] == s[1];
    assert q[1..] == ProtectPlus(s[1..][1..]);
    assert s[1..][1..] == s[2..];
    assert s[2..] != [] && s[2] != '+' && q[1..][0] == s[2];
  }

  lemma {:induction false} ProtectSplits(s: Text)
    ensures UpToAmpersand(ProtectPlus(s)) == ProtectPlus(UpToAmpersand(s))
  {
    if s != [] && s[0] != '&' {
      ProtectSplits(s[1..]);
      var rest := ProtectPlus(s[1..]);
      var p := ProtectPlus(s);
      if s[0] == '+' {
        assert p == ['%', '2', 'B'] + rest;
        UpToSkips(['%', '2', 'B'], rest);
      } else {
        assert p == [s[0]] + rest;
        UpToSkips([s[0]], rest);
      }
      UpToSkips([s[0]], s[1..]);
      assert s == [s[0]] + s[1..];
      var u := UpToAmpersand(s[1..]);
      assert UpToAmpersand(s) == [s[0]] + u;
      assert ([s[0]] + u)[1..] == u;
    } else if s != [] {
      assert ProtectPlus(s)[0] == '&';
    }
  }

  lemma {:induction false} SplitOnceSkips(a: Text, b: Text, c: Octet)
    requires c !in a
    ensures SplitOnce(a + b, c) ==
            match SplitOnce(b, c) case None => None case Some(h) => Some(Halves(a + h.left, h.right))
  {
    if a == [] {
      assert a + b == b;
      if SplitOnce(b, c).Some? {
        assert a + SplitOnce(b, c).value.left == SplitOnce(b, c).value.left;
      }
    } else {
      SplitOnceSkips(a[1..], b, c);
      assert (a + b)[1..] == a[1..] + b;
      if SplitOnce(b, c).Some? {
        var left := SplitOnce(b, c).value.left;
        assert a + left == [a[0]] + (a[1..] + left);
      }
    }
  }

  lemma UpToSkips(a: Text, b: Text)
    requires '&' !in a
    ensures UpToAmpersand(a + b) == a + UpToAmpersand(b)
  {
    SplitOnceSkips(a, b, '&');
  }

  /** The first pair of a form is read off the part before the first `&`. */
  lemma FormParseFirst(s: Text)
    requires UpToAmpersand(s) != []
    ensures FormParse(s) != [] && FormParse(s)[0] == FormPair(UpToAmpersand(s))
  {}

  lemma ValuePairReads(v: Text)
    ensures FormPair(VALUE_EQUALS + v).value == FormDecode(v)
  {
    var name: Text := ['v', 'a', 'l', 'u', 'e'];
    SplitOnceFinds(name, '=', v);
    assert VALUE_EQUALS + v == name + ['='] + v;
  }

  /** Exactly what component decoding does, on every input: `+` stays, escapes expand, the rest from `&` on is lost. */
  lemma DecodeUrlComponentIs(s: Text)
    ensures DecodeUrlComponent(s) == Decode(UpToAmpersand(s))
  {
    var v := ProtectPlus(UpToAmpersand(s));
    UpToSkips(VALUE_EQUALS, ProtectPlus(s));
    ProtectSplits(s);
    assert UpToAmpersand(VALUE_EQUALS + ProtectPlus(s)) == VALUE_EQUALS + v;
    FormParseFirst(VALUE_EQUALS + ProtectPlus(s));
    ValuePairReads(v);
    ProtectedHasNoPlus(UpToAmpersand(s));
    DecodeProtected(UpToAmpersand(s));
  }

  lemma DecodeStep(head: Text, rest: Text)
    requires StartsEscape(head) && |head| == 3
    ensures Decode(head + rest) == [Unescaped(head)] + Decode(rest)
  {
    assert (head + rest)[3..] == rest;
  }

  lemma DecodePlainStep(c: Octet, rest: Text)
    requires !StartsEscape([c] + rest)
    ensures Decode([c] + rest) == [c] + Decode(rest)
  {
    assert ([c] + rest)[1..] == rest;
  }

  /** An escape that would have to reach over the `&` is none. */
  lemma EscapeEndsBefore(a: Text, b: Text)
    requires a != []
    ensures StartsEscape(a + (['&'] + b)) <==> StartsEscape(a)
  {}

  lemma {:induction false} DecodeAtAmpersand(a: Text, b: Text)
    ensures Decode(a + (['&'] + b)) == Decode(a) + (['&'] + Decode(b))
    decreases |a|
  {
    var tail, decoded := ['&'] + b, ['&'] + Decode(b);
    if a == [] {
      DecodePlainStep('&', b);
      assert a + tail == tail;
      assert Decode(a) + decoded == decoded;
    } else {
      EscapeEndsBefore(a, b);
      var k := if StartsEscape(a) then 3 else 1;
      var head, rest := a[..k], a[k..];
      assert a == head + rest;
      DecodeAtAmpersand(rest, b);
      ConcatAssoc(head, rest, tail);
      if StartsEscape(a) {
        DecodeStep(head, rest + tail);
        ConcatAssoc([Unescaped(a)], Decode(rest), decoded);
      } else {
        assert head == [a[0]];
        DecodePlainStep(a[0], rest + tail);
        ConcatAssoc([a[0]], Decode(rest), decoded);
      }
    }
  }

  lemma {:induction false} SplitOnceRebuilds(s: Text, c: Octet)
    requires SplitOnce(s, c).Some?
    ensures s == SplitOnce(s, c).value.left + [c] + SplitOnce(s, c).value.right
  {
    if s[0] != c {
      SplitOnceRebuilds(s[1..], c);
    }
  }

  lemma {:induction false} SplitOnceSomeIff(s: Text, c: Octet)
    ensures SplitOnce(s, c).Some? <==> c in s
  {
    if s != [] && s[0] != c {
      SplitOnceSomeIff(s[1..], c);
    }
  }

  /**
   A user, password or database name means what its escapes say if and only if it
   contains no raw `&`, which RFC 3986 would have allowed there.
   */
  lemma ComponentMeansItsEscapesIff(s: Text)
    ensures DecodeUrlComponent(s) == Decode(s) <==> '&' !in s
  {
    DecodeUrlComponentIs(s);
    SplitOnceSomeIff(s, '&');
    if '&' in s {
      var h := SplitOnce(s, '&').value;
      SplitOnceRebuilds(s, '&');
      ConcatAssoc(h.left, ['&'], h.right);
      DecodeAtAmpersand(h.left, h.right);
      assert |Decode(s)| > |Decode(h.left)|;
    }
  }

  /** For instance, the user `a&b` is cut to `a`. */
  lemma RawAmpersandIsCut()
    ensures DecodeUrlComponent(['a', '&', 'b']) == ['a']
  {
    var s: Text := ['a', '&', 'b'];
    DecodeUrlComponentIs(s);
    assert s == ['a'] + ['&'] + ['b'];
    SplitOnceFinds(['a'], '&', ['b']);
    assert Decode(['a']) == ['a'];
  }

  // ---- `libpq_value` and the keyword/value string ----

  predicate NeedsQuotes(value: Text) {
    exists i | 0 <= i < |value| :: IsSpace(value[i]) || value[i] == '\'' || value[i] == '\\'
  }

  function EscapeQuotes(s: Text): Text {
    if s == [] then [] else (if s[0] == '\\' || s[0] == '\'' then ['\\', s[0]] else [s[0]]) + EscapeQuotes(s[1..])
  }

  /** `wide` stands for white space outside ASCII, which also makes the program quote. */
  function LibpqValue(value: Text, wide: Text -> bool): Text {
    if NeedsQuotes(value) || wide(value) then ['\''] + EscapeQuotes(value) + ['\''] else value
  }

  /** A value is quoted exactly when it holds white space, a quote or a backslash. */
  lemma QuotedIff(value: Text, wide: Text -> bool)
    requires !wide(value)
    ensures LibpqValue(value, wide) == value <==>
            forall i | 0 <= i < |value| :: !('\t' <= value[i] <= '\r') && value[i] != ' ' && value[i] != '\'' && value[i] != '\\'
  {
    if NeedsQuotes(value) {
      QuotingLengthens(value);
    }
  }

  lemma {:induction false} QuotingLengthens(s: Text)
    ensures |EscapeQuotes(s)| >= |s|
  {
    if s != [] {
      QuotingLengthens(s[1..]);
    }
  }

  function Rendered(pairs: seq<Pair>, wide: Text -> bool): Text {
    if pairs == [] then []
    else
      var first := pairs[0].key + ['='] + LibpqValue(pairs[0].value, wide);
      if |pairs| == 1 then first else first + [' '] + Rendered(pairs[1..], wide)
  }

  // ---- the keyword/value grammar, as libpq reads it ----

  function SkipSpaces(s: Text): (r: Text)
    ensures |r| <= |s|
  {
    if s != [] && IsSpace(s[0]) then SkipSpaces(s[1..]) else s
  }

  /** A keyword runs up to white space or `=`. */
  function TakeName(s: Text): (h: Halves)
    ensures |h.right| <= |s|
  {
    if s == [] || IsSpace(s[0]) || s[0] == '=' then Halves([], s)
    else var h := TakeName(s[1..]); Halves([s[0]] + h.left, h.right)
  }

  /** A bare value runs up to white space; a backslash takes the next byte literally. */
  function TakeBare(s: Text): (h: Halves)
    ensures |h.right| <= |s|
  {
    if s == [] || IsSpace(s[0]) then Halves([], s)
    else if s[0] == '\\' then
      if |s| == 1 then Halves([], [])
      else var h := TakeBare(s[2..]); Halves([s[1]] + h.left, h.right)
    else var h := TakeBare(s[1..]); Halves([s[0]] + h.left, h.right)
  }

  /** A quoted value runs to the closing quote; without one the string is malformed. */
  function TakeQuoted(s: Text): (r: Option<Halves>)
    ensures r.Some? ==> |r.value.right| <= |s|
  {
    if s == [] then None
    else if s[0] == '\'' then Some(Halves([], s[1..]))
    else
      var skip := if s[0] == '\\' && |s| > 1 then 2 else 1;
      match TakeQuoted(s[skip..])
      case None => None
      case Some(h) => Some(Halves([s[skip - 1]] + h.left, h.right))
  }

  function TakeValue(s: Text): (r: Option<Halves>)
    ensures r.Some? ==> |r.value.right| <= |s|
  {
    var v := SkipSpaces(s);
    if v != [] && v[0] == '\'' then TakeQuoted(v[1..]) else Some(TakeBare(v))
  }

  function ReadPairs(s: Text): Option<seq<Pair>>
    decreases |s|
  {
    var t := SkipSpaces(s);
    if t == [] then Some([])
    else
      var name := TakeName(t);
      var r := SkipSpaces(name.right);
      if r == [] || r[0] != '=' then None
      else match TakeValue(r[1..])
        case None => None
        case Some(h) =>
          match ReadPairs(h.right)
          case None => None
          case Some(ps) => Some([Pair(name.left, h.left)] + ps)
  }

  /** A name that a keyword/value string can carry; there is no quoting for names. */
  predicate Readable(key: Text) {
    forall i | 0 <= i < |key| :: !IsSpace(key[i]) && key[i] != '='
  }

  predicate AllReadable(pairs: seq<Pair>) {
    forall i | 0 <= i < |pairs| :: Readable(pairs[i].key)
  }

  predicate NoneEmpty(pairs: seq<Pair>) {
    forall i | 0 <= i < |pairs| :: pairs[i].value != []
  }

  ghost predicate EndsValue(tail: Text) {
    tail == [] || IsSpace(tail[0])
  }

  lemma {:induction false} TakeNameTakes(key: Text, rest: Text)
    requires Readable(key)
    ensures TakeName(key + ['='] + rest) == Halves(key, ['='] + rest)
  {
    var s := key + ['='] + rest;
    if key == [] {
      assert s == ['='] + rest;
    } else {
      TakeNameTakes(key[1..], rest);
      assert s[1..] == key[1..] + ['='] + rest;
      assert [key[0]] + key[1..] == key;
    }
  }

  lemma {:induction false} TakeBareTakes(value: Text, tail: Text)
    requires !NeedsQuotes(value) && EndsValue(tail)
    ensures TakeBare(value + tail) == Halves(value, tail)
  {
    var s := value + tail;
    if value == [] {
      assert s == tail;
    } else {
      assert !IsSpace(value[0]) && value[0] != '\\';
      forall i | 0 <= i < |value[1..]|
        ensures !(IsSpace(value[1..][i]) || value[1..][i] == '\'' || value[1..][i] == '\\') {
        assert value[1..][i] == value[i + 1];
      }
      TakeBareTakes(value[1..], tail);
      assert s[1..] == value[1..] + tail;
      assert [value[0]] + value[1..] == value;
    }
  }

  lemma TakeQuotedStep(c: Octet, rest: Text)
    ensures c != '\\' && c != '\'' ==>
              (TakeQuoted([c] + rest) ==
               match TakeQuoted(rest) case None => None case Some(h) => Some(Halves([c] + h.left, h.right)))
    ensures TakeQuoted(['\\', c] + rest) ==
              match TakeQuoted(rest) case None => None case Some(h) => Some(Halves([c] + h.left, h.right))
  {
    assert ([c] + rest)[1..] == rest;
    assert (['\\', c] + rest)[2..] == rest;
  }

  lemma {:induction false} TakeQuotedTakes(value: Text, tail: Text)
    ensures TakeQuoted(EscapeQuotes(value) + (['\''] + tail)) == Some(Halves(value, tail))
  {
    var close := ['\''] + tail;
    if value == [] {
      assert [] + close == close;
      assert close[1..] == tail;
    } else {
      var c, more := value[0], EscapeQuotes(value[1..]) + close;
      TakeQuotedTakes(value[1..], tail);
      TakeQuotedStep(c, more);
      assert value == [c] + value[1..];
      if c == '\\' || c == '\'' {
        ConcatAssoc(['\\', c], EscapeQuotes(value[1..]), close);
      } else {
        ConcatAssoc([c], EscapeQuotes(value[1..]), close);
      }
    }
  }

  lemma TakeValueTakes(value: Text, tail: Text, wide: Text -> bool)
    requires value != [] && EndsValue(tail)
    ensures TakeValue(LibpqValue(value, wide) + tail) == Some(Halves(value, tail))
  {
    if NeedsQuotes(value) || wide(value) {
      QuotedValueTakes(value, tail);
    } else {
      TakeBareTakes(value, tail);
      var s := value + tail;
      assert s[0] == value[0];
      assert !IsSpace(value[0]) && value[0] != '\'';
    }
  }

  lemma QuotedValueTakes(value: Text, tail: Text)
    ensures TakeValue((['\''] + EscapeQuotes(value) + ['\'']) + tail) == Some(Halves(value, tail))
  {
    var inner := EscapeQuotes(value);
    TakeQuotedTakes(value, tail);
    ConcatAssoc(['\''] + inner, ['\''], tail);
    ConcatAssoc(['\''], inner, ['\''] + tail);
    OpeningQuote(inner + (['\''] + tail));
  }

  lemma OpeningQuote(body: Text)
    ensures TakeValue(['\''] + body) == TakeQuoted(body)
  {
    assert (['\''] + body)[1..] == body;
  }

  lemma ReadPairsStep(pair: Pair, tail: Text, wide: Text -> bool)
    requires Readable(pair.key) && pair.value != [] && EndsValue(tail)
    ensures ReadPairs(pair.key + ['='] + LibpqValue(pair.value, wide) + tail) ==
            match ReadPairs(tail) case None => None case Some(ps) => Some([pair] + ps)
  {
    var rest := LibpqValue(pair.value, wide) + tail;
    var s := pair.key + ['='] + rest;
    assert s == pair.key + ['='] + LibpqValue(pair.value, wide) + tail;
    assert s[0] == (if pair.key == [] then '=' else pair.key[0]);
    TakeNameTakes(pair.key, rest);
    assert (['='] + rest)[1..] == rest;
    TakeValueTakes(pair.value, tail, wide);
  }

  lemma ReadPairsSkips(s: Text)
    ensures ReadPairs([' '] + s) == ReadPairs(s)
  {
    assert ([' '] + s)[1..] == s;
  }

  lemma RenderedCons(p: Pair, rest: seq<Pair>, wide: Text -> bool)
    ensures var first := p.key + ['='] + LibpqValue(p.value, wide);
            Rendered([p] + rest, wide) == first + (if rest == [] then [] else [' '] + Rendered(rest, wide))
  {
    var first := p.key + ['='] + LibpqValue(p.value, wide);
    assert ([p] + rest)[1..] == rest;
    if rest == [] {
      assert first + [] == first;
    } else {
      ConcatAssoc(first, [' '], Rendered(rest, wide));
    }
  }

  lemma {:induction false} ReadableReadsBack(pairs: seq<Pair>, wide: Text -> bool)
    requires AllReadable(pairs) && NoneEmpty(pairs)
    ensures ReadPairs(Rendered(pairs, wide)) == Some(pairs)
    decreases |pairs|
  {
    if pairs != [] {
      var p, rest := pairs[0], pairs[1..];
      var tail := if rest == [] then [] else [' '] + Rendered(rest, wide);
      ReadableReadsBack(rest, wide);
      ReadPairsSkips(Rendered(rest, wide));
      assert ReadPairs(tail) == Some(rest);
      RenderedCons(p, rest, wide);
      assert pairs == [p] + rest;
      ReadPairsStep(p, tail, wide);
    }
  }

  lemma {:induction false} TakenNameIsReadable(s: Text)
    ensures Readable(TakeName(s).left)
  {
    if s != [] && !IsSpace(s[0]) && s[0] != '=' {
      TakenNameIsReadable(s[1..]);
    }
  }

  /** No keyword/value string whatever yields a name with white space or `=` in it. */
  lemma {:induction false} ReadNamesAreReadable(s: Text)
    requires ReadPairs(s).Some?
    ensures AllReadable(ReadPairs(s).value)
    decreases |s|
  {
    var t := SkipSpaces(s);
    if t != [] {
      TakenNameIsReadable(t);
      var h := TakeValue(SkipSpaces(TakeName(t).right)[1..]).value;
      ReadNamesAreReadable(h.right);
    }
  }

  /**
   What is rendered reads back to the same pairs, whatever the values contain, if
   and only if no name holds white space or `=`.
   */
  lemma RenderedReadsBackIff(pairs: seq<Pair>, wide: Text -> bool)
    requires NoneEmpty(pairs)
    ensures ReadPairs(Rendered(pairs, wide)) == Some(pairs) <==> AllReadable(pairs)
  {
    if AllReadable(pairs) {
      ReadableReadsBack(pairs, wide);
    } else if ReadPairs(Rendered(pairs, wide)).Some? {
      ReadNamesAreReadable(Rendered(pairs, wide));
    }
  }

  lemma ReadOnePair(p: Pair, wide: Text -> bool)
    requires Readable(p.key) && p.value != []
    ensures ReadPairs(p.key + ['='] + LibpqValue(p.value, wide)) == Some([p])
  {
    ReadPairsStep(p, [], wide);
    var s := p.key + ['='] + LibpqValue(p.value, wide);
    assert s + [] == s;
    assert ReadPairs([]) == Some([]);
    assert [p] + [] == [p];
  }

  lemma NotQuoted(p: Pair, tail: Text)
    requires Readable(p.key) && p.value != [] && !NeedsQuotes(p.value) && EndsValue(tail)
    ensures ReadPairs(p.key + ['='] + p.value + tail) ==
            match ReadPairs(tail) case None => None case Some(ps) => Some([p] + ps)
  {
    ReadPairsStep(p, tail, _ => false);
  }

  /**
   Otherwise a name can pass itself off as settings of its own: a parameter named
   `k=v key` reads back as two, `k` and `key`.
   */
  lemma NameForgesPair(first: Pair, second: Pair, wide: Text -> bool)
    requires Readable(first.key) && first.value != [] && !NeedsQuotes(first.value)
    requires Readable(second.key) && second.value != []
    ensures ReadPairs(Rendered([Pair(first.key + ['='] + first.value + ([' '] + second.key), second.value)], wide)) ==
            Some([first, second])
  {
    var value := LibpqValue(second.value, wide);
    var head, tail := first.key + ['='] + first.value, second.key + ['='] + value;
    ReadOnePair(second, wide);
    ReadPairsSkips(tail);
    NotQuoted(first, [' '] + tail);
    Regrouped(head, second.key, value);
    assert [first] + [second] == [first, second];
  }

  lemma Regrouped(head: Text, key: Text, value: Text)
    ensures (head + ([' '] + key)) + ['='] + value == head + ([' '] + (key + ['='] + value))
  {
    var text := (head + ([' '] + key)) + ['='] + value;
    assert text[..|head|] == head;
    assert text[|head|..] == [' '] + (key + ['='] + value);
  }
}
