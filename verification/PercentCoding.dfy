/**
 Percent-encoding over bytes (section 2.1 of RFC 3986), shared by the DSN
 rewriter and the secret-reference printer. A text is the sequence of bytes of its
 UTF-8 form, written as the characters of the same codes.
 */
module PercentCoding {
  import opened Basics

  type Octet = c: char | c as int < 256 witness 'a'
  type Text = seq<Octet>

  function HexDigit(n: nat): Octet
    requires n < 16
  {
    if n < 10 then '0' + n as char else 'A' + (n - 10) as char
  }

  predicate IsHex(c: Octet) {
    '0' <= c <= '9' || 'A' <= c <= 'F' || 'a' <= c <= 'f'
  }

  function HexValue(c: Octet): (n: nat)
    requires IsHex(c)
    ensures n < 16
  {
    if c <= '9' then (c - '0') as int else if c <= 'F' then (c - 'A') as int + 10 else (c - 'a') as int + 10
  }

  lemma HexRoundTrip(n: nat)
    requires n < 16
    ensures IsHex(HexDigit(n)) && HexValue(HexDigit(n)) == n
  {}

  function Escaped(c: Octet): Text {
    ['%', HexDigit(c as int / 16), HexDigit(c as int % 16)]
  }

  /** Escape every byte that is not `safe`. */
  function Encode(s: Text, safe: Octet -> bool): Text {
    if s == [] then [] else (if safe(s[0]) then [s[0]] else Escaped(s[0])) + Encode(s[1..], safe)
  }

  predicate StartsEscape(s: Text) {
    |s| >= 3 && s[0] == '%' && IsHex(s[1]) && IsHex(s[2])
  }

  function Unescaped(s: Text): Octet
    requires StartsEscape(s)
  {
    (HexValue(s[1]) * 16 + HexValue(s[2])) as char
  }

  /** Expand the escapes; a `%` that starts none stands for itself. */
  function Decode(s: Text): Text {
    if s == [] then []
    else if StartsEscape(s) then [Unescaped(s)] + Decode(s[3..])
    else [s[0]] + Decode(s[1..])
  }

  lemma DecodeEscaped(c: Octet, rest: Text)
    ensures Decode(Escaped(c) + rest) == [c] + Decode(rest)
  {
    HexRoundTrip(c as int / 16);
    HexRoundTrip(c as int % 16);
    var s := Escaped(c) + rest;
    assert s[3..] == rest;
    assert Unescaped(s) == c;
  }

  /** A hexadecimal digit in either case. */
  function DigitIn(n: nat, upper: bool): Octet
    requires n < 16
  {
    if n < 10 then '0' + n as char else if upper then 'A' + (n - 10) as char else 'a' + (n - 10) as char
  }

  /** Escapes are read in either case. */
  lemma EitherCaseDecodes(hi: nat, lo: nat, upperHi: bool, upperLo: bool, rest: Text)
    requires hi < 16 && lo < 16
    ensures Decode(['%', DigitIn(hi, upperHi), DigitIn(lo, upperLo)] + rest) == [(hi * 16 + lo) as char] + Decode(rest)
  {
    var s := ['%', DigitIn(hi, upperHi), DigitIn(lo, upperLo)] + rest;
    assert s[3..] == rest;
    assert HexValue(s[1]) == hi && HexValue(s[2]) == lo;
  }

  /** A `%` that two such digits do not follow stands for itself. */
  lemma LonePercentStands(rest: Text)
    requires forall hi: nat, lo: nat, a, b | hi < 16 && lo < 16 ::
               |rest| < 2 || rest[0] != DigitIn(hi, a) || rest[1] != DigitIn(lo, b)
    ensures Decode(['%'] + rest) == ['%'] + Decode(rest)
  {
    var s := ['%'] + rest;
    assert s[1..] == rest;
    if StartsEscape(s) {
      DigitOf(rest[0]);
      DigitOf(rest[1]);
    }
  }

  lemma DigitOf(c: Octet)
    requires IsHex(c)
    ensures exists n: nat, upper :: n < 16 && c == DigitIn(n, upper)
  {
    var upper := c <= 'F';
    assert c == DigitIn(HexValue(c), upper);
  }

  /** Whatever set of bytes is left alone, decoding undoes encoding, as long as `%` is escaped. */
  lemma {:induction false} DecodeUndoesEncode(s: Text, safe: Octet -> bool)
    requires !safe('%')
    ensures Decode(Encode(s, safe)) == s
  {
    if s != [] {
      var rest := Encode(s[1..], safe);
      DecodeUndoesEncode(s[1..], safe);
      if safe(s[0]) {
        assert ([s[0]] + rest)[1..] == rest;
      } else {
        DecodeEscaped(s[0], rest);
      }
      assert s == [s[0]] + s[1..];
    }
  }

  /** An encoded text holds only safe bytes, `%` and hexadecimal digits. */
  lemma {:induction false} EncodedHolds(s: Text, safe: Octet -> bool, c: Octet)
    requires c in Encode(s, safe)
    ensures safe(c) || c == '%' || IsHex(c)
  {
    if safe(s[0]) {
      if c != s[0] {
        EncodedHolds(s[1..], safe, c);
      }
    } else if c !in Escaped(s[0]) {
      EncodedHolds(s[1..], safe, c);
    } else {
      HexRoundTrip(s[0] as int / 16);
      HexRoundTrip(s[0] as int % 16);
    }
  }

  lemma EncodedAvoids(s: Text, safe: Octet -> bool, c: Octet)
    requires !safe(c) && c != '%' && !IsHex(c)
    ensures c !in Encode(s, safe)
  {
    if c in Encode(s, safe) {
      EncodedHolds(s, safe, c);
    }
  }

  /** Encoding makes nothing vanish, and makes a text longer as soon as one byte needs an escape. */
  lemma {:induction false} EncodeLengthens(s: Text, safe: Octet -> bool)
    ensures |Encode(s, safe)| >= |s|
    ensures (exists i | 0 <= i < |s| :: !safe(s[i])) ==> |Encode(s, safe)| > |s|
  {
    if s != [] {
      EncodeLengthens(s[1..], safe);
      if i :| 0 <= i < |s| && !safe(s[i]) {
        assert i > 0 ==> s[1..][i - 1] == s[i];
      }
    }
  }

  lemma {:induction false} SafeIsLeftAlone(s: Text, safe: Octet -> bool)
    requires forall i | 0 <= i < |s| :: safe(s[i])
    ensures Encode(s, safe) == s
  {
    if s != [] {
      SafeIsLeftAlone(s[1..], safe);
      assert s == [s[0]] + s[1..];
    }
  }

  /** A text is its own encoding if and only if none of its bytes needs an escape. */
  lemma OwnEncodingIff(s: Text, safe: Octet -> bool)
    ensures Encode(s, safe) == s <==> forall i | 0 <= i < |s| :: safe(s[i])
    ensures Encode(s, safe) == [] <==> s == []
  {
    EncodeLengthens(s, safe);
    if forall i | 0 <= i < |s| :: safe(s[i]) {
      SafeIsLeftAlone(s, safe);
    }
  }

  // ---- splitting ----

  datatype Halves = Halves(left: Text, right: Text)

  /** `split_once`: around the first `c`. */
  function SplitOnce(s: Text, c: Octet): Option<Halves> {
    if s == [] then None
    else if s[0] == c then Some(Halves([], s[1..]))
    else match SplitOnce(s[1..], c)
      case None => None
      case Some(h) => Some(Halves([s[0]] + h.left, h.right))
  }

  /** `rsplit_once`: around the last `c`. */
  function RSplitOnce(s: Text, c: Octet): Option<Halves> {
    if s == [] then None
    else
      var n := |s| - 1;
      if s[n] == c then Some(Halves(s[..n], []))
      else match RSplitOnce(s[..n], c)
        case None => None
        case Some(h) => Some(Halves(h.left, h.right + [s[n]]))
  }

  lemma {:induction false} SplitOnceFinds(a: Text, c: Octet, b: Text)
    requires c !in a
    ensures SplitOnce(a + [c] + b, c) == Some(Halves(a, b))
  {
    var s := a + [c] + b;
    if a == [] {
      assert s[1..] == b;
    } else {
      SplitOnceFinds(a[1..], c, b);
      assert s[1..] == a[1..] + [c] + b;
      assert [a[0]] + a[1..] == a;
    }
  }

  lemma {:induction false} SplitOnceMisses(s: Text, c: Octet)
    requires c !in s
    ensures SplitOnce(s, c) == None
  {
    if s != [] {
      SplitOnceMisses(s[1..], c);
    }
  }

  lemma {:induction false} RSplitOnceFinds(a: Text, c: Octet, b: Text)
    requires c !in b
    ensures RSplitOnce(a + [c] + b, c) == Some(Halves(a, b))
    decreases |b|
  {
    var s := a + [c] + b;
    if b == [] {
      assert s[..|s| - 1] == a;
    } else {
      var n := |b| - 1;
      RSplitOnceFinds(a, c, b[..n]);
      assert s[..|s| - 1] == a + [c] + b[..n];
      assert b[..n] + [b[n]] == b;
    }
  }

  lemma {:induction false} RSplitOnceMisses(s: Text, c: Octet)
    requires c !in s
    ensures RSplitOnce(s, c) == None
    decreases |s|
  {
    if s != [] {
      RSplitOnceMisses(s[..|s| - 1], c);
    }
  }
}
