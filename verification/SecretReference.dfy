/**
 Secret references of the 1Password sidecar (sidecars/onepassword/main.go:
 `buildSecretReference`, `isTOTPFieldType`). The printer escapes each part as a
 path segment (section 3.3 of RFC 3986, in the form of Go's `url.PathEscape`) and
 joins them; the reader below recovers everything that went in.
 */
module SecretReference {
  import opened Basics
  import opened PercentCoding

  datatype Payload = Payload(vault: Text, item: Text, section: Option<Text>, field: Text)

  predicate IsLetterOrDigit(c: Octet) {
    'a' <= c <= 'z' || 'A' <= c <= 'Z' || '0' <= c <= '9'
  }

  /** The bytes Go leaves alone in a path segment. */
  predicate SegmentSafe(c: Octet) {
    IsLetterOrDigit(c) || c in ['-', '_', '.', '~', '$', '&', '+', '=', ':', '@']
  }

  /** The white space of Unicode as Go defines it, each character as the bytes of its UTF-8 form. */
  predicate IsSpace(s: Text) {
    || (|s| == 1 && ('\t' <= s[0] <= '\r' || s[0] == ' '))
    || (|s| == 2 && s[0] == '\U{C2}' && (s[1] == '\U{85}' || s[1] == '\U{A0}'))
    || (|s| == 3 && IsWideSpace(s[0], s[1], s[2]))
  }

  predicate IsWideSpace(a: Octet, b: Octet, c: Octet) {
    || (a == '\U{E1}' && b == '\U{9A}' && c == '\U{80}')
    || (a == '\U{E2}' && b == '\U{80}'
        && ('\U{80}' <= c <= '\U{8A}' || c == '\U{A8}' || c == '\U{A9}' || c == '\U{AF}'))
    || (a == '\U{E2}' && b == '\U{81}' && c == '\U{9F}')
    || (a == '\U{E3}' && b == '\U{80}' && c == '\U{80}')
  }

  /** How many bytes of white space the text opens with, one character at most. */
  function LeadingSpace(s: Text): (k: nat)
    ensures k <= |s| && (k > 0 ==> IsSpace(s[..k]))
  {
    if |s| >= 1 && IsSpace(s[..1]) then 1
    else if |s| >= 2 && IsSpace(s[..2]) then 2
    else if |s| >= 3 && IsSpace(s[..3]) then 3
    else 0
  }

  predicate EndsInSpace(s: Text, k: nat) {
    |s| >= k && IsSpace(s[|s| - k..])
  }

  function TrailingSpace(s: Text): (k: nat)
    ensures k <= |s| && (k > 0 ==> IsSpace(s[|s| - k..]))
  {
    if EndsInSpace(s, 1) then 1 else if EndsInSpace(s, 2) then 2 else if EndsInSpace(s, 3) then 3 else 0
  }

  function TrimLeft(s: Text): Text {
    if LeadingSpace(s) == 0 then s else TrimLeft(s[LeadingSpace(s)..])
  }

  function TrimRight(s: Text): Text {
    if TrailingSpace(s) == 0 then s else TrimRight(s[..|s| - TrailingSpace(s)])
  }

  /** Of the bytes of `totp` none is the lower case of anything outside ASCII, so ASCII is all that matters here. */
  function LowerOctet(c: Octet): Octet {
    if 'A' <= c <= 'Z' then c + (32 as char) else c
  }

  function Lowered(s: Text): Text {
    if s == [] then [] else [LowerOctet(s[0])] + Lowered(s[1..])
  }

  predicate IsTotpFieldType(fieldType: Text) {
    var normalized := Lowered(TrimRight(TrimLeft(fieldType)));
    normalized == ['t', 'o', 't', 'p'] || normalized == ['o', 't', 'p']
  }

  const SCHEME: Text := ['o', 'p', ':', '/', '/']
  const TOTP_QUERY: Text := ['?', 'a', 't', 't', 'r', 'i', 'b', 'u', 't', 'e', '=', 'o', 't', 'p']

  function Parts(p: Payload): seq<Text> {
    [p.vault, p.item] + (if p.section.Some? then [p.section.value] else []) + [p.field]
  }

  function Joined(parts: seq<Text>): Text
    requires parts != []
  {
    if |parts| == 1 then parts[0] else Joined(parts[..|parts| - 1]) + ['/'] + parts[|parts| - 1]
  }

  function Segment(s: Text): Text {
    Encode(s, SegmentSafe)
  }

  function Segments(parts: seq<Text>): seq<Text> {
    seq(|parts|, i requires 0 <= i < |parts| => Segment(parts[i]))
  }

  function Reference(p: Payload, fieldType: Text): Text {
    SCHEME + Joined(Segments(Parts(p))) + (if IsTotpFieldType(fieldType) then TOTP_QUERY else [])
  }

  method EscapeInPlace(plain: seq<Text>) returns (parts: seq<Text>)
    ensures parts == Segments(plain)
  {
    parts := plain;
    for i := 0 to |parts|
      invariant |parts| == |plain|
      invariant forall k | 0 <= k < |parts| :: parts[k] == if k < i then Segment(plain[k]) else plain[k]
    {
      parts := parts[i := Segment(parts[i])];
    }
  }

  method AppendParts(parts: seq<Text>) returns (path: Text)
    requires parts != []
    ensures path == Joined(parts)
  {
    path := parts[0];
    assert parts[..1] == [parts[0]];
    for i := 1 to |parts|
      invariant path == Joined(parts[..i])
    {
      assert parts[..i + 1][..i] == parts[..i];
      path := path + ['/'] + parts[i];
    }
    assert parts[..|parts|] == parts;
  }

  /** The printer: escape the parts in place, then append them one by one. */
  method BuildSecretReference(p: Payload, fieldType: Text) returns (reference: Text)
    ensures reference == Reference(p, fieldType)
  {
    var parts := [p.vault, p.item];
    if p.section.Some? {
      parts := parts + [p.section.value];
    }
    parts := parts + [p.field];
    assert parts == Parts(p);
    parts := EscapeInPlace(parts);
    var path := AppendParts(parts);
    reference := SCHEME + path;
    if IsTotpFieldType(fieldType) {
      reference := reference + TOTP_QUERY;
    } else {
      assert reference + [] == reference;
    }
  }

  // ---- reading a reference back ----

  function SplitAll(s: Text): seq<Text>
    decreases |s|
  {
    match RSplitOnce(s, '/')
    case None => [s]
    case Some(h) => assert |h.left| < |s| by { RSplitShrinks(s, '/'); } SplitAll(h.left) + [h.right]
  }

  lemma {:induction false} RSplitShrinks(s: Text, c: Octet)
    requires RSplitOnce(s, c).Some?
    ensures |RSplitOnce(s, c).value.left| < |s|
    decreases |s|
  {
    if s[|s| - 1] != c {
      RSplitShrinks(s[..|s| - 1], c);
    }
  }

  function Unsegment(parts: seq<Text>): seq<Text> {
    seq(|parts|, i requires 0 <= i < |parts| => Decode(parts[i]))
  }

  function FromParts(parts: seq<Text>): Option<Payload> {
    if |parts| == 3 then Some(Payload(parts[0], parts[1], None, parts[2]))
    else if |parts| == 4 then Some(Payload(parts[0], parts[1], Some(parts[2]), parts[3]))
    else None
  }

  function ReadPath(path: Text, totp: bool): Option<(Payload, bool)> {
    match FromParts(Unsegment(SplitAll(path)))
    case None => None
    case Some(p) => Some((p, totp))
  }

  function ReadBody(body: Text): Option<(Payload, bool)> {
    match SplitOnce(body, '?')
    case None => ReadPath(body, false)
    case Some(h) => if h.right == TOTP_QUERY[1..] then ReadPath(h.left, true) else None
  }

  /** The payload and whether the one-time-password attribute is asked for. */
  function Read(reference: Text): Option<(Payload, bool)> {
    if SCHEME <= reference then ReadBody(reference[|SCHEME|..]) else None
  }

  lemma {:induction false} SplitAllUndoesJoined(parts: seq<Text>)
    requires parts != [] && forall i | 0 <= i < |parts| :: '/' !in parts[i]
    ensures SplitAll(Joined(parts)) == parts
    decreases |parts|
  {
    var n := |parts| - 1;
    if n == 0 {
      RSplitOnceMisses(parts[0], '/');
      assert parts == [parts[0]];
    } else {
      SplitAllUndoesJoined(parts[..n]);
      RSplitOnceFinds(Joined(parts[..n]), '/', parts[n]);
      assert parts == parts[..n] + [parts[n]];
    }
  }

  lemma {:induction false} JoinedAvoids(parts: seq<Text>, c: Octet)
    requires parts != [] && c != '/' && forall i | 0 <= i < |parts| :: c !in parts[i]
    ensures c !in Joined(parts)
    decreases |parts|
  {
    if |parts| > 1 {
      JoinedAvoids(parts[..|parts| - 1], c);
    }
  }

  lemma UnsegmentUndoesSegments(parts: seq<Text>)
    ensures Unsegment(Segments(parts)) == parts
  {
    forall i | 0 <= i < |parts| ensures Decode(Segment(parts[i])) == parts[i] {
      DecodeUndoesEncode(parts[i], SegmentSafe);
    }
  }

  lemma PathReadsBack(p: Payload)
    ensures var path := Joined(Segments(Parts(p)));
            '?' !in path && FromParts(Unsegment(SplitAll(path))) == Some(p)
  {
    var parts := Parts(p);
    var segments := Segments(parts);
    forall i | 0 <= i < |segments| ensures '/' !in segments[i] && '?' !in segments[i] {
      EncodedAvoids(parts[i], SegmentSafe, '/');
      EncodedAvoids(parts[i], SegmentSafe, '?');
    }
    SplitAllUndoesJoined(segments);
    JoinedAvoids(segments, '?');
    UnsegmentUndoesSegments(parts);
  }

  /**
   Every reference reads back to all its parts, to whether a section was named,
   even an empty one, and to whether the field is a one-time password.
   */
  lemma ReferenceReadsBack(p: Payload, fieldType: Text)
    ensures Read(Reference(p, fieldType)) == Some((p, IsTotpFieldType(fieldType)))
  {
    var path := Joined(Segments(Parts(p)));
    PathReadsBack(p);
    BodyReadsBack(path, IsTotpFieldType(fieldType));
    var tail := if IsTotpFieldType(fieldType) then TOTP_QUERY else [];
    Assoc(SCHEME, path, tail);
    SchemeIsRead(path + tail);
  }

  lemma SchemeIsRead(body: Text)
    ensures Read(SCHEME + body) == ReadBody(body)
  {
    assert (SCHEME + body)[|SCHEME|..] == body;
  }

  lemma BodyReadsBack(path: Text, totp: bool)
    requires '?' !in path
    ensures ReadBody(path + (if totp then TOTP_QUERY else [])) == ReadPath(path, totp)
  {
    if totp {
      var rest := TOTP_QUERY[1..];
      assert path + TOTP_QUERY == path + ['?'] + rest;
      SplitOnceFinds(path, '?', rest);
    } else {
      assert path + [] == path;
      SplitOnceMisses(path, '?');
    }
  }

  lemma JoinedTwo(a: Text, b: Text)
    ensures Joined([a, b]) == a + ['/'] + b
  {
    assert [a, b][..1] == [a];
  }

  lemma JoinedThree(a: Text, b: Text, c: Text)
    ensures Joined([a, b, c]) == a + ['/'] + b + ['/'] + c
  {
    JoinedTwo(a, b);
    assert [a, b, c][..2] == [a, b];
  }

  lemma JoinedFour(a: Text, b: Text, c: Text, d: Text)
    ensures Joined([a, b, c, d]) == a + ['/'] + b + ['/'] + c + ['/'] + d
  {
    JoinedThree(a, b, c);
    assert [a, b, c, d][..3] == [a, b, c];
  }

  /** How a reference is spelled: three or four segments after `op://`, and the attribute last. */
  lemma ReferenceIsSpelled(p: Payload, fieldType: Text)
    ensures var v, i, f := Segment(p.vault), Segment(p.item), Segment(p.field);
            Reference(p, fieldType) ==
            "op://"
            + (if p.section.Some? then v + ['/'] + i + ['/'] + Segment(p.section.value) + ['/'] + f
               else v + ['/'] + i + ['/'] + f)
            + (if IsTotpFieldType(fieldType) then "?attribute=otp" else "")
  {
    var v, i, f := Segment(p.vault), Segment(p.item), Segment(p.field);
    if p.section.Some? {
      assert Segments(Parts(p)) == [v, i, Segment(p.section.value), f];
      JoinedFour(v, i, Segment(p.section.value), f);
    } else {
      assert Segments(Parts(p)) == [v, i, f];
      JoinedThree(v, i, f);
    }
  }

  /** Distinct fields never share a reference. */
  lemma ReferencesAreInjective(p: Payload, t: Text, q: Payload, u: Text)
    ensures Reference(p, t) == Reference(q, u) ==> p == q && IsTotpFieldType(t) == IsTotpFieldType(u)
  {
    ReferenceReadsBack(p, t);
    ReferenceReadsBack(q, u);
  }

  // ---- which field types are one-time passwords ----

  predicate SameOctet(a: Octet, b: Octet) {
    || a == b
    || ('A' <= a <= 'Z' && b as int == a as int + 32)
    || ('A' <= b <= 'Z' && a as int == b as int + 32)
  }

  predicate SameText(s: Text, t: Text) {
    |s| == |t| && forall i | 0 <= i < |s| :: SameOctet(s[i], t[i])
  }

  predicate AllSpace(pieces: seq<Text>) {
    forall i | 0 <= i < |pieces| :: IsSpace(pieces[i])
  }

  function Concat(pieces: seq<Text>): Text {
    if pieces == [] then [] else pieces[0] + Concat(pieces[1..])
  }

  lemma {:induction false} LoweredIff(s: Text, t: Text)
    requires forall i | 0 <= i < |t| :: !('A' <= t[i] <= 'Z')
    ensures Lowered(s) == t <==> SameText(s, t)
    ensures |Lowered(s)| == |s|
    decreases |s|
  {
    if s != [] && t != [] {
      LoweredIff(s[1..], t[1..]);
      assert t == [t[0]] + t[1..];
      if SameText(s, t) {
        assert SameOctet(s[0], t[0]);
        assert forall i | 0 <= i < |s| - 1 :: s[1..][i] == s[i + 1] && t[1..][i] == t[i + 1];
      }
      if SameOctet(s[0], t[0]) && SameText(s[1..], t[1..]) {
        forall i | 0 <= i < |s| ensures SameOctet(s[i], t[i]) {
          assert i > 0 ==> SameOctet(s[1..][i - 1], t[1..][i - 1]);
        }
      }
    } else if s != [] {
      LoweredIff(s[1..], []);
    }
  }

  lemma Assoc(a: Text, b: Text, c: Text)
    ensures (a + b) + c == a + (b + c)
  {}

  /** Trimming takes off white space, and only that. */
  lemma {:induction false} TrimLeftTakes(s: Text) returns (pieces: seq<Text>)
    ensures AllSpace(pieces) && s == Concat(pieces) + TrimLeft(s)
    decreases |s|
  {
    var k := LeadingSpace(s);
    pieces := [];
    if k > 0 {
      var more := TrimLeftTakes(s[k..]);
      pieces := [s[..k]] + more;
      ConcatFirst(s[..k], more);
      PutBackLeft(s, k, more, TrimLeft(s));
    }
  }

  lemma PutBackLeft(s: Text, k: nat, more: seq<Text>, rest: Text)
    requires k <= |s| && s[k..] == Concat(more) + rest
    ensures s == Concat([s[..k]] + more) + rest
  {
    ConcatFirst(s[..k], more);
    Assoc(s[..k], Concat(more), rest);
    assert s == s[..k] + s[k..];
  }

  lemma ConcatFirst(p: Text, pieces: seq<Text>)
    ensures Concat([p] + pieces) == p + Concat(pieces)
    ensures IsSpace(p) && AllSpace(pieces) ==> AllSpace([p] + pieces)
  {
    assert ([p] + pieces)[1..] == pieces;
  }

  lemma {:induction false} ConcatLast(pieces: seq<Text>, p: Text)
    ensures Concat(pieces + [p]) == Concat(pieces) + p
    decreases |pieces|
  {
    if pieces == [] {
      assert pieces + [p] == [p];
      assert Concat([p]) == p + Concat([p][1..]);
    } else {
      ConcatLast(pieces[1..], p);
      assert (pieces + [p])[1..] == pieces[1..] + [p];
      Assoc(pieces[0], Concat(pieces[1..]), p);
    }
  }

  lemma {:induction false} TrimRightTakes(s: Text) returns (pieces: seq<Text>)
    ensures AllSpace(pieces) && s == TrimRight(s) + Concat(pieces)
    decreases |s|
  {
    var k := TrailingSpace(s);
    pieces := [];
    if k > 0 {
      var n := |s| - k;
      var more := TrimRightTakes(s[..n]);
      pieces := more + [s[n..]];
      PutBackRight(s, n, more, TrimRight(s));
    }
  }

  lemma PutBackRight(s: Text, n: nat, more: seq<Text>, rest: Text)
    requires n <= |s| && s[..n] == rest + Concat(more)
    ensures s == rest + Concat(more + [s[n..]])
  {
    ConcatLast(more, s[n..]);
    Assoc(rest, Concat(more), s[n..]);
    assert s == s[..n] + s[n..];
  }

  lemma OneLeading(p: Text, rest: Text)
    requires IsSpace(p)
    ensures LeadingSpace(p + rest) == |p| && (p + rest)[|p|..] == rest
  {
    var s := p + rest;
    assert s[..|p|] == p;
    assert s[..1] == p[..1];
    if |p| == 3 {
      assert s[..2] == p[..2];
    }
  }

  lemma OneTrailing(rest: Text, p: Text)
    requires IsSpace(p)
    ensures TrailingSpace(rest + p) == |p| && (rest + p)[..|rest|] == rest
  {
    var s := rest + p;
    var n := |s|;
    assert s[n - |p|..] == p;
    assert s[n - 1..] == p[|p| - 1..];
    if |p| == 3 {
      assert s[n - 2..] == p[1..];
    }
  }

  lemma TrimLeftOne(p: Text, rest: Text)
    requires IsSpace(p)
    ensures TrimLeft(p + rest) == TrimLeft(rest)
  {
    OneLeading(p, rest);
  }

  lemma TrimRightOne(rest: Text, p: Text)
    requires IsSpace(p)
    ensures TrimRight(rest + p) == TrimRight(rest)
  {
    OneTrailing(rest, p);
  }

  lemma {:induction false} TrimLeftDrops(pieces: seq<Text>, rest: Text)
    requires AllSpace(pieces)
    ensures TrimLeft(Concat(pieces) + rest) == TrimLeft(rest)
    decreases |pieces|
  {
    if pieces == [] {
      assert Concat(pieces) + rest == rest;
    } else {
      TrimLeftDrops(pieces[1..], rest);
      Assoc(pieces[0], Concat(pieces[1..]), rest);
      TrimLeftOne(pieces[0], Concat(pieces[1..]) + rest);
    }
  }

  lemma {:induction false} TrimRightDrops(rest: Text, pieces: seq<Text>)
    requires AllSpace(pieces)
    ensures TrimRight(rest + Concat(pieces)) == TrimRight(rest)
    decreases |pieces|
  {
    if pieces == [] {
      assert rest + Concat(pieces) == rest;
    } else {
      TrimRightDrops(rest + pieces[0], pieces[1..]);
      TrimRightOne(rest, pieces[0]);
      Assoc(rest, pieces[0], Concat(pieces[1..]));
    }
  }

  /** `totp` or `otp`, in whatever case. */
  predicate SaysOtp(s: Text) {
    SameText(s, ['t', 'o', 't', 'p']) || SameText(s, ['o', 't', 'p'])
  }

  /** The first and last bytes of white space are not letters. */
  lemma SpaceEnds(s: Text)
    requires IsSpace(s)
    ensures s[0] < 'A' || s[0] > 'z'
    ensures s[|s| - 1] < 'A' || s[|s| - 1] > 'z'
  {}

  lemma LetterEnds(s: Text)
    requires s != []
    ensures 'A' <= s[0] <= 'z' ==> LeadingSpace(s) == 0
    ensures 'A' <= s[|s| - 1] <= 'z' ==> TrailingSpace(s) == 0
  {
    var k, j := LeadingSpace(s), TrailingSpace(s);
    if k > 0 {
      SpaceEnds(s[..k]);
    }
    if j > 0 {
      SpaceEnds(s[|s| - j..]);
    }
  }

  lemma OtpLetters(core: Text)
    requires SaysOtp(core)
    ensures core != [] && 'A' <= core[0] <= 'z' && 'A' <= core[|core| - 1] <= 'z'
  {
    assert SameOctet(core[0], 't') || SameOctet(core[0], 'o');
    assert SameOctet(core[|core| - 1], 'p');
  }

  lemma OtpIsTrimmed(core: Text, after: seq<Text>)
    requires SaysOtp(core)
    ensures TrimLeft(core + Concat(after)) == core + Concat(after) && TrimRight(core) == core
  {
    OtpLetters(core);
    assert (core + Concat(after))[0] == core[0];
    LetterEnds(core + Concat(after));
    LetterEnds(core);
  }

  /** White space, then `core`, then white space. */
  predicate Spells(fieldType: Text, before: seq<Text>, core: Text, after: seq<Text>) {
    AllSpace(before) && AllSpace(after) && SaysOtp(core) && fieldType == Concat(before) + (core + Concat(after))
  }

  lemma OtpIff(core: Text)
    ensures Lowered(core) == ['t', 'o', 't', 'p'] || Lowered(core) == ['o', 't', 'p'] <==> SaysOtp(core)
  {
    LoweredIff(core, ['t', 'o', 't', 'p']);
    LoweredIff(core, ['o', 't', 'p']);
  }

  lemma TotpIsSpelled(fieldType: Text) returns (before: seq<Text>, core: Text, after: seq<Text>)
    requires IsTotpFieldType(fieldType)
    ensures Spells(fieldType, before, core, after)
  {
    var left := TrimLeft(fieldType);
    core := TrimRight(left);
    OtpIff(core);
    before := TrimLeftTakes(fieldType);
    after := TrimRightTakes(left);
  }

  lemma SpelledIsTotp(fieldType: Text, before: seq<Text>, core: Text, after: seq<Text>)
    requires Spells(fieldType, before, core, after)
    ensures IsTotpFieldType(fieldType)
  {
    TrimLeftDrops(before, core + Concat(after));
    OtpIsTrimmed(core, after);
    TrimRightDrops(core, after);
    OtpIff(core);
  }

  /** A field is a one-time password if and only if its type says so, white space around it and case aside. */
  lemma TotpIff(fieldType: Text)
    ensures IsTotpFieldType(fieldType) <==> exists before, core, after :: Spells(fieldType, before, core, after)
  {
    if IsTotpFieldType(fieldType) {
      var before, core, after := TotpIsSpelled(fieldType);
    }
    forall before, core, after | Spells(fieldType, before, core, after) ensures IsTotpFieldType(fieldType) {
      SpelledIsTotp(fieldType, before, core, after);
    }
  }
}
