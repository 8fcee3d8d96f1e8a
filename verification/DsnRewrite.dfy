/**
 The rewriter itself (commands.rs: `pg_libpq_keywords`): take a Postgres URI
 apart, let the query override host and port, and render the rest as keywords.
 */
module DsnRewrite {
  import opened Basics
  import opened PercentCoding
  import opened LibpqKeywords

  // ---- taking the URI apart ----

  function StripScheme(dsn: Text): Option<Text> {
    if LONG_SCHEME <= dsn then Some(dsn[|LONG_SCHEME|..])
    else if SHORT_SCHEME <= dsn then Some(dsn[|SHORT_SCHEME|..])
    else None
  }

  function SplitOr(s: Text, c: Octet): Halves {
    match SplitOnce(s, c) case None => Halves(s, []) case Some(h) => h
  }

  function RSplitOr(s: Text, c: Octet): Halves {
    match RSplitOnce(s, c) case None => Halves([], s) case Some(h) => h
  }

  /** Host and port of the authority; an opening bracket without a closing one is refused. */
  function HostPort(authority: Text): Option<Halves> {
    if authority != [] && authority[0] == '[' then
      match SplitOnce(authority[1..], ']')
      case None => None
      case Some(h) => Some(Halves(h.left, if h.right != [] && h.right[0] == ':' then h.right[1..] else []))
    else match RSplitOnce(authority, ':')
      case None => Some(Halves(authority, []))
      case Some(h) => Some(h)
  }

  /** The raw pieces of a URI. */
  datatype Pieces = Pieces(user: Text, password: Text, host: Text, port: Text, dbname: Text, query: Text)

  function TakeApart(dsn: Text): Option<Pieces> {
    match StripScheme(dsn)
    case None => None
    case Some(all) =>
      var body := SplitOr(all, '?');
      var auth := RSplitOr(body.left, '@');
      var target := SplitOr(auth.right, '/');
      var credentials := SplitOr(auth.left, ':');
      match HostPort(target.left)
      case None => None
      case Some(hp) => Some(Pieces(credentials.left, credentials.right, hp.left, hp.right, target.right, body.right))
  }

  // ---- the keywords a connection amounts to ----

  function Put(key: Text, value: Text): seq<Pair> {
    if value == [] then [] else [Pair(key, value)]
  }

  /** The first value the query gives for `key`. */
  function QueryValue(query: seq<Pair>, key: Text): Option<Text> {
    if query == [] then None
    else if query[0].key == key then Some(query[0].value)
    else QueryValue(query[1..], key)
  }

  function Overridden(query: seq<Pair>, key: Text, otherwise: Text): Text {
    match QueryValue(query, key) case None => otherwise case Some(v) => v
  }

  /** The query's other keywords, those with a value, in order. */
  function Others(query: seq<Pair>): seq<Pair> {
    if query == [] then [] else
      var n := |query| - 1;
      Others(query[..n])
      + (if query[n].key != HOST && query[n].key != PORT then Put(query[n].key, query[n].value) else [])
  }

  /** Empty settings are omitted; a query host or port takes the place of the authority's. */
  function Settings(user: Text, password: Text, host: Text, port: Text, dbname: Text, query: seq<Pair>): seq<Pair> {
    Put(HOST, Overridden(query, HOST, host)) + Put(PORT, Overridden(query, PORT, port))
    + Put(DBNAME, dbname) + Put(USER, user) + Put(PASSWORD, password) + Others(query)
  }

  function PiecesSettings(p: Pieces): seq<Pair> {
    Settings(DecodeUrlComponent(p.user), DecodeUrlComponent(p.password), p.host, p.port,
             DecodeUrlComponent(p.dbname), FormParse(p.query))
  }

  function Keywords(dsn: Text, wide: Text -> bool): Option<Text> {
    match TakeApart(dsn)
    case None => None
    case Some(p) => Some(Rendered(PiecesSettings(p), wide))
  }

  // ---- the program: push pairs, then render and join ----

  method CollectOthers(pairs: seq<Pair>, query: seq<Pair>) returns (all: seq<Pair>)
    ensures all == pairs + Others(query)
  {
    all := pairs;
    for n := 0 to |query|
      invariant all == pairs + Others(query[..n])
    {
      assert query[..n + 1][..n] == query[..n];
      var p := query[n];
      if p.key != HOST && p.key != PORT && p.value != [] {
        all := all + [p];
        assert p == Pair(p.key, p.value);
      }
    }
    assert query[..|query|] == query;
  }

  lemma {:induction false} RenderedAppend(pairs: seq<Pair>, p: Pair, wide: Text -> bool)
    requires pairs != []
    ensures Rendered(pairs + [p], wide) ==
            Rendered(pairs, wide) + [' '] + (p.key + ['='] + LibpqValue(p.value, wide))
    decreases |pairs|
  {
    var last := p.key + ['='] + LibpqValue(p.value, wide);
    var first := pairs[0].key + ['='] + LibpqValue(pairs[0].value, wide);
    assert (pairs + [p])[1..] == pairs[1..] + [p];
    if |pairs| == 1 {
      assert pairs[1..] + [p] == [p];
    } else {
      RenderedAppend(pairs[1..], p, wide);
      assert first + [' '] + (Rendered(pairs[1..], wide) + [' '] + last)
          == (first + [' '] + Rendered(pairs[1..], wide)) + [' '] + last;
    }
  }

  lemma RenderedOne(p: Pair, wide: Text -> bool)
    ensures Rendered([p], wide) == p.key + ['='] + LibpqValue(p.value, wide)
  {}

  method JoinRendered(pairs: seq<Pair>, wide: Text -> bool) returns (s: Text)
    ensures s == Rendered(pairs, wide)
  {
    s := [];
    for n := 0 to |pairs|
      invariant s == Rendered(pairs[..n], wide)
    {
      var rendered := pairs[n].key + ['='] + LibpqValue(pairs[n].value, wide);
      assert pairs[..n + 1] == pairs[..n] + [pairs[n]];
      if n == 0 {
        RenderedOne(pairs[0], wide);
        assert pairs[..1] == [pairs[0]];
        s := rendered;
      } else {
        RenderedAppend(pairs[..n], pairs[n], wide);
        s := s + [' '] + rendered;
      }
    }
    assert pairs[..|pairs|] == pairs;
  }

  method PgLibpqKeywords(dsn: Text, wide: Text -> bool) returns (r: Option<Text>)
    ensures r == Keywords(dsn, wide)
  {
    var pieces := TakeApart(dsn);
    if pieces.None? {
      return None;
    }
    var p, query := pieces.value, FormParse(pieces.value.query);
    var pairs := Put(HOST, Overridden(query, HOST, p.host));
    pairs := pairs + Put(PORT, Overridden(query, PORT, p.port));
    pairs := pairs + Put(DBNAME, DecodeUrlComponent(p.dbname));
    pairs := pairs + Put(USER, DecodeUrlComponent(p.user));
    pairs := pairs + Put(PASSWORD, DecodeUrlComponent(p.password));
    pairs := CollectOthers(pairs, query);
    var s := JoinRendered(pairs, wide);
    return Some(s);
  }

  // ---- canonical URIs ----

  datatype Host = Plain(name: Text) | Bracketed(address: Text)

  datatype Dsn = Dsn(user: Text, password: Text, host: Host, port: Text, dbname: Text, params: seq<Pair>)

  predicate Unreserved(c: Octet) {
    'a' <= c <= 'z' || 'A' <= c <= 'Z' || '0' <= c <= '9' || c == '-' || c == '.' || c == '_' || c == '~'
  }

  function Enc(s: Text): Text {
    Encode(s, Unreserved)
  }

  /** What an IP literal is made of (section 3.2.2 of RFC 3986); anything else, such as a zone, is escaped. */
  predicate AddressByte(c: Octet) {
    Unreserved(c) || c in ['!', '$', '&', '\'', '(', ')', '*', '+', ',', ';', '=', ':']
  }

  /** The host as a URI spells it, brackets aside. */
  function Spelling(h: Host): Text {
    match h case Plain(name) => Enc(name) case Bracketed(a) => Encode(a, AddressByte)
  }

  function HostText(h: Host): Text {
    if h.Plain? then Spelling(h) else ['['] + Spelling(h) + [']']
  }

  function HostName(h: Host): Text {
    match h case Plain(name) => name case Bracketed(a) => a
  }

  function PrintCredentials(d: Dsn): Text {
    Enc(d.user) + (if d.password == [] then [] else [':'] + Enc(d.password))
  }

  function PrintAuthority(d: Dsn): Text {
    HostText(d.host) + (if d.port == [] then [] else [':'] + Enc(d.port))
  }

  function PrintTarget(d: Dsn): Text {
    PrintAuthority(d) + (if d.dbname == [] then [] else ['/'] + Enc(d.dbname))
  }

  function PrintBody(d: Dsn): Text {
    (if d.user == [] && d.password == [] then [] else PrintCredentials(d) + ['@']) + PrintTarget(d)
  }

  function PrintQuery(params: seq<Pair>): Text {
    if params == [] then []
    else
      var first := Enc(params[0].key) + ['='] + Enc(params[0].value);
      if |params| == 1 then first else first + ['&'] + PrintQuery(params[1..])
  }

  function PrintUri(d: Dsn, short: bool): Text {
    (if short then SHORT_SCHEME else LONG_SCHEME)
    + (PrintBody(d) + (if d.params == [] then [] else ['?'] + PrintQuery(d.params)))
  }

  // ---- what a connection means, independently of the rewriter ----

  ghost predicate FirstAt(params: seq<Pair>, key: Text, i: nat) {
    i < |params| && params[i].key == key && forall j | 0 <= j < i :: params[j].key != key
  }

  /** The first parameter of that name, or else what the authority says. */
  ghost function Effective(params: seq<Pair>, key: Text, authority: Text): Text {
    if i: nat :| FirstAt(params, key, i) then params[i].value else authority
  }

  ghost function NonEmpty(pairs: seq<Pair>): seq<Pair> {
    if pairs == [] then []
    else if pairs[0].value == [] then NonEmpty(pairs[1..])
    else [pairs[0]] + NonEmpty(pairs[1..])
  }

  ghost function NotAuthority(params: seq<Pair>): seq<Pair> {
    if params == [] then []
    else if params[0].key == HOST || params[0].key == PORT then NotAuthority(params[1..])
    else [params[0]] + NotAuthority(params[1..])
  }

  ghost function Meaning(d: Dsn): seq<Pair> {
    NonEmpty([Pair(HOST, Effective(d.params, HOST, HostName(d.host))),
              Pair(PORT, Effective(d.params, PORT, d.port)),
              Pair(DBNAME, d.dbname), Pair(USER, d.user), Pair(PASSWORD, d.password)]
             + NotAuthority(d.params))
  }

  function DsnSettings(d: Dsn): seq<Pair> {
    Settings(d.user, d.password, HostName(d.host), d.port, d.dbname, d.params)
  }

  lemma {:induction false} QueryValueIsFirst(query: seq<Pair>, key: Text, i: nat)
    ensures FirstAt(query, key, i) ==> QueryValue(query, key) == Some(query[i].value)
    ensures QueryValue(query, key).Some? ==> exists k: nat :: FirstAt(query, key, k)
    decreases |query|
  {
    if query != [] && query[0].key != key {
      var rest := query[1..];
      QueryValueIsFirst(rest, key, if i > 0 then i - 1 else 0);
      if FirstAt(query, key, i) {
        assert FirstAt(rest, key, i - 1) by {
          assert forall j | 0 <= j < i - 1 :: rest[j] == query[j + 1];
        }
      }
      if QueryValue(rest, key).Some? {
        var k: nat :| FirstAt(rest, key, k);
        assert FirstAt(query, key, k + 1) by {
          assert forall j | 0 < j < k + 1 :: query[j] == rest[j - 1];
        }
      }
    } else if query != [] {
      assert FirstAt(query, key, 0);
    }
  }

  lemma EffectiveIsOverridden(query: seq<Pair>, key: Text, authority: Text)
    ensures Effective(query, key, authority) == Overridden(query, key, authority)
  {
    if i: nat :| FirstAt(query, key, i) {
      assert forall k: nat | FirstAt(query, key, k) :: k == i;
      QueryValueIsFirst(query, key, i);
    } else {
      QueryValueIsFirst(query, key, 0);
    }
  }

  lemma {:induction false} NonEmptyAppend(a: seq<Pair>, b: seq<Pair>)
    ensures NonEmpty(a + b) == NonEmpty(a) + NonEmpty(b)
    decreases |a|
  {
    if a == [] {
      assert a + b == b;
    } else {
      NonEmptyAppend(a[1..], b);
      assert (a + b)[1..] == a[1..] + b;
      if a[0].value != [] {
        assert [a[0]] + (NonEmpty(a[1..]) + NonEmpty(b)) == ([a[0]] + NonEmpty(a[1..])) + NonEmpty(b);
      }
    }
  }

  lemma {:induction false} NotAuthorityAppend(a: seq<Pair>, p: Pair)
    ensures NotAuthority(a + [p]) ==
            if p.key == HOST || p.key == PORT then NotAuthority(a) else NotAuthority(a) + [p]
    decreases |a|
  {
    if a == [] {
      assert a + [p] == [p];
    } else {
      NotAuthorityAppend(a[1..], p);
      assert (a + [p])[1..] == a[1..] + [p];
    }
  }

  lemma {:induction false} OthersAreTheRest(query: seq<Pair>)
    ensures Others(query) == NonEmpty(NotAuthority(query))
    decreases |query|
  {
    if query != [] {
      var n := |query| - 1;
      var p := query[n];
      OthersAreTheRest(query[..n]);
      assert query == query[..n] + [p];
      NotAuthorityAppend(query[..n], p);
      NonEmptyAppend(NotAuthority(query[..n]), [p]);
      NonEmptyOne(p);
      var before := Others(query[..n]);
      if p.key == HOST || p.key == PORT {
        assert Others(query) == before + [];
      } else {
        assert Others(query) == before + Put(p.key, p.value);
      }
    }
  }

  lemma NonEmptyOne(p: Pair)
    ensures NonEmpty([p]) == Put(p.key, p.value)
  {
    assert [p][1..] == [] && [p] + [] == [p];
  }

  lemma SettingsAreTheMeaning(d: Dsn)
    ensures DsnSettings(d) == Meaning(d)
  {
    var h := Pair(HOST, Effective(d.params, HOST, HostName(d.host)));
    var p := Pair(PORT, Effective(d.params, PORT, d.port));
    var n, u, w := Pair(DBNAME, d.dbname), Pair(USER, d.user), Pair(PASSWORD, d.password);
    EffectiveIsOverridden(d.params, HOST, HostName(d.host));
    EffectiveIsOverridden(d.params, PORT, d.port);
    OthersAreTheRest(d.params);
    FiveNonEmpty(h, p, n, u, w, NotAuthority(d.params));
  }

  lemma FiveNonEmpty(a: Pair, b: Pair, c: Pair, d: Pair, e: Pair, rest: seq<Pair>)
    ensures NonEmpty([a, b, c, d, e] + rest) ==
            Put(a.key, a.value) + Put(b.key, b.value) + Put(c.key, c.value) + Put(d.key, d.value)
            + Put(e.key, e.value) + NonEmpty(rest)
  {
    NonEmptyOne(a);
    NonEmptyOne(b);
    NonEmptyOne(c);
    NonEmptyOne(d);
    NonEmptyOne(e);
    NonEmptyAppend([a], [b]);
    NonEmptyAppend([a] + [b], [c]);
    NonEmptyAppend([a] + [b] + [c], [d]);
    NonEmptyAppend([a] + [b] + [c] + [d], [e]);
    NonEmptyAppend([a] + [b] + [c] + [d] + [e], rest);
    assert [a] + [b] + [c] + [d] + [e] == [a, b, c, d, e];
  }

  // ---- the canonical form is taken apart into its pieces ----

  lemma EncAvoids(s: Text, c: Octet)
    requires !Unreserved(c) && c != '%' && !IsHex(c)
    ensures c !in Enc(s)
  {
    EncodedAvoids(s, Unreserved, c);
  }

  lemma SchemeStrips(rest: Text, short: bool)
    ensures StripScheme((if short then SHORT_SCHEME else LONG_SCHEME) + rest) == Some(rest)
  {
    var s := (if short then SHORT_SCHEME else LONG_SCHEME) + rest;
    if short {
      assert s[8] == ':' && LONG_SCHEME[8] == 'q';
      assert SHORT_SCHEME <= s;
    } else {
      assert LONG_SCHEME <= s;
    }
  }

  lemma CredentialsSplit(d: Dsn)
    ensures SplitOr(PrintCredentials(d), ':') == Halves(Enc(d.user), Enc(d.password))
    ensures '?' !in PrintCredentials(d)
  {
    EncAvoids(d.user, ':');
    EncAvoids(d.user, '?');
    EncAvoids(d.password, '?');
    if d.password == [] {
      SplitOnceMisses(Enc(d.user), ':');
      assert PrintCredentials(d) == Enc(d.user);
    } else {
      SplitOnceFinds(Enc(d.user), ':', Enc(d.password));
      assert PrintCredentials(d) == Enc(d.user) + [':'] + Enc(d.password);
    }
  }

  lemma SpellingAvoids(h: Host, c: Octet)
    requires c in ['?', '@', '/', '[', ']'] || (h.Plain? && c == ':')
    ensures c !in Spelling(h)
  {
    match h
    case Plain(name) => EncAvoids(name, c);
    case Bracketed(a) => EncodedAvoids(a, AddressByte, c);
  }

  lemma AuthorityAvoids(d: Dsn, c: Octet)
    requires c in ['?', '@', '/']
    ensures c !in PrintAuthority(d)
  {
    SpellingAvoids(d.host, c);
    EncAvoids(d.port, c);
  }

  lemma AuthoritySplits(d: Dsn)
    ensures HostPort(PrintAuthority(d)) == Some(Halves(Spelling(d.host), Enc(d.port)))
  {
    EncAvoids(d.port, ':');
    match d.host
    case Plain(_) =>
      SpellingAvoids(d.host, '[');
      SpellingAvoids(d.host, ':');
      PlainSplits(Spelling(d.host), Enc(d.port), d.port == []);
    case Bracketed(_) =>
      SpellingAvoids(d.host, ']');
      BracketSplits(Spelling(d.host), Enc(d.port), d.port == []);
  }

  lemma PlainSplits(name: Text, port: Text, bare: bool)
    requires '[' !in name && ':' !in name && ':' !in port && (bare ==> port == [])
    ensures HostPort(name + (if bare then [] else [':'] + port)) == Some(Halves(name, port))
  {
    var a := name + (if bare then [] else [':'] + port);
    assert a == [] || a[0] != '[' by {
      if name != [] {
        assert a[0] == name[0] && name[0] in name;
      }
    }
    if bare {
      assert a == name;
      RSplitOnceMisses(name, ':');
    } else {
      assert a == name + [':'] + port;
      RSplitOnceFinds(name, ':', port);
    }
  }

  lemma BracketSplits(address: Text, port: Text, bare: bool)
    requires ']' !in address && (bare ==> port == [])
    ensures HostPort((['['] + address + [']']) + (if bare then [] else [':'] + port)) == Some(Halves(address, port))
  {
    var suffix := if bare then [] else [':'] + port;
    var a := (['['] + address + [']']) + suffix;
    assert a[1..] == address + [']'] + suffix;
    SplitOnceFinds(address, ']', suffix);
    if !bare {
      assert suffix[1..] == port;
    }
  }

  lemma TargetSplits(d: Dsn)
    ensures SplitOr(PrintTarget(d), '/') == Halves(PrintAuthority(d), Enc(d.dbname))
    ensures '?' !in PrintTarget(d) && '@' !in PrintTarget(d)
  {
    AuthorityAvoids(d, '?');
    AuthorityAvoids(d, '@');
    AuthorityAvoids(d, '/');
    EncAvoids(d.dbname, '?');
    EncAvoids(d.dbname, '@');
    if d.dbname == [] {
      assert PrintTarget(d) == PrintAuthority(d);
      SplitOnceMisses(PrintAuthority(d), '/');
    } else {
      assert PrintTarget(d) == PrintAuthority(d) + ['/'] + Enc(d.dbname);
      SplitOnceFinds(PrintAuthority(d), '/', Enc(d.dbname));
    }
  }

  lemma BodySplits(d: Dsn)
    ensures var auth := RSplitOr(PrintBody(d), '@');
            auth.right == PrintTarget(d) && SplitOr(auth.left, ':') == Halves(Enc(d.user), Enc(d.password))
    ensures '?' !in PrintBody(d)
  {
    TargetSplits(d);
    CredentialsSplit(d);
    if d.user == [] && d.password == [] {
      assert PrintBody(d) == PrintTarget(d);
      RSplitOnceMisses(PrintTarget(d), '@');
      SplitOnceMisses([], ':');
    } else {
      assert PrintBody(d) == PrintCredentials(d) + ['@'] + PrintTarget(d);
      RSplitOnceFinds(PrintCredentials(d), '@', PrintTarget(d));
    }
  }

  /** Every connection's URI is taken apart into exactly its encoded pieces. */
  lemma UriComesApart(d: Dsn, short: bool)
    ensures TakeApart(PrintUri(d, short)) ==
            Some(Pieces(Enc(d.user), Enc(d.password), Spelling(d.host), Enc(d.port), Enc(d.dbname), PrintQuery(d.params)))
  {
    var query := if d.params == [] then [] else ['?'] + PrintQuery(d.params);
    SchemeStrips(PrintBody(d) + query, short);
    BodySplits(d);
    TargetSplits(d);
    AuthoritySplits(d);
    if d.params == [] {
      assert PrintBody(d) + query == PrintBody(d);
      SplitOnceMisses(PrintBody(d), '?');
    } else {
      assert PrintBody(d) + query == PrintBody(d) + ['?'] + PrintQuery(d.params);
      SplitOnceFinds(PrintBody(d), '?', PrintQuery(d.params));
    }
  }

  // ---- URIs with raw delimiters ----

  /**
   Which delimiter counts: the first `?`, the last `@` before it, the first `/` after
   that, the first `:` of the credentials and the last `:` of the authority. So a
   password may hold `:`, `@` and `/` as they are, a user `@` and `/`, a database
   name `/` and `:`, a host `:`, and a query anything.
   */
  lemma RawUriComesApart(user: Text, password: Text, host: Text, port: Text, dbname: Text, query: Text, short: bool)
    requires '?' !in user && ':' !in user && '?' !in password
    requires '?' !in host && '@' !in host && '/' !in host && '[' !in host
    requires '?' !in port && '@' !in port && '/' !in port && ':' !in port
    requires '?' !in dbname && '@' !in dbname
    ensures var authority := host + [':'] + port;
            var body := (user + [':'] + password) + ['@'] + (authority + ['/'] + dbname);
            TakeApart((if short then SHORT_SCHEME else LONG_SCHEME) + (body + ['?'] + query)) ==
            Some(Pieces(user, password, host, port, dbname, query))
  {
    var authority := host + [':'] + port;
    var target := authority + ['/'] + dbname;
    var body := (user + [':'] + password) + ['@'] + target;
    SchemeStrips(body + ['?'] + query, short);
    SplitOnceFinds(body, '?', query);
    RSplitOnceFinds(user + [':'] + password, '@', target);
    SplitOnceFinds(authority, '/', dbname);
    SplitOnceFinds(user, ':', password);
    RSplitOnceFinds(host, ':', port);
    assert authority[0] != '[' by {
      assert host != [] ==> authority[0] == host[0] && host[0] in host;
    }
  }

  /** Whatever follows a closing bracket without a colon is dropped. */
  lemma BracketDropsRest(address: Text, rest: Text)
    requires ']' !in address && (rest == [] || rest[0] != ':')
    ensures HostPort(['['] + (address + [']'] + rest)) == Some(Halves(address, []))
  {
    assert (['['] + (address + [']'] + rest))[1..] == address + [']'] + rest;
    SplitOnceFinds(address, ']', rest);
  }

  /** A URI is refused when its scheme is another, or when its host opens a bracket that nothing closes. */
  lemma OtherSchemeIsRefused(dsn: Text, wide: Text -> bool)
    requires !(LONG_SCHEME <= dsn) && !(SHORT_SCHEME <= dsn)
    ensures Keywords(dsn, wide) == None
  {}

  lemma UnclosedBracketIsRefused(rest: Text, short: bool, wide: Text -> bool)
    requires '?' !in rest && '@' !in rest && '/' !in rest && ']' !in rest
    ensures Keywords((if short then SHORT_SCHEME else LONG_SCHEME) + (['['] + rest), wide) == None
  {
    var all := ['['] + rest;
    SchemeStrips(all, short);
    SplitOnceMisses(all, '?');
    RSplitOnceMisses(all, '@');
    SplitOnceMisses(all, '/');
    assert all[1..] == rest;
    SplitOnceMisses(rest, ']');
  }

  lemma SchemesAreSpelled()
    ensures LONG_SCHEME == "postgresql://" && SHORT_SCHEME == "postgres://"
    ensures HOST == "host" && PORT == "port" && DBNAME == "dbname" && USER == "user" && PASSWORD == "password"
  {}

  // ---- and each piece decodes to what was printed ----

  lemma {:induction false} NoPlusNoChange(s: Text)
    requires '+' !in s
    ensures PlusToSpace(s) == s
  {
    if s != [] {
      NoPlusNoChange(s[1..]);
      assert s == [s[0]] + s[1..];
    }
  }

  lemma EncDecodes(s: Text)
    ensures FormDecode(Enc(s)) == s && DecodeUrlComponent(Enc(s)) == s
  {
    EncAvoids(s, '+');
    EncAvoids(s, '&');
    NoPlusNoChange(Enc(s));
    DecodeUndoesEncode(s, Unreserved);
    ComponentMeansItsEscapesIff(Enc(s));
  }

  lemma FormPairReads(p: Pair)
    ensures var segment := Enc(p.key) + ['='] + Enc(p.value);
            '&' !in segment && FormPair(segment) == p
  {
    EncAvoids(p.key, '=');
    EncAvoids(p.key, '&');
    EncAvoids(p.value, '&');
    SplitOnceFinds(Enc(p.key), '=', Enc(p.value));
    EncDecodes(p.key);
    EncDecodes(p.value);
  }

  lemma FormParseStep(segment: Text, rest: Text)
    requires segment != [] && '&' !in segment
    ensures FormParse(segment) == [FormPair(segment)]
    ensures FormParse(segment + ['&'] + rest) == [FormPair(segment)] + FormParse(rest)
  {
    SplitOnceMisses(segment, '&');
    SplitOnceFinds(segment, '&', rest);
  }

  /** A parameter without `=` has an empty value, and empty ones are skipped. */
  lemma FormParseOdd(name: Text, rest: Text)
    requires name != [] && '&' !in name && '=' !in name
    ensures FormParse(name + ['&'] + rest) == [Pair(FormDecode(name), [])] + FormParse(rest)
    ensures FormParse(['&'] + rest) == FormParse(rest)
  {
    FormParseStep(name, rest);
    SplitOnceMisses(name, '=');
    FormParseEmpty(rest);
  }

  lemma FormParseEmpty(rest: Text)
    ensures FormParse(['&'] + rest) == FormParse(rest)
  {
    var s := ['&'] + rest;
    assert s[1..] == rest;
    assert SplitOnce(s, '&') == Some(Halves([], rest));
  }

  lemma FormParseLast(p: Pair)
    ensures FormParse(Enc(p.key) + ['='] + Enc(p.value)) == [p]
  {
    FormPairReads(p);
    FormParseStep(Enc(p.key) + ['='] + Enc(p.value), []);
  }

  lemma FormParseCons(p: Pair, rest: Text)
    ensures FormParse(Enc(p.key) + ['='] + Enc(p.value) + ['&'] + rest) == [p] + FormParse(rest)
  {
    FormPairReads(p);
    FormParseStep(Enc(p.key) + ['='] + Enc(p.value), rest);
  }

  lemma {:induction false} QueryReadsBack(params: seq<Pair>)
    ensures FormParse(PrintQuery(params)) == params
    decreases |params|
  {
    if params == [] {
      SplitOnceMisses([], '&');
    } else if |params| == 1 {
      FormParseLast(params[0]);
      assert params == [params[0]];
    } else {
      FormParseCons(params[0], PrintQuery(params[1..]));
      QueryReadsBack(params[1..]);
      assert params == [params[0]] + params[1..];
    }
  }

  // ---- exactly when the meaning survives ----

  /** What the rewriter makes of the canonical URI: host and port stay as they are spelled there. */
  function SpelledSettings(d: Dsn): seq<Pair> {
    Settings(d.user, d.password, Spelling(d.host), Enc(d.port), d.dbname, d.params)
  }

  lemma KeywordsOfUri(d: Dsn, short: bool, wide: Text -> bool)
    ensures Keywords(PrintUri(d, short), wide) == Some(Rendered(SpelledSettings(d), wide))
  {
    UriComesApart(d, short);
    EncDecodes(d.user);
    EncDecodes(d.password);
    EncDecodes(d.dbname);
    QueryReadsBack(d.params);
  }

  predicate Mentions(params: seq<Pair>, key: Text) {
    exists i | 0 <= i < |params| :: params[i].key == key
  }

  /** No parameter that ends up among the settings has white space or `=` in its name. */
  predicate NamesReadable(params: seq<Pair>) {
    forall i | 0 <= i < |params| ::
      params[i].key != HOST && params[i].key != PORT && params[i].value != [] ==> Readable(params[i].key)
  }

  /** The authority's host needs no escape. */
  predicate HostPlainlySpelled(h: Host) {
    match h
    case Plain(name) => forall i | 0 <= i < |name| :: Unreserved(name[i])
    case Bracketed(a) => forall i | 0 <= i < |a| :: AddressByte(a[i])
  }

  /** The authority's port needs no escape; digits never do. */
  predicate PortPlainlySpelled(port: Text) {
    forall i | 0 <= i < |port| :: Unreserved(port[i])
  }

  predicate Survives(d: Dsn) {
    && NamesReadable(d.params)
    && (HostPlainlySpelled(d.host) || Mentions(d.params, HOST))
    && (PortPlainlySpelled(d.port) || Mentions(d.params, PORT))
  }

  lemma {:induction false} QueryValueIff(query: seq<Pair>, key: Text)
    ensures QueryValue(query, key).Some? <==> Mentions(query, key)
  {
    if query != [] {
      QueryValueIff(query[1..], key);
      if query[0].key != key {
        if i :| 0 <= i < |query| && query[i].key == key {
          assert query[1..][i - 1].key == key;
        }
      }
    }
  }

  lemma {:induction false} OthersReadableIff(query: seq<Pair>)
    ensures AllReadable(Others(query)) <==> NamesReadable(query)
    ensures NoneEmpty(Others(query))
  {
    if query != [] {
      var n := |query| - 1;
      var p := query[n];
      var last := if p.key != HOST && p.key != PORT then Put(p.key, p.value) else [];
      OthersReadableIff(query[..n]);
      AppendReadable(Others(query[..n]), last);
      assert AllReadable(last) <==> NamesReadable([p]);
      NamesReadableLast(query);
    }
  }

  lemma NamesReadableLast(query: seq<Pair>)
    requires query != []
    ensures NamesReadable(query) <==> NamesReadable(query[..|query| - 1]) && NamesReadable([query[|query| - 1]])
  {
    var n := |query| - 1;
    assert forall i | 0 <= i < n :: query[..n][i] == query[i];
    assert [query[n]][0] == query[n];
  }

  /** The settings besides host and port. */
  function Rest(d: Dsn): seq<Pair> {
    Put(DBNAME, d.dbname) + Put(USER, d.user) + Put(PASSWORD, d.password) + Others(d.params)
  }

  lemma RestReadableIff(d: Dsn)
    ensures AllReadable(Rest(d)) <==> NamesReadable(d.params)
    ensures NoneEmpty(Rest(d))
  {
    OthersReadableIff(d.params);
    var fixed := Put(DBNAME, d.dbname) + Put(USER, d.user) + Put(PASSWORD, d.password);
    assert AllReadable(fixed) && NoneEmpty(fixed);
    AppendReadable(fixed, Others(d.params));
  }

  lemma AppendReadable(a: seq<Pair>, b: seq<Pair>)
    ensures AllReadable(a + b) <==> AllReadable(a) && AllReadable(b)
    ensures NoneEmpty(a) && NoneEmpty(b) ==> NoneEmpty(a + b)
  {
    assert forall i | 0 <= i < |a| :: (a + b)[i] == a[i];
    assert forall i | 0 <= i < |b| :: (a + b)[|a| + i] == b[i];
  }

  function FrontedBy(host: Text, port: Text, rest: seq<Pair>): seq<Pair> {
    Put(HOST, host) + Put(PORT, port) + rest
  }

  lemma FrontedReadableIff(host: Text, port: Text, rest: seq<Pair>)
    requires NoneEmpty(rest)
    ensures AllReadable(FrontedBy(host, port, rest)) <==> AllReadable(rest)
    ensures NoneEmpty(FrontedBy(host, port, rest))
  {
    var front := Put(HOST, host) + Put(PORT, port);
    assert AllReadable(front) && NoneEmpty(front);
    AppendReadable(front, rest);
  }

  lemma FrontedSame(host: Text, port: Text, host': Text, port': Text, rest: seq<Pair>)
    requires (host == [] <==> host' == []) && (port == [] <==> port' == [])
    ensures FrontedBy(host, port, rest) == FrontedBy(host', port', rest) <==> host == host' && port == port'
  {
    var a, b := FrontedBy(host, port, rest), FrontedBy(host', port', rest);
    if a == b {
      assert host != [] ==> a[0] == Pair(HOST, host) && b[0] == Pair(HOST, host');
      var k := |Put(HOST, host)|;
      assert port != [] ==> a[k] == Pair(PORT, port) && b[k] == Pair(PORT, port');
    }
  }

  lemma SpelledInFronts(d: Dsn)
    ensures SpelledSettings(d) ==
            FrontedBy(Overridden(d.params, HOST, Spelling(d.host)), Overridden(d.params, PORT, Enc(d.port)), Rest(d))
    ensures DsnSettings(d) ==
            FrontedBy(Overridden(d.params, HOST, HostName(d.host)), Overridden(d.params, PORT, d.port), Rest(d))
  {
    SettingsInFront(d, Spelling(d.host), Enc(d.port));
    SettingsInFront(d, HostName(d.host), d.port);
  }

  lemma SettingsInFront(d: Dsn, host: Text, port: Text)
    ensures Settings(d.user, d.password, host, port, d.dbname, d.params) ==
            FrontedBy(Overridden(d.params, HOST, host), Overridden(d.params, PORT, port), Rest(d))
  {
    Regroup(Put(HOST, Overridden(d.params, HOST, host)) + Put(PORT, Overridden(d.params, PORT, port)),
            Put(DBNAME, d.dbname), Put(USER, d.user), Put(PASSWORD, d.password), Others(d.params));
  }

  lemma Regroup(a: seq<Pair>, b: seq<Pair>, c: seq<Pair>, d: seq<Pair>, e: seq<Pair>)
    ensures a + b + c + d + e == a + (b + c + d + e)
  {}

  lemma SpellingIff(h: Host)
    ensures Spelling(h) == HostName(h) <==> HostPlainlySpelled(h)
    ensures Spelling(h) == [] <==> HostName(h) == []
  {
    match h
    case Plain(name) => OwnEncodingIff(name, Unreserved);
    case Bracketed(a) => OwnEncodingIff(a, AddressByte);
  }

  lemma SameSettingsIff(d: Dsn)
    ensures SpelledSettings(d) == DsnSettings(d) <==>
            (HostPlainlySpelled(d.host) || Mentions(d.params, HOST))
            && (PortPlainlySpelled(d.port) || Mentions(d.params, PORT))
  {
    SpellingIff(d.host);
    OwnEncodingIff(d.port, Unreserved);
    QueryValueIff(d.params, HOST);
    QueryValueIff(d.params, PORT);
    SpelledInFronts(d);
    FrontedSame(Overridden(d.params, HOST, Spelling(d.host)), Overridden(d.params, PORT, Enc(d.port)),
                Overridden(d.params, HOST, HostName(d.host)), Overridden(d.params, PORT, d.port), Rest(d));
  }

  lemma SettingsReadableIff(d: Dsn)
    ensures AllReadable(SpelledSettings(d)) <==> NamesReadable(d.params)
    ensures AllReadable(DsnSettings(d)) <==> NamesReadable(d.params)
    ensures NoneEmpty(SpelledSettings(d))
  {
    RestReadableIff(d);
    SpelledInFronts(d);
    FrontedReadableIff(Overridden(d.params, HOST, Spelling(d.host)), Overridden(d.params, PORT, Enc(d.port)), Rest(d));
    FrontedReadableIff(Overridden(d.params, HOST, HostName(d.host)), Overridden(d.params, PORT, d.port), Rest(d));
  }

  /**
   Print any connection as a canonical URI, rewrite it, and read the result by
   libpq's grammar: the settings of the connection come back, all of them, in
   order and nothing else, if and only if no parameter name holds white space or
   `=` and neither host nor port needs an escape that the query does not override.
   */
  lemma RewritePreservesMeaningIff(d: Dsn, short: bool, wide: Text -> bool)
    ensures var r := Keywords(PrintUri(d, short), wide);
            r.Some? && (ReadPairs(r.value) == Some(Meaning(d)) <==> Survives(d))
  {
    KeywordsOfUri(d, short, wide);
    SettingsAreTheMeaning(d);
    SettingsReadableIff(d);
    SameSettingsIff(d);
    RenderedReadsBackIff(SpelledSettings(d), wide);
    var text := Rendered(SpelledSettings(d), wide);
    if ReadPairs(text) == Some(Meaning(d)) {
      ReadNamesAreReadable(text);
    }
  }

  // ---- connections whose meaning does not survive ----

  const SPELLED_SOCKET: Text := ['%', '2', 'F', 't']

  lemma SocketIsSpelled(host: Text)
    requires host == ['/', 't']
    ensures Enc(host) == SPELLED_SOCKET
  {
    assert host[1..] == ['t'] && ['t'][1..] == [];
    assert Enc(['t']) == ['t'];
    assert Escaped('/') == ['%', '2', 'F'];
  }

  /** Nothing but a host. */
  predicate HostOnly(d: Dsn, host: Text) {
    d == Dsn([], [], Plain(host), [], [], []) && host != []
  }

  lemma HostOnlyUri(d: Dsn, host: Text)
    requires HostOnly(d, host)
    ensures PrintUri(d, true) == SHORT_SCHEME + Enc(host)
  {
    assert PrintTarget(d) == PrintAuthority(d) == Enc(host);
    assert PrintBody(d) == Enc(host);
  }

  lemma HostOnlySettings(d: Dsn, host: Text)
    requires HostOnly(d, host)
    ensures SpelledSettings(d) == [Pair(HOST, Enc(host))] && Meaning(d) == [Pair(HOST, host)]
  {
    OwnEncodingIff(host, Unreserved);
    SpelledInFronts(d);
    SettingsAreTheMeaning(d);
    assert Rest(d) == [];
  }

  lemma HostOnlyReads(d: Dsn, host: Text, wide: Text -> bool) returns (r: Text)
    requires HostOnly(d, host)
    ensures Keywords(PrintUri(d, true), wide) == Some(r) && ReadPairs(r) == Some([Pair(HOST, Enc(host))])
  {
    KeywordsOfUri(d, true, wide);
    HostOnlySettings(d, host);
    OwnEncodingIff(host, Unreserved);
    r := Rendered(SpelledSettings(d), wide);
    OneHostReads(Enc(host), wide);
  }

  lemma OneHostReads(host: Text, wide: Text -> bool)
    requires host != []
    ensures ReadPairs(Rendered([Pair(HOST, host)], wide)) == Some([Pair(HOST, host)])
  {
    var p := Pair(HOST, host);
    var pairs := [p];
    assert Readable(p.key) && p.value != [];
    assert forall i | 0 <= i < |pairs| :: pairs[i] == p;
    ReadableReadsBack(pairs, wide);
  }

  /** `postgres://%2Ft` means the host `/t`, a socket directory, and connects to `%2Ft`. */
  lemma EscapedHostIsLost(wide: Text -> bool) returns (d: Dsn, r: Text)
    ensures PrintUri(d, true) == SHORT_SCHEME + SPELLED_SOCKET && Meaning(d) == [Pair(HOST, ['/', 't'])]
    ensures Keywords(PrintUri(d, true), wide) == Some(r) && ReadPairs(r) == Some([Pair(HOST, SPELLED_SOCKET)])
  {
    var host: Text := ['/', 't'];
    d := Dsn([], [], Plain(host), [], [], []);
    SocketIsSpelled(host);
    HostOnlyUri(d, host);
    HostOnlySettings(d, host);
    r := HostOnlyReads(d, host, wide);
  }

  const FORGED_NAME: Text := ['x', '=', '1', ' '] + HOST

  /** No host, and a single parameter with an odd name: `postgres://?x%3D1%20host=...`. */
  predicate Forging(d: Dsn, value: Text) {
    d == Dsn([], [], Plain([]), [], [], [Pair(FORGED_NAME, value)]) && value != []
  }

  lemma ForgingSettings(d: Dsn, value: Text)
    requires Forging(d, value)
    ensures SpelledSettings(d) == Meaning(d) == [Pair(FORGED_NAME, value)]
  {
    var p := Pair(FORGED_NAME, value);
    assert p.key[0] == 'x';
    assert p.key != HOST && p.key != PORT;
    assert Others([p]) == [p] by {
      assert [p][..0] == [];
    }
    assert QueryValue([p], HOST) == None && QueryValue([p], PORT) == None by {
      assert [p][1..] == [];
    }
    SpelledInFronts(d);
    SettingsAreTheMeaning(d);
    assert Rest(d) == [p];
  }

  lemma ForgedReads(value: Text, wide: Text -> bool)
    requires value != []
    ensures ReadPairs(Rendered([Pair(FORGED_NAME, value)], wide)) == Some([Pair(['x'], ['1']), Pair(HOST, value)])
  {
    var first, second := Pair(['x'], ['1']), Pair(HOST, value);
    NameForgesPair(first, second, wide);
    assert first.key + ['='] + first.value + ([' '] + second.key) == FORGED_NAME;
  }

  /** That connection names no host at all, and its keywords connect to whatever host `value` says. */
  lemma NameForgesHost(value: Text, wide: Text -> bool) returns (d: Dsn, r: Text)
    requires value != []
    ensures Forging(d, value) && Meaning(d) == [Pair(FORGED_NAME, value)]
    ensures Keywords(PrintUri(d, true), wide) == Some(r)
    ensures ReadPairs(r) == Some([Pair(['x'], ['1']), Pair(HOST, value)])
  {
    d := Dsn([], [], Plain([]), [], [], [Pair(FORGED_NAME, value)]);
    ForgingSettings(d, value);
    KeywordsOfUri(d, true, wide);
    r := Rendered(SpelledSettings(d), wide);
    ForgedReads(value, wide);
  }
}
