/**
 The SSH command line accepted by import (ssh_import.rs: `parse_command`,
 `split_short_option`, `option_value`, `validate_destination`,
 `validate_o_option`, `expand_home`), after the shell words were split.

 The program walks an index over the words. Here that loop is proved against a
 recursive reading of the words, which in turn is proved to be the inverse of a
 grammar: options in attached or separate spelling, then one destination.
 */
module SshCommand {
  import opened Basics
  import opened IncludeScan

  datatype Problem =
    | MissingDestination | RemoteCommand | OptionAfterDestination | BadDestination
    | MissingValue(flag: char) | UnsupportedOption(flag: char) | UnsupportedKey(key: string) | NoHome

  datatype Parsed = Parsed(destination: string, arguments: seq<string>, config: ConfigSelection)

  // ---- words ----

  predicate IsSpace(c: char) {
    || '\t' <= c <= '\r' || c == ' ' || c == '\U{85}' || c == '\U{A0}' || c == '\U{1680}'
    || '\U{2000}' <= c <= '\U{200A}' || c == '\U{2028}' || c == '\U{2029}' || c == '\U{202F}'
    || c == '\U{205F}' || c == '\U{3000}'
  }

  predicate DestinationChar(c: char) {
    'a' <= c <= 'z' || 'A' <= c <= 'Z' || '0' <= c <= '9' || c in "._-+%@"
  }

  predicate ValidDestination(s: string) {
    s != "" && s[0] != '-' && forall i | 0 <= i < |s| :: DestinationChar(s[i])
  }

  /** The part before the first occurrence of `c`, if it occurs. */
  function Before(s: string, c: char): Option<string> {
    if s == "" then None
    else if s[0] == c then Some("")
    else match Before(s[1..], c)
      case None => None
      case Some(t) => Some([s[0]] + t)
  }

  function FirstToken(s: string): string {
    if s == "" then "" else if IsSpace(s[0]) then FirstToken(s[1..]) else TokenHere(s)
  }

  function TokenHere(s: string): string {
    if s == "" || IsSpace(s[0]) then "" else [s[0]] + TokenHere(s[1..])
  }

  const ALLOWED_KEYS: set<string> := {
    "hostname", "port", "user", "identityfile", "proxyjump", "hostkeyalias",
    "userknownhostsfile", "globalknownhostsfile"
  }

  /** The configuration keyword a `-o` value sets. */
  function KeyOf(value: string): string {
    Lower(match Before(value, '=') case Some(k) => k case None => FirstToken(value))
  }

  predicate AllowedKey(value: string) {
    KeyOf(value) in ALLOWED_KEYS
  }

  function Join(base: Path, rest: string): Path {
    if rest != "" && rest[0] == '/' then rest else base + "/" + rest
  }

  function ExpandHome(value: string, home: Option<Path>): Option<Path> {
    if value == "~" then home
    else if "~/" <= value then (if home.None? then None else Some(Join(home.value, value[2..])))
    else Some(value)
  }

  // ---- the grammar ----

  /** One option, spelled `-fvalue` or `-f value`. */
  datatype Opt = Opt(flag: char, value: string, attached: bool)

  predicate ValidOpt(o: Opt, home: Option<Path>) {
    && o.flag in "plJiFo"
    && (o.attached ==> o.value != "")
    && (o.flag == 'o' ==> AllowedKey(o.value))
    && (o.flag == 'F' && o.value != "none" ==> ExpandHome(o.value, home).Some?)
  }

  predicate AllValid(os: seq<Opt>, home: Option<Path>) {
    forall i | 0 <= i < |os| :: ValidOpt(os[i], home)
  }

  function Spelled(o: Opt): seq<string> {
    if o.attached then [['-', o.flag] + o.value] else [['-', o.flag], o.value]
  }

  function Sentence(os: seq<Opt>, destination: string): seq<string> {
    if os == [] then [destination] else Spelled(os[0]) + Sentence(os[1..], destination)
  }

  /** What OpenSSH is handed: every option in separate spelling. */
  function Arguments(os: seq<Opt>): seq<string> {
    if os == [] then [] else [['-', os[0].flag], os[0].value] + Arguments(os[1..])
  }

  function Selects(o: Opt, home: Option<Path>, otherwise: ConfigSelection): ConfigSelection {
    if o.flag != 'F' then otherwise
    else if o.value == "none" then NoFile
    else match ExpandHome(o.value, home) case Some(p) => File(p) case None => otherwise
  }

  /** The last `-F` decides. */
  function Config(os: seq<Opt>, home: Option<Path>): ConfigSelection {
    if os == [] then Default
    else Selects(os[|os| - 1], home, Config(os[..|os| - 1], home))
  }

  function WithoutSsh(words: seq<string>): seq<string> {
    if words != [] && words[0] == "ssh" then words[1..] else words
  }

  // ---- the recursive reading ----

  predicate IsOption(word: string) {
    |word| >= 2 && word[0] == '-'
  }

  /** The option that `words` open with, or what is wrong with it. */
  function NextOption(words: seq<string>, home: Option<Path>): Result<Opt, Problem>
    requires words != [] && IsOption(words[0])
  {
    var flag, rest := words[0][1], words[0][2..];
    if flag !in "plJiFo" then Err(UnsupportedOption(flag))
    else if rest == "" && |words| == 1 then Err(MissingValue(flag))
    else
      var o := if rest != "" then Opt(flag, rest, true) else Opt(flag, words[1], false);
      if flag == 'o' && !AllowedKey(o.value) then Err(UnsupportedKey(KeyOf(o.value)))
      else if flag == 'F' && o.value != "none" && ExpandHome(o.value, home).None? then Err(NoHome)
      else Ok(o)
  }

  /** What is wrong right at the front of `words`, if anything is. */
  function Fault(words: seq<string>, home: Option<Path>): Option<Problem> {
    if words == [] then Some(MissingDestination)
    else if IsOption(words[0]) then
      match NextOption(words, home) case Err(p) => Some(p) case Ok(_) => None
    else if !ValidDestination(words[0]) then Some(BadDestination)
    else if |words| == 1 then None
    else Some(if IsOption(words[1]) then OptionAfterDestination else RemoteCommand)
  }

  datatype Reading = Reading(options: seq<Opt>, destination: string)

  function Read(words: seq<string>, home: Option<Path>): Result<Reading, Problem>
    decreases |words|
  {
    match Fault(words, home)
    case Some(p) => Err(p)
    case None =>
      if !IsOption(words[0]) then Ok(Reading([], words[0]))
      else
        var o := NextOption(words, home).value;
        match Read(words[|Spelled(o)|..], home)
        case Err(p) => Err(p)
        case Ok(r) => Ok(Reading([o] + r.options, r.destination))
  }

  lemma NextOptionSpells(words: seq<string>, home: Option<Path>)
    requires words != [] && IsOption(words[0]) && NextOption(words, home).Ok?
    ensures var o := NextOption(words, home).value;
            && ValidOpt(o, home) && 0 < |Spelled(o)| <= |words|
            && Spelled(o) == words[..|Spelled(o)|]
  {
    var word := words[0];
    assert word == ['-', word[1]] + word[2..];
    if word[2..] == "" {
      assert word == ['-', word[1]];
      assert words[..2] == [word, words[1]];
    } else {
      assert words[..1] == [word];
    }
  }

  lemma SentenceCons(o: Opt, os: seq<Opt>, destination: string, home: Option<Path>)
    ensures Sentence([o] + os, destination) == Spelled(o) + Sentence(os, destination)
    ensures ValidOpt(o, home) && AllValid(os, home) ==> AllValid([o] + os, home)
  {
    assert ([o] + os)[1..] == os;
  }

  lemma Rejoin(words: seq<string>, k: nat)
    requires k <= |words|
    ensures words[..k] + words[k..] == words
  {}

  /** Whatever is read is a sentence of the grammar, and it spells the words back. */
  lemma {:induction false} ReadIsSentence(words: seq<string>, home: Option<Path>)
    requires Read(words, home).Ok?
    ensures var r := Read(words, home).value;
            && AllValid(r.options, home) && ValidDestination(r.destination)
            && Sentence(r.options, r.destination) == words
    decreases |words|
  {
    if IsOption(words[0]) {
      NextOptionSpells(words, home);
      var o := NextOption(words, home).value;
      var k := |Spelled(o)|;
      ReadIsSentence(words[k..], home);
      var r := Read(words[k..], home).value;
      SentenceCons(o, r.options, r.destination, home);
      Rejoin(words, k);
    } else {
      assert words == [words[0]];
    }
  }

  lemma OptionIsRead(o: Opt, rest: seq<string>, home: Option<Path>)
    requires ValidOpt(o, home)
    ensures var words := Spelled(o) + rest;
            && IsOption(words[0]) && NextOption(words, home) == Ok(o) && words[|Spelled(o)|..] == rest
  {
    var words := Spelled(o) + rest;
    assert words[0][1] == o.flag && words[0][2..] == (if o.attached then o.value else "");
  }

  /** Every sentence of the grammar is read, and as itself. */
  lemma {:induction false} SentenceIsRead(os: seq<Opt>, destination: string, home: Option<Path>)
    requires AllValid(os, home) && ValidDestination(destination)
    ensures Read(Sentence(os, destination), home) == Ok(Reading(os, destination))
    decreases |os|
  {
    if os != [] {
      SentenceIsRead(os[1..], destination, home);
      OptionIsRead(os[0], Sentence(os[1..], destination), home);
      assert os == [os[0]] + os[1..];
    }
  }

  /** The words are accepted exactly when they spell a sentence of the grammar. */
  lemma AcceptsExactlyTheGrammar(words: seq<string>, home: Option<Path>)
    ensures Read(words, home).Ok? <==>
            exists os, d :: AllValid(os, home) && ValidDestination(d) && Sentence(os, d) == words
  {
    if Read(words, home).Ok? {
      ReadIsSentence(words, home);
    }
    forall os, d | AllValid(os, home) && ValidDestination(d) && Sentence(os, d) == words
      ensures Read(words, home).Ok? {
      SentenceIsRead(os, d, home);
    }
  }

  /** All options spelled out one after the other. */
  function SpelledAll(os: seq<Opt>): seq<string> {
    if os == [] then [] else Spelled(os[0]) + SpelledAll(os[1..])
  }

  /** `rest` opens with option `flag` and `value`, in either spelling. */
  predicate OpensWith(rest: seq<string>, flag: char, value: string) {
    || (|rest| >= 1 && value != "" && rest[0] == ['-', flag] + value)
    || (|rest| >= 2 && rest[0] == ['-', flag] && rest[1] == value)
  }

  /** What each refusal says of the words it was met at. */
  ghost predicate Explains(p: Problem, rest: seq<string>, home: Option<Path>) {
    match p
    case MissingDestination => rest == []
    case BadDestination => rest != [] && !IsOption(rest[0]) && !ValidDestination(rest[0])
    case RemoteCommand => |rest| >= 2 && ValidDestination(rest[0]) && !IsOption(rest[1])
    case OptionAfterDestination => |rest| >= 2 && ValidDestination(rest[0]) && IsOption(rest[1])
    case MissingValue(f) => f in "plJiFo" && rest == [['-', f]]
    case UnsupportedOption(f) => f !in "plJiFo" && rest != [] && ['-', f] <= rest[0]
    case UnsupportedKey(k) => exists value :: OpensWith(rest, 'o', value) && k == KeyOf(value) && !AllowedKey(value)
    case NoHome => home.None? && exists value :: OpensWith(rest, 'F', value) && value != "" && value[0] == '~'
  }

  lemma FaultIsExplained(rest: seq<string>, home: Option<Path>)
    requires Fault(rest, home).Some?
    ensures Explains(Fault(rest, home).value, rest, home)
  {
    if rest != [] && IsOption(rest[0]) {
      var word := rest[0];
      var flag, attached := word[1], word[2..];
      assert word == ['-', flag] + attached;
      if flag in "plJiFo" {
        if attached == "" {
          assert word == ['-', flag];
          if |rest| > 1 {
            assert OpensWith(rest, flag, rest[1]);
          }
        } else {
          assert OpensWith(rest, flag, attached);
        }
      }
    }
  }

  /** A refusal names the first thing wrong: what precedes it is a run of valid options. */
  lemma {:induction false} RefusalNamesFirstFault(words: seq<string>, home: Option<Path>)
    returns (os: seq<Opt>, rest: seq<string>)
    requires Read(words, home).Err?
    ensures AllValid(os, home) && words == SpelledAll(os) + rest
    ensures Fault(rest, home) == Some(Read(words, home).error) && Explains(Read(words, home).error, rest, home)
    decreases |words|
  {
    if Fault(words, home).Some? {
      os, rest := [], words;
      FaultIsExplained(words, home);
    } else {
      NextOptionSpells(words, home);
      var o := NextOption(words, home).value;
      var k := |Spelled(o)|;
      var more;
      more, rest := RefusalNamesFirstFault(words[k..], home);
      os := [o] + more;
      SpelledAllCons(o, more, rest);
      Rejoin(words, k);
    }
  }

  lemma SpelledAllCons(o: Opt, os: seq<Opt>, rest: seq<string>)
    ensures SpelledAll([o] + os) + rest == Spelled(o) + (SpelledAll(os) + rest)
  {
    assert ([o] + os)[1..] == os;
  }

  /** A leading `ssh` may be there or not; a destination of that name needs it. */
  lemma SshMayLead(source: seq<string>, home: Option<Path>)
    ensures Read(WithoutSsh(source), home).Ok? <==>
            exists os, d :: AllValid(os, home) && ValidDestination(d) && SpelledWithOrWithout(source, os, d)
    ensures forall os, d | AllValid(os, home) && ValidDestination(d) && SpelledWithOrWithout(source, os, d) ::
              Read(WithoutSsh(source), home) == Ok(Reading(os, d))
  {
    if Read(WithoutSsh(source), home).Ok? {
      ReadIsSentence(WithoutSsh(source), home);
      var r := Read(WithoutSsh(source), home).value;
      assert source != [] && source[0] == "ssh" ==> source == ["ssh"] + source[1..];
      assert SpelledWithOrWithout(source, r.options, r.destination);
    }
    forall os, d | AllValid(os, home) && ValidDestination(d) && SpelledWithOrWithout(source, os, d)
      ensures Read(WithoutSsh(source), home) == Ok(Reading(os, d)) {
      SentenceIsRead(os, d, home);
      assert WithoutSsh(source) == Sentence(os, d);
    }
  }

  predicate SpelledWithOrWithout(source: seq<string>, os: seq<Opt>, d: string) {
    source == ["ssh"] + Sentence(os, d) || (source == Sentence(os, d) && source != [] && source[0] != "ssh")
  }

  /** OpenSSH is handed every option, flag and value, in order. */
  lemma {:induction false} ArgumentsListAll(os: seq<Opt>, i: nat)
    requires i < |os|
    ensures |Arguments(os)| == 2 * |os|
    ensures Arguments(os)[2 * i] == ['-', os[i].flag] && Arguments(os)[2 * i + 1] == os[i].value
  {
    if |os| > 1 {
      ArgumentsListAll(os[1..], if i > 0 then i - 1 else 0);
      assert Arguments(os)[2..] == Arguments(os[1..]);
    }
  }

  lemma {:induction false} WithoutFDefault(os: seq<Opt>, home: Option<Path>)
    requires forall i | 0 <= i < |os| :: os[i].flag != 'F'
    ensures Config(os, home) == Default
    decreases |os|
  {
    if os != [] {
      WithoutFDefault(os[..|os| - 1], home);
    }
  }

  /** The last `-F` decides which configuration is read; without one it is the default. */
  lemma {:induction false} LastFDecides(os: seq<Opt>, home: Option<Path>, k: nat)
    requires k < |os| && os[k].flag == 'F' && ValidOpt(os[k], home)
    requires forall j | k < j < |os| :: os[j].flag != 'F'
    ensures Config(os, home) == if os[k].value == "none" then NoFile else File(ExpandHome(os[k].value, home).value)
    decreases |os|
  {
    var n := |os| - 1;
    if k < n {
      assert os[n].flag != 'F';
      assert os[..n][k] == os[k];
      LastFDecides(os[..n], home, k);
    }
  }

  /** `~` is the home directory, `~/x` lies in it, and a path that does not start with `~` stays as it is. */
  lemma HomeIsExpanded(rest: string, home: Option<Path>, path: string)
    requires rest == "" || rest[0] != '/'
    requires path == "" || path[0] != '~'
    ensures ExpandHome("~", home) == home
    ensures ExpandHome("~/" + rest, home) == if home.None? then None else Some(home.value + "/" + rest)
    ensures ExpandHome(path, home) == Some(path)
  {
    var tilde := "~/" + rest;
    assert tilde[2..] == rest && tilde[1] == '/' && "~/" <= tilde;
  }

  /** The separate checks for slashes and white space follow from the alphabet. */
  lemma DestinationIff(s: string)
    ensures ValidDestination(s) <==>
            && s != "" && s[0] != '-' && '/' !in s && (forall c <- s :: !IsSpace(c))
            && (forall c <- s :: 'a' <= c <= 'z' || 'A' <= c <= 'Z' || '0' <= c <= '9' || c in "._-+%@")
  {
    if ValidDestination(s) {
      forall c | c in s ensures DestinationChar(c) {
        var i :| 0 <= i < |s| && s[i] == c;
      }
    }
  }

  // ---- which -o keywords are allowed ----

  predicate AmongTheEight(key: string) {
    || SameWord(key, "hostname") || SameWord(key, "port") || SameWord(key, "user") || SameWord(key, "identityfile")
    || SameWord(key, "proxyjump") || SameWord(key, "hostkeyalias")
    || SameWord(key, "userknownhostsfile") || SameWord(key, "globalknownhostsfile")
  }

  lemma AllowedIff(key: string)
    ensures Lower(key) in ALLOWED_KEYS <==> AmongTheEight(key)
  {
    LowerIff(key, "hostname");
    LowerIff(key, "port");
    LowerIff(key, "user");
    LowerIff(key, "identityfile");
    LowerIff(key, "proxyjump");
    LowerIff(key, "hostkeyalias");
    LowerIff(key, "userknownhostsfile");
    LowerIff(key, "globalknownhostsfile");
  }

  lemma {:induction false} BeforeFinds(key: string, c: char, rest: string)
    requires c !in key
    ensures Before(key + [c] + rest, c) == Some(key)
  {
    var s := key + [c] + rest;
    if key != "" {
      BeforeFinds(key[1..], c, rest);
      assert s[1..] == key[1..] + [c] + rest;
      assert key == [key[0]] + key[1..];
    }
  }

  lemma {:induction false} BeforeMisses(s: string, c: char)
    requires c !in s
    ensures Before(s, c) == None
  {
    if s != "" {
      BeforeMisses(s[1..], c);
    }
  }

  /** With an `=`, the keyword is everything before the first one. */
  lemma KeyBeforeEquals(key: string, rest: string)
    requires '=' !in key
    ensures AllowedKey(key + "=" + rest) <==> AmongTheEight(key)
  {
    BeforeFinds(key, '=', rest);
    AllowedIff(key);
  }

  lemma {:induction false} TokenTakes(key: string, post: string)
    requires forall i | 0 <= i < |key| :: !IsSpace(key[i])
    requires post == "" || IsSpace(post[0])
    ensures TokenHere(key + post) == key
  {
    if key == "" {
      assert key + post == post;
    } else {
      TokenTakes(key[1..], post);
      assert (key + post)[1..] == key[1..] + post;
      assert key == [key[0]] + key[1..];
    }
  }

  lemma {:induction false} TokenSkips(pre: string, rest: string)
    requires forall i | 0 <= i < |pre| :: IsSpace(pre[i])
    ensures FirstToken(pre + rest) == FirstToken(rest)
  {
    if pre == "" {
      assert pre + rest == rest;
    } else {
      TokenSkips(pre[1..], rest);
      assert (pre + rest)[1..] == pre[1..] + rest;
    }
  }

  /** Without one, it is the first run of other than white space, if there is any. */
  lemma KeyIsFirstToken(pre: string, key: string, post: string)
    requires (forall i | 0 <= i < |pre| :: IsSpace(pre[i])) && (forall i | 0 <= i < |key| :: !IsSpace(key[i]))
    requires post == "" || (key != "" && IsSpace(post[0]))
    requires '=' !in pre + (key + post)
    ensures AllowedKey(pre + (key + post)) <==> AmongTheEight(key)
  {
    BeforeMisses(pre + (key + post), '=');
    TokenSkips(pre, key + post);
    TokenTakes(key, post);
    if key != "" {
      assert (key + post)[0] == key[0];
    }
    AllowedIff(key);
  }

  function Meaning(r: Reading, home: Option<Path>): Parsed {
    Parsed(r.destination, Arguments(r.options), Config(r.options, home))
  }

  // ---- printing a parsed command and parsing it again ----

  function Printed(p: Parsed): seq<string> {
    ["ssh"] + p.arguments + [p.destination]
  }

  function Separated(os: seq<Opt>): seq<Opt> {
    seq(|os|, i requires 0 <= i < |os| => os[i].(attached := false))
  }

  lemma {:induction false} SeparatedSentence(os: seq<Opt>, destination: string)
    ensures Sentence(Separated(os), destination) == Arguments(os) + [destination]
    ensures Arguments(Separated(os)) == Arguments(os)
    decreases |os|
  {
    if os != [] {
      SeparatedSentence(os[1..], destination);
      assert Separated(os)[1..] == Separated(os[1..]);
    }
  }

  lemma {:induction false} SeparatedConfig(os: seq<Opt>, home: Option<Path>)
    ensures Config(Separated(os), home) == Config(os, home)
    decreases |os|
  {
    if os != [] {
      SeparatedConfig(os[..|os| - 1], home);
      assert Separated(os)[..|os| - 1] == Separated(os[..|os| - 1]);
    }
  }

  /** The round trip: destination, arguments and the last `-F` survive. */
  lemma PrintedParsesBack(words: seq<string>, home: Option<Path>)
    requires Read(words, home).Ok?
    ensures var p := Meaning(Read(words, home).value, home);
            var again := Read(WithoutSsh(Printed(p)), home);
            again.Ok? && Meaning(again.value, home) == p
  {
    var r := Read(words, home).value;
    ReadIsSentence(words, home);
    SeparatedSentence(r.options, r.destination);
    SeparatedConfig(r.options, home);
    SentenceIsRead(Separated(r.options), r.destination, home);
    PrintedOpensWithSsh(Meaning(r, home));
  }

  lemma PrintedOpensWithSsh(p: Parsed)
    ensures WithoutSsh(Printed(p)) == p.arguments + [p.destination]
  {
    assert Printed(p) == ["ssh"] + (p.arguments + [p.destination]);
  }

  // ---- the loop of the program ----

  lemma {:induction false} ArgumentsAppend(os: seq<Opt>, o: Opt)
    ensures Arguments(os + [o]) == Arguments(os) + [['-', o.flag], o.value]
    decreases |os|
  {
    if os == [] {
      assert os + [o] == [o];
    } else {
      ArgumentsAppend(os[1..], o);
      assert (os + [o])[1..] == os[1..] + [o];
    }
  }

  /** What reading on from `rest` comes to after `done` options and perhaps a destination. */
  ghost function ReadOn(done: seq<Opt>, destination: Option<string>, rest: seq<string>, home: Option<Path>):
    Result<Reading, Problem>
  {
    match destination
    case Some(d) =>
      if rest == [] then Ok(Reading(done, d))
      else Err(if IsOption(rest[0]) then OptionAfterDestination else RemoteCommand)
    case None =>
      match Read(rest, home)
      case Err(p) => Err(p)
      case Ok(r) => Ok(Reading(done + r.options, r.destination))
  }

  /** The state of the loop: everything decided so far, and what is still to be read. */
  ghost predicate SoFar(words: seq<string>, index: nat, home: Option<Path>, done: seq<Opt>,
                        destination: Option<string>, arguments: seq<string>, config: ConfigSelection)
  {
    && index <= |words|
    && Read(words, home) == ReadOn(done, destination, words[index..], home)
    && arguments == Arguments(done) && config == Config(done, home)
  }

  lemma NothingYet(words: seq<string>, home: Option<Path>)
    ensures SoFar(words, 0, home, [], None, [], Default)
  {
    assert words[0..] == words;
    if Read(words, home).Ok? {
      assert [] + Read(words, home).value.options == Read(words, home).value.options;
    }
  }

  lemma ReadOnPastOption(done: seq<Opt>, rest: seq<string>, home: Option<Path>)
    requires rest != [] && IsOption(rest[0]) && NextOption(rest, home).Ok?
    ensures var o := NextOption(rest, home).value;
            |Spelled(o)| <= |rest|
            && ReadOn(done, None, rest, home) == ReadOn(done + [o], None, rest[|Spelled(o)|..], home)
  {
    NextOptionSpells(rest, home);
    var o := NextOption(rest, home).value;
    var r := Read(rest[|Spelled(o)|..], home);
    if r.Ok? {
      assert done + ([o] + r.value.options) == (done + [o]) + r.value.options;
    }
  }

  lemma OptionStep(words: seq<string>, index: nat, home: Option<Path>, done: seq<Opt>,
                   arguments: seq<string>, config: ConfigSelection)
    requires SoFar(words, index, home, done, None, arguments, config) && index < |words| && IsOption(words[index])
    ensures NextOption(words[index..], home).Err? ==> Read(words, home) == Err(NextOption(words[index..], home).error)
    ensures NextOption(words[index..], home).Ok? ==>
              var o := NextOption(words[index..], home).value;
              SoFar(words, index + |Spelled(o)|, home, done + [o], None,
                    arguments + [['-', o.flag], o.value], Selects(o, home, config))
  {
    var rest := words[index..];
    if NextOption(rest, home).Ok? {
      var o := NextOption(rest, home).value;
      ReadOnPastOption(done, rest, home);
      ArgumentsAppend(done, o);
      assert (done + [o])[..|done|] == done;
      assert rest[|Spelled(o)|..] == words[index + |Spelled(o)|..];
    }
  }

  lemma DestinationStep(words: seq<string>, index: nat, home: Option<Path>, done: seq<Opt>,
                        arguments: seq<string>, config: ConfigSelection)
    requires SoFar(words, index, home, done, None, arguments, config) && index < |words| && !IsOption(words[index])
    ensures if ValidDestination(words[index])
            then SoFar(words, index + 1, home, done, Some(words[index]), arguments, config)
            else Read(words, home) == Err(BadDestination)
  {
    var rest := words[index..];
    assert done + [] == done;
    assert words[index + 1..] == rest[1..];
  }

  datatype Taken = Taken(flag: char, value: string, next: nat, config: ConfigSelection)

  /** `option_value`: the attached value, else the next word. */
  method OptionValue(words: seq<string>, index: nat, attached: string, flag: char)
    returns (result: Result<string, Problem>, next: nat)
    requires index < |words|
    ensures result == if attached != "" then Ok(attached)
                      else if index + 1 < |words| then Ok(words[index + 1]) else Err(MissingValue(flag))
    ensures next == if attached != "" then index + 1 else index + 2
  {
    next := index + 1;
    if attached != "" {
      return Ok(attached), next;
    }
    result := if next < |words| then Ok(words[next]) else Err(MissingValue(flag));
    next := next + 1;
  }

  /** One turn of the loop on an option word: its value, its effect on the configuration, where to go on. */
  method TakeOption(words: seq<string>, index: nat, home: Option<Path>, config: ConfigSelection)
    returns (result: Result<Taken, Problem>)
    requires index < |words| && IsOption(words[index])
    ensures result.Ok? <==> NextOption(words[index..], home).Ok?
    ensures result.Err? ==> result.error == NextOption(words[index..], home).error
    ensures result.Ok? ==>
              var o := NextOption(words[index..], home).value;
              result.value == Taken(o.flag, o.value, index + |Spelled(o)|, Selects(o, home, config))
  {
    var flag, attached := words[index][1], words[index][2..];
    if flag !in "plJiFo" {
      return Err(UnsupportedOption(flag));
    }
    var found, next := OptionValue(words, index, attached, flag);
    if found.Err? {
      return Err(found.error);
    }
    var value, selected := found.value, config;
    if flag == 'F' {
      if value == "none" {
        selected := NoFile;
      } else {
        var expanded := ExpandHome(value, home);
        if expanded.None? {
          return Err(NoHome);
        }
        selected := File(expanded.value);
      }
    } else if flag == 'o' {
      if !AllowedKey(value) {
        return Err(UnsupportedKey(KeyOf(value)));
      }
    }
    return Ok(Taken(flag, value, next, selected));
  }

  /** The loop accepts what the recursive reading accepts, with its meaning, and refuses the rest for its reason. */
  method ParseCommand(source: seq<string>, home: Option<Path>) returns (result: Result<Parsed, Problem>)
    ensures result.Ok? <==> Read(WithoutSsh(source), home).Ok?
    ensures result.Err? ==> result.error == Read(WithoutSsh(source), home).error
    ensures result.Ok? ==> result.value == Meaning(Read(WithoutSsh(source), home).value, home)
  {
    var words := source;
    if words != [] && words[0] == "ssh" {
      words := words[1..];
    }
    if words == [] {
      return Err(MissingDestination);
    }
    var arguments: seq<string>, config, index := [], Default, 0;
    ghost var done: seq<Opt> := [];
    var destination: Option<string> := None;
    NothingYet(words, home);
    while index < |words|
      invariant SoFar(words, index, home, done, destination, arguments, config)
      decreases |words| - index
    {
      if !IsOption(words[index]) {
        if destination.Some? {
          return Err(RemoteCommand);
        }
        DestinationStep(words, index, home, done, arguments, config);
        if !ValidDestination(words[index]) {
          return Err(BadDestination);
        }
        destination := Some(words[index]);
        index := index + 1;
        continue;
      }
      if destination.Some? {
        return Err(OptionAfterDestination);
      }
      OptionStep(words, index, home, done, arguments, config);
      var taken := TakeOption(words, index, home, config);
      if taken.Err? {
        return Err(taken.error);
      }
      done := done + [NextOption(words[index..], home).value];
      arguments := arguments + [['-', taken.value.flag], taken.value.value];
      config := taken.value.config;
      index := taken.value.next;
    }
    if destination.None? {
      return Err(MissingDestination);
    }
    return Ok(Parsed(destination.value, arguments, config));
  }
}
