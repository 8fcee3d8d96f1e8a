/**
 The scan of SSH configuration files for `Match exec` before OpenSSH is asked to
 resolve them (ssh_import.rs: `scan_configs_for_exec`, `scan_config`).

 Includes form a graph that may share files and run in circles. The file system
 is a fixed environment: canonicalisation, file contents split into words, and the
 expansion of Include patterns are given functions.
 */
module IncludeScan {
  import opened Basics

  const MAX_CONFIG_FILES: nat := 64

  type Path = string

  datatype Lookup = Missing | Unreadable | Canonical(file: string)

  /** A line after comments were cut: nothing on it, not splittable, or its words. */
  datatype Line = Blank | Malformed | Words(words: seq<string>)

  datatype Contents = Unavailable | TooLarge | Text(lines: seq<Line>)

  datatype Expansion = BadPattern | Matches(paths: seq<Path>)

  datatype FileSystem = FileSystem(
    lookup: Path -> Lookup,
    contents: string -> Contents,
    expand: (string, string) -> Expansion)   // the including file and the pattern

  // ---- what a line says ----

  function Lower(s: string): string {
    seq(|s|, i requires 0 <= i < |s| => if 'A' <= s[i] <= 'Z' then s[i] + (32 as char) else s[i])
  }

  function TrimBangs(s: string): string {
    if s != [] && s[0] == '!' then TrimBangs(s[1..]) else s
  }

  predicate ExecCriterion(word: string) {
    var c := Lower(TrimBangs(word));
    c == "exec" || "exec=" <= c
  }

  /** Neither negation marks nor letter case hide the criterion. */
  lemma ExecCriterionIgnoresBangsAndCase(word: string)
    ensures ExecCriterion(['!'] + word) <==> ExecCriterion(word)
    ensures Lower(Lower(word)) == Lower(word)
    ensures ExecCriterion(Lower(word)) <==> ExecCriterion(word)
  {
    assert (['!'] + word)[1..] == word;
    TrimLower(word);
  }

  lemma {:induction false} TrimLower(word: string)
    ensures Lower(TrimBangs(Lower(word))) == Lower(TrimBangs(word))
  {
    if word != [] && word[0] == '!' {
      TrimLower(word[1..]);
      assert Lower(word)[1..] == Lower(word[1..]);
    } else {
      assert Lower(Lower(word)) == Lower(word);
    }
  }

  predicate SameLetter(a: char, b: char) {
    || a == b
    || ('A' <= a <= 'Z' && b as int == a as int + 32)
    || ('A' <= b <= 'Z' && a as int == b as int + 32)
  }

  /** Equal but for the case of ASCII letters. */
  predicate SameWord(s: string, t: string) {
    |s| == |t| && forall i | 0 <= i < |s| :: SameLetter(s[i], t[i])
  }

  lemma LowerIff(s: string, t: string)
    requires forall i | 0 <= i < |t| :: !('A' <= t[i] <= 'Z')
    ensures Lower(s) == t <==> SameWord(s, t)
  {
    if Lower(s) == t {
      forall i | 0 <= i < |s| ensures SameLetter(s[i], t[i]) {
        assert Lower(s)[i] == t[i];
      }
    }
    if SameWord(s, t) {
      forall i | 0 <= i < |s| ensures Lower(s)[i] == t[i] {
        assert SameLetter(s[i], t[i]);
      }
    }
  }

  /** After any number of `!` the word is `exec`, or starts with `exec=`, in whatever case. */
  ghost predicate AsksForExec(word: string) {
    exists n: nat :: AsksForExecAfter(word, n)
  }

  predicate AsksForExecAfter(word: string, n: nat) {
    && n <= |word| && (forall i | 0 <= i < n :: word[i] == '!') && (n < |word| ==> word[n] != '!')
    && (SameWord(word[n..], "exec") || (|word| >= n + 5 && SameWord(word[n..n + 5], "exec=")))
  }

  lemma {:induction false} TrimmedBangs(word: string) returns (n: nat)
    ensures n <= |word| && (forall i | 0 <= i < n :: word[i] == '!') && (n < |word| ==> word[n] != '!')
    ensures TrimBangs(word) == word[n..]
  {
    n := 0;
    if word != [] && word[0] == '!' {
      var m := TrimmedBangs(word[1..]);
      n := m + 1;
      assert word[1..][m..] == word[n..];
      forall i | 0 <= i < n ensures word[i] == '!' {
        assert i > 0 ==> word[1..][i - 1] == '!';
      }
      assert n < |word| ==> word[1..][m] == word[n];
    }
  }

  lemma CoreIff(core: string)
    ensures Lower(core) == "exec" <==> SameWord(core, "exec")
    ensures "exec=" <= Lower(core) <==> |core| >= 5 && SameWord(core[..5], "exec=")
  {
    LowerIff(core, "exec");
    if |core| >= 5 {
      LowerIff(core[..5], "exec=");
      assert Lower(core)[..5] == Lower(core[..5]);
    }
  }

  lemma ExecCriterionIff(word: string)
    ensures ExecCriterion(word) <==> AsksForExec(word)
  {
    var n := TrimmedBangs(word);
    CoreIff(word[n..]);
    assert |word| >= n + 5 ==> word[n..][..5] == word[n..n + 5];
    assert ExecCriterion(word) <==> AsksForExecAfter(word, n);
    forall m: nat | AsksForExecAfter(word, m) ensures m == n {
    }
  }

  /** `Match` with a criterion that runs a command. */
  ghost predicate RunsCommand(words: seq<string>) {
    words != [] && SameWord(words[0], "match") && exists i | 0 < i < |words| :: AsksForExec(words[i])
  }

  lemma MatchExecIff(words: seq<string>)
    ensures IsMatchExec(words) <==> RunsCommand(words)
  {
    if words != [] {
      LowerIff(words[0], "match");
      forall i | 0 < i < |words| ensures ExecCriterion(words[i]) <==> AsksForExec(words[i]) {
        ExecCriterionIff(words[i]);
      }
    }
  }

  lemma IncludeIff(words: seq<string>)
    ensures IsInclude(words) <==> words != [] && SameWord(words[0], "include")
  {
    if words != [] {
      LowerIff(words[0], "include");
    }
  }

  predicate IsMatchExec(words: seq<string>) {
    words != [] && Lower(words[0]) == "match" && exists i | 0 < i < |words| :: ExecCriterion(words[i])
  }

  predicate IsInclude(words: seq<string>) {
    words != [] && Lower(words[0]) == "include"
  }

  // ---- what the scan must establish ----

  /** A path needs no further look: it does not exist, or its file is in `seen`. */
  ghost predicate Covered(fs: FileSystem, p: Path, seen: set<string>) {
    match fs.lookup(p)
    case Missing => true
    case Unreadable => false
    case Canonical(f) => f in seen
  }

  ghost predicate PatternCovered(fs: FileSystem, file: string, pattern: string, seen: set<string>) {
    match fs.expand(file, pattern)
    case BadPattern => false
    case Matches(paths) => forall i | 0 <= i < |paths| :: Covered(fs, paths[i], seen)
  }

  /** The line is harmless and everything it includes is covered. */
  ghost predicate LineCovered(fs: FileSystem, file: string, line: Line, seen: set<string>) {
    match line
    case Blank => true
    case Malformed => false
    case Words(words) =>
      && !IsMatchExec(words)
      && (IsInclude(words) ==> forall i | 0 < i < |words| :: PatternCovered(fs, file, words[i], seen))
  }

  ghost predicate Inspected(fs: FileSystem, file: string, seen: set<string>) {
    fs.contents(file).Text?
    && forall i | 0 <= i < |fs.contents(file).lines| :: LineCovered(fs, file, fs.contents(file).lines[i], seen)
  }

  /** A set of harmless files that includes nothing outside itself. */
  ghost predicate Closed(fs: FileSystem, files: set<string>) {
    forall f <- files :: Inspected(fs, f, files)
  }

  lemma CoveredGrows(fs: FileSystem, p: Path, seen: set<string>, more: set<string>)
    requires Covered(fs, p, seen) && seen <= more
    ensures Covered(fs, p, more)
  {}

  lemma LineCoveredGrows(fs: FileSystem, file: string, line: Line, seen: set<string>, more: set<string>)
    requires LineCovered(fs, file, line, seen) && seen <= more
    ensures LineCovered(fs, file, line, more)
  {}

  lemma InspectedGrows(fs: FileSystem, file: string, seen: set<string>, more: set<string>)
    requires Inspected(fs, file, seen) && seen <= more
    ensures Inspected(fs, file, more)
  {
    forall i | 0 <= i < |fs.contents(file).lines|
      ensures LineCovered(fs, file, fs.contents(file).lines[i], more) {
      LineCoveredGrows(fs, file, fs.contents(file).lines[i], seen, more);
    }
  }

  /** What one call adds to `seen` is inspected, up to what it ends with. */
  ghost predicate Added(fs: FileSystem, before: set<string>, after: set<string>) {
    before <= after && forall f <- after - before :: Inspected(fs, f, after)
  }

  lemma AddedTwice(fs: FileSystem, a: set<string>, b: set<string>, c: set<string>)
    requires Added(fs, a, b) && Added(fs, b, c)
    ensures Added(fs, a, c)
  {
    forall f | f in c - a ensures Inspected(fs, f, c) {
      if f in b {
        InspectedGrows(fs, f, b, c);
      }
    }
  }

  /** `world` is a harmless closed set small enough for the scan to succeed from `seen`. */
  ghost predicate Fits(fs: FileSystem, world: set<string>, seen: set<string>) {
    Closed(fs, world) && seen <= world && |world| < MAX_CONFIG_FILES
  }

  lemma SubsetSize(a: set<string>, b: set<string>)
    requires a <= b
    ensures |a| <= |b|
  {
    assert |b| == |a| + |b - a| by {
      assert b == a + (b - a);
    }
  }

  // ---- reachability ----

  /** `file` has an Include line one of whose patterns matches `p`. */
  ghost predicate Includes(fs: FileSystem, file: string, p: Path) {
    fs.contents(file).Text?
    && exists l: nat, i: nat, j: nat :: IncludedAt(fs, file, p, l, i, j)
  }

  ghost predicate IncludedAt(fs: FileSystem, file: string, p: Path, l: nat, i: nat, j: nat)
    requires fs.contents(file).Text?
  {
    var lines := fs.contents(file).lines;
    && l < |lines| && lines[l].Words? && IsInclude(lines[l].words)
    && 0 < i < |lines[l].words|
    && fs.expand(file, lines[l].words[i]).Matches?
    && j < |fs.expand(file, lines[l].words[i]).paths|
    && fs.expand(file, lines[l].words[i]).paths[j] == p
  }

  /** A chain of Include edges, last file outermost. */
  datatype Chain = Root(path: Path) | Via(earlier: Chain, file: string, next: Path)

  ghost function EndPath(c: Chain): Path {
    if c.Root? then c.path else c.next
  }

  /** The chain starts at a root and follows Include edges through existing files. */
  ghost predicate IsChain(fs: FileSystem, roots: seq<Path>, c: Chain) {
    match c
    case Root(p) => p in roots
    case Via(earlier, file, next) =>
      IsChain(fs, roots, earlier) && fs.lookup(EndPath(earlier)) == Canonical(file) && Includes(fs, file, next)
  }

  ghost predicate Reachable(fs: FileSystem, roots: seq<Path>, file: string) {
    exists c :: IsChain(fs, roots, c) && fs.lookup(EndPath(c)) == Canonical(file)
  }

  ghost predicate LineAt(fs: FileSystem, file: string, l: nat, line: Line) {
    fs.contents(file).Text? && l < |fs.contents(file).lines| && fs.contents(file).lines[l] == line
  }

  ghost predicate PatternAt(fs: FileSystem, file: string, l: nat, i: nat, pattern: string) {
    && fs.contents(file).Text? && l < |fs.contents(file).lines|
    && fs.contents(file).lines[l].Words? && IsInclude(fs.contents(file).lines[l].words)
    && 0 < i < |fs.contents(file).lines[l].words| && fs.contents(file).lines[l].words[i] == pattern
  }

  /** The chain ends at an existing file, which is `file`. */
  ghost predicate Leads(fs: FileSystem, roots: seq<Path>, c: Chain, file: string) {
    IsChain(fs, roots, c) && fs.lookup(EndPath(c)) == Canonical(file)
  }

  /** Whatever was added is reachable. */
  ghost predicate AddedReachable(fs: FileSystem, roots: seq<Path>, before: set<string>, after: set<string>) {
    forall f <- after :: f in before || Reachable(fs, roots, f)
  }

  // ---- the scan ----

  /**
   Scan one path. Success means that the path is covered and everything added is
   inspected; and within any small harmless closed world the scan does succeed.
   */
  method ScanConfig(fs: FileSystem, path: Path, seen: set<string>,
                    ghost world: set<string>, ghost roots: seq<Path>, ghost chain: Chain)
    returns (ok: bool, after: set<string>)
    requires |seen| <= MAX_CONFIG_FILES
    requires IsChain(fs, roots, chain) && EndPath(chain) == path
    ensures AddedReachable(fs, roots, seen, after)
    ensures seen <= after && |after| <= MAX_CONFIG_FILES
    ensures ok ==> Covered(fs, path, after) && Added(fs, seen, after)
    ensures Fits(fs, world, seen) && Covered(fs, path, world) ==> ok && after <= world
    decreases MAX_CONFIG_FILES - |seen|, 0
  {
    after := seen;
    ghost var fits := Fits(fs, world, seen) && Covered(fs, path, world);
    if |seen| >= MAX_CONFIG_FILES {
      if fits { SubsetSize(seen, world); }
      return false, after;
    }
    var found := fs.lookup(path);
    if found.Missing? {
      return true, after;
    }
    if found.Unreadable? {
      return false, after;
    }
    var canonical := found.file;
    if canonical in seen {
      return true, after;
    }
    after := seen + {canonical};
    assert Reachable(fs, roots, canonical);
    var contents := fs.contents(canonical);
    if !contents.Text? {
      assert fits ==> Inspected(fs, canonical, world);
      return false, after;
    }
    assert fits ==> Inspected(fs, canonical, world) && Fits(fs, world, after);
    ok, after := ScanLines(fs, canonical, contents.lines, after, world, roots, chain);
    if ok {
      forall f | f in after - seen ensures Inspected(fs, f, after) {
      }
    }
  }

  method ScanLines(fs: FileSystem, file: string, lines: seq<Line>, seen: set<string>,
                   ghost world: set<string>, ghost roots: seq<Path>, ghost chain: Chain)
    returns (ok: bool, after: set<string>)
    requires |seen| <= MAX_CONFIG_FILES
    requires Leads(fs, roots, chain, file) && fs.contents(file) == Text(lines)
    ensures AddedReachable(fs, roots, seen, after)
    ensures seen <= after && |after| <= MAX_CONFIG_FILES
    ensures ok ==> Added(fs, seen, after)
    ensures ok ==> forall i | 0 <= i < |lines| :: LineCovered(fs, file, lines[i], after)
    ensures Fits(fs, world, seen) && (forall i | 0 <= i < |lines| :: LineCovered(fs, file, lines[i], world)) ==>
              ok && after <= world
    decreases MAX_CONFIG_FILES - |seen|, 3
  {
    after := seen;
    ghost var fits := Fits(fs, world, seen) && forall i | 0 <= i < |lines| :: LineCovered(fs, file, lines[i], world);
    for n := 0 to |lines|
      invariant seen <= after && |after| <= MAX_CONFIG_FILES && Added(fs, seen, after)
      invariant AddedReachable(fs, roots, seen, after)
      invariant forall i | 0 <= i < n :: LineCovered(fs, file, lines[i], after)
      invariant fits ==> after <= world
    {
      ghost var before := after;
      SubsetSize(seen, after);
      ok, after := ScanLine(fs, file, lines[n], after, world, roots, chain, n);
      if !ok {
        return;
      }
      AddedTwice(fs, seen, before, after);
      forall i | 0 <= i < n ensures LineCovered(fs, file, lines[i], after) {
        LineCoveredGrows(fs, file, lines[i], before, after);
      }
    }
    ok := true;
  }

  method ScanLine(fs: FileSystem, file: string, line: Line, seen: set<string>,
                  ghost world: set<string>, ghost roots: seq<Path>, ghost chain: Chain, ghost l: nat)
    returns (ok: bool, after: set<string>)
    requires |seen| <= MAX_CONFIG_FILES
    requires Leads(fs, roots, chain, file) && LineAt(fs, file, l, line)
    ensures AddedReachable(fs, roots, seen, after)
    ensures seen <= after && |after| <= MAX_CONFIG_FILES
    ensures ok ==> Added(fs, seen, after) && LineCovered(fs, file, line, after)
    ensures Fits(fs, world, seen) && LineCovered(fs, file, line, world) ==> ok && after <= world
    decreases MAX_CONFIG_FILES - |seen|, 2
  {
    after := seen;
    if line.Blank? {
      return true, after;
    }
    if line.Malformed? || IsMatchExec(line.words) {
      return false, after;
    }
    if !IsInclude(line.words) {
      return true, after;
    }
    ghost var fits := Fits(fs, world, seen) && LineCovered(fs, file, line, world);
    for n := 1 to |line.words|
      invariant seen <= after && |after| <= MAX_CONFIG_FILES && Added(fs, seen, after)
      invariant AddedReachable(fs, roots, seen, after)
      invariant forall i | 0 < i < n :: PatternCovered(fs, file, line.words[i], after)
      invariant fits ==> after <= world
    {
      ghost var before := after;
      SubsetSize(seen, after);
      ok, after := ScanPattern(fs, file, line.words[n], after, world, roots, chain, l, n);
      if !ok {
        return;
      }
      AddedTwice(fs, seen, before, after);
      forall i | 0 < i < n ensures PatternCovered(fs, file, line.words[i], after) {
        assert PatternCovered(fs, file, line.words[i], before);
      }
    }
    ok := true;
  }

  method ScanPattern(fs: FileSystem, file: string, pattern: string, seen: set<string>,
                     ghost world: set<string>, ghost roots: seq<Path>, ghost chain: Chain, ghost l: nat, ghost i: nat)
    returns (ok: bool, after: set<string>)
    requires |seen| <= MAX_CONFIG_FILES
    requires Leads(fs, roots, chain, file) && PatternAt(fs, file, l, i, pattern)
    ensures AddedReachable(fs, roots, seen, after)
    ensures seen <= after && |after| <= MAX_CONFIG_FILES
    ensures ok ==> Added(fs, seen, after) && PatternCovered(fs, file, pattern, after)
    ensures Fits(fs, world, seen) && PatternCovered(fs, file, pattern, world) ==> ok && after <= world
    decreases MAX_CONFIG_FILES - |seen|, 1
  {
    after := seen;
    var expansion := fs.expand(file, pattern);
    if expansion.BadPattern? {
      return false, after;
    }
    var paths := expansion.paths;
    ghost var fits := Fits(fs, world, seen) && PatternCovered(fs, file, pattern, world);
    for n := 0 to |paths|
      invariant seen <= after && |after| <= MAX_CONFIG_FILES && Added(fs, seen, after)
      invariant AddedReachable(fs, roots, seen, after)
      invariant forall i | 0 <= i < n :: Covered(fs, paths[i], after)
      invariant fits ==> after <= world
    {
      ghost var before := after;
      SubsetSize(seen, after);
      assert IncludedAt(fs, file, paths[n], l, i, n);
      ok, after := ScanConfig(fs, paths[n], after, world, roots, Via(chain, file, paths[n]));
      if !ok {
        return;
      }
      AddedTwice(fs, seen, before, after);
      forall i | 0 <= i < n ensures Covered(fs, paths[i], after) {
        CoveredGrows(fs, paths[i], before, after);
      }
    }
    ok := true;
  }

  // ---- the entry point ----

  datatype ConfigSelection = Default | NoFile | File(path: Path)

  /** A set of files justifies a verdict of "no Match exec": closed, harmless, and covering the roots. */
  ghost predicate Justifies(fs: FileSystem, roots: seq<Path>, files: set<string>) {
    Closed(fs, files) && forall i | 0 <= i < |roots| :: Covered(fs, roots[i], files)
  }

  /**
   What a verdict on `roots` means. Success comes with a justification of at most 64
   files, which are exactly the files reachable from the roots; and whenever some
   justification of fewer than 64 exists there is success.
   */
  ghost predicate Decides(fs: FileSystem, roots: seq<Path>, world: set<string>, ok: bool, seen: set<string>) {
    && |seen| <= 64
    && (ok ==> Justifies(fs, roots, seen))
    && (ok ==> forall f :: f in seen <==> Reachable(fs, roots, f))
    && (Justifies(fs, roots, world) && |world| < 64 ==> ok)
  }

  method ScanRoots(fs: FileSystem, roots: seq<Path>, ghost world: set<string>) returns (ok: bool, seen: set<string>)
    ensures Decides(fs, roots, world, ok, seen)
  {
    seen := {};
    ghost var fits := Justifies(fs, roots, world) && |world| < MAX_CONFIG_FILES;
    for n := 0 to |roots|
      invariant |seen| <= MAX_CONFIG_FILES && Added(fs, {}, seen) && AddedReachable(fs, roots, {}, seen)
      invariant forall i | 0 <= i < n :: Covered(fs, roots[i], seen)
      invariant fits ==> seen <= world
    {
      ghost var before := seen;
      ok, seen := ScanConfig(fs, roots[n], seen, world, roots, Root(roots[n]));
      if !ok {
        return;
      }
      AddedTwice(fs, {}, before, seen);
      forall i | 0 <= i < n ensures Covered(fs, roots[i], seen) {
        CoveredGrows(fs, roots[i], before, seen);
      }
    }
    forall f | f in seen ensures Inspected(fs, f, seen) {
      assert f in seen - {};
    }
    forall f | Reachable(fs, roots, f) ensures f in seen {
      NoReachableMatchExec(fs, roots, seen, f);
    }
    ok := true;
  }

  /** The path does not exist, or its file was seen and no line of it is a `Match exec`. */
  ghost predicate Harmless(fs: FileSystem, p: Path, seen: set<string>) {
    match fs.lookup(p)
    case Missing => true
    case Unreadable => false
    case Canonical(f) =>
      f in seen && fs.contents(f).Text?
      && forall i | 0 <= i < |fs.contents(f).lines| ::
           fs.contents(f).lines[i].Words? ==> !RunsCommand(fs.contents(f).lines[i].words)
  }

  lemma JustifiedIsHarmless(fs: FileSystem, roots: seq<Path>, seen: set<string>, k: nat)
    requires Justifies(fs, roots, seen) && k < |roots|
    ensures Harmless(fs, roots[k], seen)
  {
    assert Covered(fs, roots[k], seen);
    if fs.lookup(roots[k]).Canonical? {
      var f := fs.lookup(roots[k]).file;
      assert Inspected(fs, f, seen);
      forall i | 0 <= i < |fs.contents(f).lines| && fs.contents(f).lines[i].Words?
        ensures !RunsCommand(fs.contents(f).lines[i].words) {
        assert LineCovered(fs, f, fs.contents(f).lines[i], seen);
        MatchExecIff(fs.contents(f).lines[i].words);
      }
    }
  }

  /**
   The entry point: the file given with `-F`, none at all, or the two files that
   OpenSSH reads by default, for which HOME is needed.
   */
  method ScanConfigsForExec(fs: FileSystem, selection: ConfigSelection, home: Option<Path>, ghost world: set<string>)
    returns (ok: bool, seen: set<string>)
    ensures selection.NoFile? ==> ok && seen == {}
    ensures selection.File? ==> Decides(fs, [selection.path], world, ok, seen)
    ensures selection.File? && ok ==> Harmless(fs, selection.path, seen)
    ensures selection.Default? && home.None? ==> !ok
    ensures selection.Default? && home.Some? ==>
              Decides(fs, [home.value + "/.ssh/config", "/etc/ssh/ssh_config"], world, ok, seen)
    ensures selection.Default? && ok ==>
              home.Some? && Harmless(fs, home.value + "/.ssh/config", seen) && Harmless(fs, "/etc/ssh/ssh_config", seen)
  {
    match selection
    case NoFile =>
      return true, {};
    case File(path) =>
      ok, seen := ScanRoots(fs, [path], world);
      if ok {
        JustifiedIsHarmless(fs, [path], seen, 0);
      }
    case Default =>
      if home.None? {
        return false, {};
      }
      var roots := [home.value + "/.ssh/config", "/etc/ssh/ssh_config"];
      ok, seen := ScanRoots(fs, roots, world);
      if ok {
        JustifiedIsHarmless(fs, roots, seen, 0);
        JustifiedIsHarmless(fs, roots, seen, 1);
      }
  }

  // ---- what success means ----

  lemma {:induction false} ChainsStayInside(fs: FileSystem, roots: seq<Path>, files: set<string>, c: Chain)
    requires Justifies(fs, roots, files) && IsChain(fs, roots, c)
    ensures Covered(fs, EndPath(c), files)
  {
    match c
    case Root(p) =>
      var i :| 0 <= i < |roots| && roots[i] == p;
      assert Covered(fs, roots[i], files);
    case Via(earlier, file, next) =>
      ChainsStayInside(fs, roots, files, earlier);
      assert Inspected(fs, file, files);
      var l: nat, i: nat, j: nat :| IncludedAt(fs, file, next, l, i, j);
      assert LineCovered(fs, file, fs.contents(file).lines[l], files);
      assert PatternCovered(fs, file, fs.contents(file).lines[l].words[i], files);
  }

  /**
   Soundness: when the scan justifies its verdict, every file reachable from the
   roots, through sharing and cycles, was inspected and has no `Match exec` line.
   */
  lemma NoReachableMatchExec(fs: FileSystem, roots: seq<Path>, files: set<string>, file: string)
    requires Justifies(fs, roots, files) && Reachable(fs, roots, file)
    ensures file in files && fs.contents(file).Text?
    ensures forall i | 0 <= i < |fs.contents(file).lines| ::
              !fs.contents(file).lines[i].Malformed?
              && (fs.contents(file).lines[i].Words? ==> !RunsCommand(fs.contents(file).lines[i].words))
  {
    var c :| IsChain(fs, roots, c) && fs.lookup(EndPath(c)) == Canonical(file);
    ChainsStayInside(fs, roots, files, c);
    assert Inspected(fs, file, files);
    forall i | 0 <= i < |fs.contents(file).lines|
      ensures !fs.contents(file).lines[i].Malformed?
              && (fs.contents(file).lines[i].Words? ==> !RunsCommand(fs.contents(file).lines[i].words)) {
      assert LineCovered(fs, file, fs.contents(file).lines[i], files);
      if fs.contents(file).lines[i].Words? {
        MatchExecIff(fs.contents(file).lines[i].words);
      }
    }
  }

  /**
   The reachable files, which are what a successful scan returns, are the least
   justification: no smaller set does.
   */
  lemma ReachableIsLeast(fs: FileSystem, roots: seq<Path>, files: set<string>, other: set<string>)
    requires forall f :: f in files <==> Reachable(fs, roots, f)
    requires Justifies(fs, roots, other)
    ensures files <= other && |files| <= |other|
  {
    forall f | f in files ensures f in other {
      NoReachableMatchExec(fs, roots, other, f);
    }
    SubsetSize(files, other);
  }
}
