/**
 Merging known_hosts evidence from several files (ssh_import.rs:
 `scan_known_hosts`). The lookup of each file is given as its list of entries, or
 as a failure. The program pushes in nested loops and then thins its lists in
 place; the reference reads the verdict off everything that was seen.
 */
module KnownHosts {
  import opened Basics

  datatype Marker = Plain | Revoked | CertAuthority

  datatype Entry = Entry(fingerprint: string, algorithm: string, marker: Marker)

  datatype Candidate = Candidate(fingerprint: string, algorithm: string, source: string)

  datatype File = File(path: string, entries: Result<seq<Entry>, string>)

  datatype Scan = Scan(candidates: seq<Candidate>, revoked: seq<string>, sawAuthority: bool)

  /** An entry together with the file it came from. */
  datatype Sighting = Sighting(entry: Entry, source: string)

  function AsCandidate(s: Sighting): Candidate {
    Candidate(s.entry.fingerprint, s.entry.algorithm, s.source)
  }

  function FromFile(entries: seq<Entry>, path: string): seq<Sighting> {
    if entries == [] then [] else
      var n := |entries| - 1;
      FromFile(entries[..n], path) + [Sighting(entries[n], path)]
  }

  /** Everything seen, file by file; `None` when some file could not be searched. */
  function Sightings(files: seq<File>): Option<seq<Sighting>> {
    if files == [] then Some([]) else
      var n := |files| - 1;
      match Sightings(files[..n])
      case None => None
      case Some(before) =>
        if files[n].entries.Err? then None
        else Some(before + FromFile(files[n].entries.value, files[n].path))
  }

  // ---- the reference ----

  /** `fingerprint` was seen under `marker`. */
  ghost predicate Seen(all: seq<Sighting>, marker: Marker, fingerprint: string) {
    exists i | 0 <= i < |all| :: all[i].entry.marker == marker && all[i].entry.fingerprint == fingerprint
  }

  /** The first unmarked sighting of every fingerprint that is not `bad`, in order. */
  ghost function FirstPlain(all: seq<Sighting>, bad: set<string>): seq<Candidate> {
    if all == [] then [] else
      var n := |all| - 1;
      var s := all[n];
      FirstPlain(all[..n], bad)
      + (if s.entry.marker == Plain && !Seen(all[..n], Plain, s.entry.fingerprint) && s.entry.fingerprint !in bad
         then [AsCandidate(s)] else [])
  }

  /** Every revoked fingerprint once, in order of first sighting. */
  ghost function FirstRevoked(all: seq<Sighting>): seq<string> {
    if all == [] then [] else
      var n := |all| - 1;
      var s := all[n];
      FirstRevoked(all[..n])
      + (if s.entry.marker == Revoked && !Seen(all[..n], Revoked, s.entry.fingerprint)
         then [s.entry.fingerprint] else [])
  }

  ghost function RevokedSet(all: seq<Sighting>): set<string> {
    set i | 0 <= i < |all| && all[i].entry.marker == Revoked :: all[i].entry.fingerprint
  }

  ghost function Merged(all: seq<Sighting>): Scan {
    Scan(FirstPlain(all, RevokedSet(all)), FirstRevoked(all),
         exists i | 0 <= i < |all| :: all[i].entry.marker == CertAuthority)
  }

  // ---- the lists the loops build ----

  function Plains(all: seq<Sighting>): seq<Candidate> {
    if all == [] then [] else
      var n := |all| - 1;
      Plains(all[..n]) + (if all[n].entry.marker == Plain then [AsCandidate(all[n])] else [])
  }

  function RevokedPrints(all: seq<Sighting>): seq<string> {
    if all == [] then [] else
      var n := |all| - 1;
      RevokedPrints(all[..n]) + (if all[n].entry.marker == Revoked then [all[n].entry.fingerprint] else [])
  }

  function Prints(cs: seq<Candidate>): set<string> {
    set i | 0 <= i < |cs| :: cs[i].fingerprint
  }

  function Deduped(cs: seq<Candidate>): seq<Candidate> {
    if cs == [] then [] else
      var n := |cs| - 1;
      Deduped(cs[..n]) + (if cs[n].fingerprint in Prints(cs[..n]) then [] else [cs[n]])
  }

  function DedupedPrints(fs: seq<string>): seq<string> {
    if fs == [] then [] else
      var n := |fs| - 1;
      DedupedPrints(fs[..n]) + (if fs[n] in fs[..n] then [] else [fs[n]])
  }

  function Without(cs: seq<Candidate>, bad: set<string>): seq<Candidate> {
    if cs == [] then [] else
      var n := |cs| - 1;
      Without(cs[..n], bad) + (if cs[n].fingerprint in bad then [] else [cs[n]])
  }

  lemma WithoutAppend(cs: seq<Candidate>, c: Candidate, bad: set<string>)
    ensures Without(cs + [c], bad) == if c.fingerprint in bad then Without(cs, bad) else Without(cs, bad) + [c]
  {
    assert (cs + [c])[..|cs|] == cs;
  }

  lemma DedupedAppend(cs: seq<Candidate>, c: Candidate)
    ensures Deduped(cs + [c]) == if c.fingerprint in Prints(cs) then Deduped(cs) else Deduped(cs) + [c]
  {
    assert (cs + [c])[..|cs|] == cs;
  }

  lemma {:induction false} PlainsPrints(all: seq<Sighting>, fingerprint: string)
    ensures fingerprint in Prints(Plains(all)) <==> Seen(all, Plain, fingerprint)
  {
    if all != [] {
      var n := |all| - 1;
      PlainsPrints(all[..n], fingerprint);
      SeenAppend(all, Plain, fingerprint);
      var before := Plains(all[..n]);
      PrintsAppend(before, AsCandidate(all[n]));
      assert before + [] == before;
    }
  }

  lemma PrintsAppend(cs: seq<Candidate>, c: Candidate)
    ensures Prints(cs + [c]) == Prints(cs) + {c.fingerprint}
  {
    var more := cs + [c];
    forall p | p in Prints(cs) ensures p in Prints(more) {
      var i :| 0 <= i < |cs| && cs[i].fingerprint == p;
      assert more[i].fingerprint == p;
    }
    assert more[|cs|].fingerprint == c.fingerprint;
  }

  lemma SeenAppend(all: seq<Sighting>, marker: Marker, fingerprint: string)
    requires all != []
    ensures var n := |all| - 1;
            Seen(all, marker, fingerprint) <==>
              Seen(all[..n], marker, fingerprint)
              || (all[n].entry.marker == marker && all[n].entry.fingerprint == fingerprint)
  {
    var n := |all| - 1;
    if Seen(all[..n], marker, fingerprint) {
      var i :| 0 <= i < n && all[..n][i].entry.marker == marker && all[..n][i].entry.fingerprint == fingerprint;
      assert all[i].entry.marker == marker;
    }
    if Seen(all, marker, fingerprint) {
      var i :| 0 <= i < |all| && all[i].entry.marker == marker && all[i].entry.fingerprint == fingerprint;
      assert i < n ==> all[..n][i].entry.marker == marker;
    }
  }

  /** Collect, drop repeats, drop revoked: the passes of the program arrive at the reference. */
  lemma {:induction false} PassesMeetReference(all: seq<Sighting>, bad: set<string>)
    ensures Without(Deduped(Plains(all)), bad) == FirstPlain(all, bad)
  {
    if all != [] {
      var n := |all| - 1;
      var before, c := Plains(all[..n]), AsCandidate(all[n]);
      PassesMeetReference(all[..n], bad);
      assert before + [] == before;
      assert FirstPlain(all[..n], bad) + [] == FirstPlain(all[..n], bad);
      if all[n].entry.marker == Plain {
        PlainsPrints(all[..n], c.fingerprint);
        PassesAppend(before, c, bad);
      }
    }
  }

  lemma PassesAppend(cs: seq<Candidate>, c: Candidate, bad: set<string>)
    ensures Without(Deduped(cs + [c]), bad) ==
            if c.fingerprint in Prints(cs) || c.fingerprint in bad then Without(Deduped(cs), bad)
            else Without(Deduped(cs), bad) + [c]
  {
    DedupedAppend(cs, c);
    WithoutAppend(Deduped(cs), c, bad);
  }

  lemma {:induction false} RevokedPrintsSeen(all: seq<Sighting>, fingerprint: string)
    ensures fingerprint in RevokedPrints(all) <==> Seen(all, Revoked, fingerprint)
  {
    if all != [] {
      RevokedPrintsSeen(all[..|all| - 1], fingerprint);
      SeenAppend(all, Revoked, fingerprint);
    }
  }

  lemma {:induction false} RevokedMeetsReference(all: seq<Sighting>)
    ensures DedupedPrints(RevokedPrints(all)) == FirstRevoked(all)
  {
    if all != [] {
      var n := |all| - 1;
      RevokedMeetsReference(all[..n]);
      var before := RevokedPrints(all[..n]);
      var f := all[n].entry.fingerprint;
      RevokedPrintsSeen(all[..n], f);
      if all[n].entry.marker == Revoked {
        assert (before + [f])[..|before|] == before;
      } else {
        assert before + [] == before;
      }
    }
  }

  lemma RevokedSetSeen(all: seq<Sighting>, fingerprint: string)
    ensures fingerprint in RevokedSet(all) <==> Seen(all, Revoked, fingerprint)
  {}

  // ---- the program ----

  /** `Vec::retain` with a set of what was already kept. */
  method RetainFirst(cs: seq<Candidate>) returns (kept: seq<Candidate>)
    ensures kept == Deduped(cs)
  {
    kept := [];
    var seen: set<string> := {};
    for n := 0 to |cs|
      invariant kept == Deduped(cs[..n]) && seen == Prints(cs[..n])
    {
      assert cs[..n + 1] == cs[..n] + [cs[n]];
      DedupedAppend(cs[..n], cs[n]);
      PrintsAppend(cs[..n], cs[n]);
      if cs[n].fingerprint !in seen {
        seen := seen + {cs[n].fingerprint};
        kept := kept + [cs[n]];
      }
    }
    assert cs[..|cs|] == cs;
  }

  method RetainFirstPrints(fs: seq<string>) returns (kept: seq<string>, seen: set<string>)
    ensures kept == DedupedPrints(fs) && seen == set f | f in fs
  {
    kept, seen := [], {};
    for n := 0 to |fs|
      invariant kept == DedupedPrints(fs[..n]) && seen == set f | f in fs[..n]
    {
      assert fs[..n + 1] == fs[..n] + [fs[n]];
      assert fs[..n + 1][..n] == fs[..n];
      if fs[n] !in seen {
        seen := seen + {fs[n]};
        kept := kept + [fs[n]];
      }
    }
    assert fs[..|fs|] == fs;
  }

  method RetainUnrevoked(cs: seq<Candidate>, bad: set<string>) returns (kept: seq<Candidate>)
    ensures kept == Without(cs, bad)
  {
    kept := [];
    for n := 0 to |cs|
      invariant kept == Without(cs[..n], bad)
    {
      assert cs[..n + 1] == cs[..n] + [cs[n]];
      WithoutAppend(cs[..n], cs[n], bad);
      if cs[n].fingerprint !in bad {
        kept := kept + [cs[n]];
      }
    }
    assert cs[..|cs|] == cs;
  }

  /** What the collecting loops hold after `all` has been seen. */
  ghost predicate Collected(all: seq<Sighting>, candidates: seq<Candidate>, revoked: seq<string>, sawAuthority: bool) {
    && candidates == Plains(all) && revoked == RevokedPrints(all)
    && sawAuthority == exists i | 0 <= i < |all| :: all[i].entry.marker == CertAuthority
  }

  lemma CollectedMore(all: seq<Sighting>, s: Sighting)
    ensures Plains(all + [s]) == if s.entry.marker == Plain then Plains(all) + [AsCandidate(s)] else Plains(all)
    ensures RevokedPrints(all + [s]) ==
            if s.entry.marker == Revoked then RevokedPrints(all) + [s.entry.fingerprint] else RevokedPrints(all)
  {
    assert (all + [s])[..|all|] == all;
  }

  lemma AuthorityMore(all: seq<Sighting>, s: Sighting)
    ensures (exists i | 0 <= i < |all + [s]| :: (all + [s])[i].entry.marker == CertAuthority) <==>
            (exists i | 0 <= i < |all| :: all[i].entry.marker == CertAuthority) || s.entry.marker == CertAuthority
  {
    var more := all + [s];
    assert more[|all|] == s;
    if i :| 0 <= i < |all| && all[i].entry.marker == CertAuthority {
      assert more[i].entry.marker == CertAuthority;
    }
    if i :| 0 <= i < |more| && more[i].entry.marker == CertAuthority {
      assert i < |all| ==> all[i].entry.marker == CertAuthority;
    }
  }

  lemma CollectedPlain(all: seq<Sighting>, s: Sighting, candidates: seq<Candidate>, revoked: seq<string>, sawAuthority: bool)
    requires Collected(all, candidates, revoked, sawAuthority) && s.entry.marker == Plain
    ensures Collected(all + [s], candidates + [AsCandidate(s)], revoked, sawAuthority)
  {
    CollectedMore(all, s);
    AuthorityMore(all, s);
  }

  lemma CollectedRevoked(all: seq<Sighting>, s: Sighting, candidates: seq<Candidate>, revoked: seq<string>, sawAuthority: bool)
    requires Collected(all, candidates, revoked, sawAuthority) && s.entry.marker == Revoked
    ensures Collected(all + [s], candidates, revoked + [s.entry.fingerprint], sawAuthority)
  {
    CollectedMore(all, s);
    AuthorityMore(all, s);
  }

  lemma CollectedAuthority(all: seq<Sighting>, s: Sighting, candidates: seq<Candidate>, revoked: seq<string>, sawAuthority: bool)
    requires Collected(all, candidates, revoked, sawAuthority) && s.entry.marker == CertAuthority
    ensures Collected(all + [s], candidates, revoked, true)
  {
    CollectedMore(all, s);
    AuthorityMore(all, s);
  }

  lemma OneMoreEntry(before: seq<Sighting>, entries: seq<Entry>, n: nat, path: string)
    requires n < |entries|
    ensures before + FromFile(entries[..n + 1], path) == (before + FromFile(entries[..n], path)) + [Sighting(entries[n], path)]
  {
    assert entries[..n + 1][..n] == entries[..n];
  }

  method CollectFile(path: string, entries: seq<Entry>, candidates: seq<Candidate>, revoked: seq<string>,
                     sawAuthority: bool, ghost before: seq<Sighting>)
    returns (candidates': seq<Candidate>, revoked': seq<string>, sawAuthority': bool)
    requires Collected(before, candidates, revoked, sawAuthority)
    ensures Collected(before + FromFile(entries, path), candidates', revoked', sawAuthority')
  {
    candidates', revoked', sawAuthority' := candidates, revoked, sawAuthority;
    assert before + FromFile(entries[..0], path) == before;
    for n := 0 to |entries|
      invariant Collected(before + FromFile(entries[..n], path), candidates', revoked', sawAuthority')
    {
      var entry := entries[n];
      ghost var all := before + FromFile(entries[..n], path);
      ghost var seen := Sighting(entry, path);
      OneMoreEntry(before, entries, n, path);
      match entry.marker {
        case Revoked =>
          CollectedRevoked(all, seen, candidates', revoked', sawAuthority');
          revoked' := revoked' + [entry.fingerprint];
        case CertAuthority =>
          CollectedAuthority(all, seen, candidates', revoked', sawAuthority');
          sawAuthority' := true;
        case Plain =>
          CollectedPlain(all, seen, candidates', revoked', sawAuthority');
          candidates' := candidates' + [Candidate(entry.fingerprint, entry.algorithm, path)];
      }
    }
    assert entries[..|entries|] == entries;
  }

  /** Fails iff some file could not be searched; otherwise the result is the reference merge. */
  method ScanKnownHosts(files: seq<File>) returns (scan: Option<Scan>)
    ensures scan == match Sightings(files) case None => None case Some(all) => Some(Merged(all))
  {
    var candidates: seq<Candidate>, revoked: seq<string>, sawAuthority := [], [], false;
    ghost var all: seq<Sighting> := [];
    for n := 0 to |files|
      invariant Sightings(files[..n]) == Some(all)
      invariant Collected(all, candidates, revoked, sawAuthority)
    {
      assert files[..n + 1][..n] == files[..n];
      if files[n].entries.Err? {
        SearchFailureIsFinal(files, n + 1);
        return None;
      }
      candidates, revoked, sawAuthority :=
        CollectFile(files[n].path, files[n].entries.value, candidates, revoked, sawAuthority, all);
      all := all + FromFile(files[n].entries.value, files[n].path);
    }
    assert files[..|files|] == files;
    candidates := RetainFirst(candidates);
    var bad;
    revoked, bad := RetainFirstPrints(revoked);
    candidates := RetainUnrevoked(candidates, bad);
    forall f ensures f in bad <==> f in RevokedSet(all) {
      RevokedPrintsSeen(all, f);
      RevokedSetSeen(all, f);
    }
    assert bad == RevokedSet(all);
    PassesMeetReference(all, bad);
    RevokedMeetsReference(all);
    scan := Some(Scan(candidates, revoked, sawAuthority));
  }

  lemma {:induction false} SearchFailureIsFinal(files: seq<File>, n: nat)
    requires n <= |files| && Sightings(files[..n]).None?
    ensures Sightings(files).None?
    decreases |files|
  {
    if n == |files| {
      assert files[..n] == files;
    } else {
      var last := |files| - 1;
      assert files[..last][..n] == files[..n];
      SearchFailureIsFinal(files[..last], n);
    }
  }

  // ---- what the merge promises ----

  /** A fingerprint is offered iff it was seen unmarked and is revoked in no file. */
  lemma {:induction false} OfferedIff(all: seq<Sighting>, bad: set<string>, fingerprint: string)
    ensures fingerprint in Prints(FirstPlain(all, bad)) <==> Seen(all, Plain, fingerprint) && fingerprint !in bad
  {
    if all != [] {
      var n := |all| - 1;
      OfferedIff(all[..n], bad, fingerprint);
      SeenAppend(all, Plain, fingerprint);
      PrintsAppend(FirstPlain(all[..n], bad), AsCandidate(all[n]));
      assert FirstPlain(all[..n], bad) + [] == FirstPlain(all[..n], bad);
    }
  }

  lemma {:induction false} RevokedListedIff(all: seq<Sighting>, fingerprint: string)
    ensures fingerprint in FirstRevoked(all) <==> Seen(all, Revoked, fingerprint)
  {
    if all != [] {
      RevokedListedIff(all[..|all| - 1], fingerprint);
      SeenAppend(all, Revoked, fingerprint);
    }
  }

  lemma {:induction false} NothingListedTwice(all: seq<Sighting>, bad: set<string>)
    ensures forall i, j | 0 <= i < j < |FirstPlain(all, bad)| ::
              FirstPlain(all, bad)[i].fingerprint != FirstPlain(all, bad)[j].fingerprint
    ensures forall i, j | 0 <= i < j < |FirstRevoked(all)| :: FirstRevoked(all)[i] != FirstRevoked(all)[j]
  {
    if all != [] {
      var n := |all| - 1;
      NothingListedTwice(all[..n], bad);
      OfferedIff(all[..n], bad, all[n].entry.fingerprint);
      RevokedListedIff(all[..n], all[n].entry.fingerprint);
    }
  }

  /** No key is both offered and revoked, whatever the order of the files. */
  lemma OfferedAndRevokedAreDisjoint(files: seq<File>, fingerprint: string)
    requires Sightings(files).Some?
    ensures var scan := Merged(Sightings(files).value);
            !(fingerprint in Prints(scan.candidates) && fingerprint in scan.revoked)
  {
    var all := Sightings(files).value;
    OfferedIff(all, RevokedSet(all), fingerprint);
    RevokedListedIff(all, fingerprint);
    RevokedSetSeen(all, fingerprint);
  }

  /** Reordering what is seen changes neither which keys are offered nor which are revoked. */
  lemma OrderDoesNotDecide(all: seq<Sighting>, other: seq<Sighting>, fingerprint: string)
    requires multiset(all) == multiset(other)
    ensures fingerprint in Prints(Merged(all).candidates) <==> fingerprint in Prints(Merged(other).candidates)
    ensures fingerprint in Merged(all).revoked <==> fingerprint in Merged(other).revoked
  {
    SeenAnyOrder(all, other, Plain, fingerprint);
    SeenAnyOrder(all, other, Revoked, fingerprint);
    OfferedIff(all, RevokedSet(all), fingerprint);
    OfferedIff(other, RevokedSet(other), fingerprint);
    RevokedListedIff(all, fingerprint);
    RevokedListedIff(other, fingerprint);
    RevokedSetSeen(all, fingerprint);
    RevokedSetSeen(other, fingerprint);
  }

  lemma SeenAnyOrder(all: seq<Sighting>, other: seq<Sighting>, marker: Marker, fingerprint: string)
    requires multiset(all) == multiset(other)
    ensures Seen(all, marker, fingerprint) <==> Seen(other, marker, fingerprint)
  {
    forall s ensures s in all <==> s in other {
      assert s in all <==> s in multiset(all);
      assert s in other <==> s in multiset(other);
    }
    if Seen(all, marker, fingerprint) {
      var i :| 0 <= i < |all| && all[i].entry.marker == marker && all[i].entry.fingerprint == fingerprint;
      assert all[i] in other;
    }
    if Seen(other, marker, fingerprint) {
      var i :| 0 <= i < |other| && other[i].entry.marker == marker && other[i].entry.fingerprint == fingerprint;
      assert other[i] in all;
    }
  }

  // ---- order and contents ----

  /** Everything in one file is seen, in its order, with the file's path; a file that could not be searched stops it all. */
  lemma {:induction false} FromFileKeepsOrder(entries: seq<Entry>, path: string)
    ensures |FromFile(entries, path)| == |entries|
    ensures forall i | 0 <= i < |entries| ::
              FromFile(entries, path)[i].entry == entries[i] && FromFile(entries, path)[i].source == path
  {
    if entries != [] {
      FromFileKeepsOrder(entries[..|entries| - 1], path);
    }
  }

  lemma OneFileIsSeen(f: File)
    ensures Sightings([f]).None? <==> f.entries.Err?
    ensures f.entries.Ok? ==>
              var seen := Sightings([f]).value;
              |seen| == |f.entries.value|
              && forall i | 0 <= i < |seen| :: seen[i].entry == f.entries.value[i] && seen[i].source == f.path
  {
    assert [f][..0] == [];
    assert Sightings([f][..0]) == Some([]);
    if f.entries.Ok? {
      FromFileKeepsOrder(f.entries.value, f.path);
      assert [] + FromFile(f.entries.value, f.path) == FromFile(f.entries.value, f.path);
    }
  }

  /** Files are seen one after the other. */
  lemma {:induction false} FilesAreSeenInOrder(a: seq<File>, b: seq<File>)
    ensures Sightings(a + b).None? <==> Sightings(a).None? || Sightings(b).None?
    ensures Sightings(a + b).Some? ==> Sightings(a + b).value == Sightings(a).value + Sightings(b).value
    decreases |b|
  {
    if b == [] {
      assert a + b == a;
      if Sightings(a).Some? {
        assert Sightings(a).value + [] == Sightings(a).value;
      }
    } else {
      var n := |b| - 1;
      FilesAreSeenInOrder(a, b[..n]);
      assert (a + b)[..|a + b| - 1] == a + b[..n];
      assert (a + b)[|a + b| - 1] == b[n];
    }
  }

  /** Sighting `i` is unmarked, the first such of its fingerprint, and not revoked. */
  ghost predicate FirstPlainAt(all: seq<Sighting>, bad: set<string>, i: nat) {
    && i < |all| && all[i].entry.marker == Plain && all[i].entry.fingerprint !in bad
    && !Seen(all[..i], Plain, all[i].entry.fingerprint)
  }

  predicate Shows(c: Candidate, all: seq<Sighting>, i: nat) {
    && i < |all| && c.fingerprint == all[i].entry.fingerprint
    && c.algorithm == all[i].entry.algorithm && c.source == all[i].source
  }

  ghost predicate Increasing(at: seq<nat>) {
    forall j, k | 0 <= j < k < |at| :: at[j] < at[k]
  }

  lemma FirstPlainStays(all: seq<Sighting>, bad: set<string>, i: nat)
    requires all != [] && FirstPlainAt(all[..|all| - 1], bad, i)
    ensures i < |all| - 1 && FirstPlainAt(all, bad, i) && all[..|all| - 1][i] == all[i]
  {
    assert all[..|all| - 1][..i] == all[..i];
  }

  /** `cs` shows, in order, the sightings at `at`, each the first unmarked one of its key. */
  ghost predicate Listing(all: seq<Sighting>, bad: set<string>, at: seq<nat>, cs: seq<Candidate>) {
    && |at| == |cs| && Increasing(at)
    && forall j | 0 <= j < |at| :: FirstPlainAt(all, bad, at[j]) && Shows(cs[j], all, at[j])
  }

  lemma ListingStays(all: seq<Sighting>, bad: set<string>, at: seq<nat>, cs: seq<Candidate>)
    requires all != [] && Listing(all[..|all| - 1], bad, at, cs)
    ensures Listing(all, bad, at, cs) && forall j | 0 <= j < |at| :: at[j] < |all| - 1
  {
    forall j | 0 <= j < |at|
      ensures FirstPlainAt(all, bad, at[j]) && Shows(cs[j], all, at[j]) && at[j] < |all| - 1 {
      FirstPlainStays(all, bad, at[j]);
    }
  }

  lemma ListingGrows(all: seq<Sighting>, bad: set<string>, at: seq<nat>, cs: seq<Candidate>)
    requires all != [] && Listing(all, bad, at, cs) && forall j | 0 <= j < |at| :: at[j] < |all| - 1
    requires FirstPlainAt(all, bad, |all| - 1)
    ensures Listing(all, bad, at + [|all| - 1], cs + [AsCandidate(all[|all| - 1])])
  {}

  /**
   The candidates are, in order, the first unmarked sightings of keys revoked
   nowhere, each with the algorithm it was seen with and the file it was seen in.
   */
  lemma {:induction false} CandidatesAreFirstSightings(all: seq<Sighting>, bad: set<string>) returns (at: seq<nat>)
    ensures Listing(all, bad, at, FirstPlain(all, bad))
    decreases |all|
  {
    at := [];
    if all != [] {
      var n := |all| - 1;
      var before := FirstPlain(all[..n], bad);
      at := CandidatesAreFirstSightings(all[..n], bad);
      ListingStays(all, bad, at, before);
      if FirstPlainAt(all, bad, n) {
        ListingGrows(all, bad, at, before);
        at := at + [n];
      } else {
        assert FirstPlain(all, bad) == before + [];
      }
    }
  }

  ghost predicate FirstRevokedAt(all: seq<Sighting>, i: nat) {
    i < |all| && all[i].entry.marker == Revoked && !Seen(all[..i], Revoked, all[i].entry.fingerprint)
  }

  /** The revoked list names, in order, the first revoked sighting of each key. */
  lemma {:induction false} RevokedAreFirstSightings(all: seq<Sighting>) returns (at: seq<nat>)
    ensures |at| == |FirstRevoked(all)| && Increasing(at)
    ensures forall j | 0 <= j < |at| :: FirstRevokedAt(all, at[j]) && FirstRevoked(all)[j] == all[at[j]].entry.fingerprint
    decreases |all|
  {
    at := [];
    if all != [] {
      var n := |all| - 1;
      at := RevokedAreFirstSightings(all[..n]);
      forall j | 0 <= j < |at| ensures FirstRevokedAt(all, at[j]) && at[j] < n && all[at[j]] == all[..n][at[j]] {
        assert FirstRevokedAt(all[..n], at[j]);
        assert all[..n][..at[j]] == all[..at[j]];
      }
      if FirstRevokedAt(all, n) {
        at := at + [n];
      }
    }
  }

  /** The merge as a whole: both lists over the same sightings, and whether an authority was among them. */
  lemma MergeIsOfEverything(all: seq<Sighting>, fingerprint: string)
    ensures fingerprint in Prints(Merged(all).candidates) <==>
            Seen(all, Plain, fingerprint) && !Seen(all, Revoked, fingerprint)
    ensures fingerprint in Merged(all).revoked <==> Seen(all, Revoked, fingerprint)
    ensures Merged(all).sawAuthority <==> exists f :: Seen(all, CertAuthority, f)
  {
    OfferedIff(all, RevokedSet(all), fingerprint);
    RevokedListedIff(all, fingerprint);
    RevokedSetSeen(all, fingerprint);
    if i :| 0 <= i < |all| && all[i].entry.marker == CertAuthority {
      assert Seen(all, CertAuthority, all[i].entry.fingerprint);
    }
  }
}
