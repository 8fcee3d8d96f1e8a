/**
 Clipboard hygiene (clipboard.rs: `copy_with_hygiene`, `clear_digest_if_unchanged`,
 `clear_pending`, `ExitCleanupState`, `defer_exit_cleanup`).

 Copies, clear timers, other applications and the shutdown race for one clipboard.
 The program remembers only a digest and a generation of its last copy; a clear
 holds the lock from its comparison to its erasure, but no lock keeps other
 applications out, so reading and erasing are two steps here.
 */
module Clipboard {
  import opened Basics

  type Digest = string -> string

  ghost predicate Injective(digest: Digest) {
    forall a, b :: digest(a) == digest(b) ==> a == b
  }

  datatype Token = Token(digest: string, generation: nat)

  datatype Copied = Copied(text: string, generation: nat)

  function TokenOf(digest: Digest, c: Copied): Token {
    Token(digest(c.text), c.generation)
  }

  /** A clear between its read and its erasure, holding the lock. */
  datatype Clearing = Clearing(expected: Token, current: Option<string>, forExit: bool)

  /** The shutdown worker: not running, about to look, about to clear, about to report. */
  datatype Cleanup = Idle | Looking | Expecting(token: Token) | Reporting

  datatype ExitAction = Proceed | Start | Wait

  datatype World = World(
    screen: Option<string>,        // the text on the clipboard
    pending: Option<Token>,
    nextGeneration: nat,
    copies: map<nat, string>,      // copies that drew a generation but have not written yet
    timers: set<Token>,            // clear timers asleep
    lock: Option<Clearing>,
    started: bool,
    finished: bool,
    exitLook: Option<bool>,        // an exit request that has looked for a pending copy but not yet decided
    cleanup: Cleanup,
    latest: Option<Copied>,        // the last copy written, in lock order
    intact: bool,                  // it is on the clipboard and nobody wrote since
    foreign: Option<Option<string>>,   // what another application wrote last since the clear in progress read
    cleanupsStarted: nat)

  datatype Event =
    | CopyBegins(text: string)
    | CopyWrites(generation: nat)
    | CopyFails(generation: nat, wiped: bool)   // a failed write may still have emptied the clipboard
    | OtherWrites(content: Option<string>)
    | TimerClears(token: Token, readable: bool)
    | CleanupClears(readable: bool)
    | Erases(writable: bool)
    | ExitLooks
    | ExitDecides
    | CleanupLooks
    | CleanupReports

  predicate Enabled(w: World, e: Event) {
    match e
    case CopyBegins(_) => true
    case CopyWrites(g) => g in w.copies && w.lock.None?
    case CopyFails(g, _) => g in w.copies && w.lock.None?
    case OtherWrites(_) => true
    case TimerClears(t, _) => t in w.timers && w.lock.None?
    case CleanupClears(_) => w.cleanup.Expecting? && w.lock.None?
    case Erases(_) => w.lock.Some?
    case ExitLooks => w.exitLook.None? && w.lock.None?
    case ExitDecides => w.exitLook.Some?
    case CleanupLooks => w.cleanup.Looking? && w.lock.None?
    case CleanupReports => w.cleanup.Reporting?
  }

  /** Comparing: a token that is no longer the pending one, or an unreadable clipboard, ends the clear. */
  function BeginClear(w: World, token: Token, readable: bool, forExit: bool): World {
    var done := if forExit then w.(cleanup := Reporting) else w;
    if w.pending != Some(token) || !readable then done
    else w.(lock := Some(Clearing(token, w.screen, forExit)), foreign := None)
  }

  predicate StillMatches(digest: Digest, c: Clearing) {
    c.current.Some? && digest(c.current.value) == c.expected.digest
  }

  function FinishClear(digest: Digest, w: World, writable: bool): World
    requires w.lock.Some?
  {
    var c := w.lock.value;
    var done := w.(lock := None, cleanup := if c.forExit then Reporting else w.cleanup);
    if !StillMatches(digest, c) then done.(pending := None)
    else if !writable then done
    else done.(screen := None, pending := None, intact := false)
  }

  function Action(hadPending: bool, started: bool, finished: bool): ExitAction {
    if !hadPending || finished then Proceed else if started then Wait else Start
  }

  function Step(digest: Digest, w: World, e: Event): World
    requires Enabled(w, e)
  {
    match e
    case CopyBegins(text) =>
      w.(copies := w.copies[w.nextGeneration := text], nextGeneration := w.nextGeneration + 1)
    case CopyWrites(g) =>
      var c := Copied(w.copies[g], g);
      w.(screen := Some(c.text), pending := Some(TokenOf(digest, c)), copies := w.copies - {g},
         timers := w.timers + {TokenOf(digest, c)}, latest := Some(c), intact := true)
    case CopyFails(g, wiped) =>
      w.(copies := w.copies - {g}, screen := if wiped then None else w.screen, intact := w.intact && !wiped)
    case OtherWrites(content) => w.(screen := content, intact := false, foreign := Some(content))
    case TimerClears(t, readable) => BeginClear(w.(timers := w.timers - {t}), t, readable, false)
    case CleanupClears(readable) => BeginClear(w, w.cleanup.token, readable, true)
    case Erases(writable) => FinishClear(digest, w, writable)
    case ExitLooks => w.(exitLook := Some(w.pending.Some?))
    case ExitDecides =>
      var v := w.(exitLook := None);
      if Action(w.exitLook.value, w.started, w.finished) == Start
      then v.(started := true, cleanup := Looking, cleanupsStarted := w.cleanupsStarted + 1) else v
    case CleanupLooks => w.(cleanup := if w.pending.Some? then Expecting(w.pending.value) else Reporting)
    case CleanupReports => w.(cleanup := Idle, finished := true)
  }

  // ---- the invariant ----

  /** The pending token is always that of the latest copy; an untouched copy is still pending. */
  ghost predicate TokensSound(digest: Digest, w: World) {
    && (w.pending.Some? ==> w.latest.Some? && w.pending.value == TokenOf(digest, w.latest.value))
    && (w.intact ==>
          && w.latest.Some? && w.screen == Some(w.latest.value.text)
          && w.pending == Some(TokenOf(digest, w.latest.value)))
  }

  ghost predicate LockSound(w: World) {
    w.lock.Some? ==>
      && w.pending == Some(w.lock.value.expected)
      && w.screen == (if w.foreign.Some? then w.foreign.value else w.lock.value.current)
      && (w.foreign.Some? ==> !w.intact)
      && (w.lock.value.forExit ==> w.cleanup.Expecting?)
  }

  ghost predicate ExitSound(w: World) {
    && w.cleanupsStarted == (if w.started then 1 else 0)
    && (w.started <==> w.cleanup != Idle || w.finished)
    && !(w.cleanup != Idle && w.finished)
  }

  /** Generations are drawn once, and a timer of the latest generation carries the latest token. */
  ghost predicate GenerationsSound(digest: Digest, w: World) {
    && (w.latest.Some? ==> w.latest.value.generation < w.nextGeneration && w.latest.value.generation !in w.copies)
    && (forall g <- w.copies :: g < w.nextGeneration)
    && (forall t <- w.timers :: t.generation < w.nextGeneration && t.generation !in w.copies)
    && (forall t <- w.timers :: w.latest.Some? && t.generation == w.latest.value.generation ==>
          t == TokenOf(digest, w.latest.value))
  }

  ghost predicate Inv(digest: Digest, w: World) {
    TokensSound(digest, w) && LockSound(w) && ExitSound(w) && GenerationsSound(digest, w)
  }

  ghost predicate Initial(w: World) {
    && w.pending.None? && w.nextGeneration == 1 && w.copies == map[] && w.timers == {} && w.lock.None?
    && !w.started && !w.finished && w.exitLook.None? && w.cleanup == Idle && w.latest.None? && !w.intact && w.cleanupsStarted == 0
  }

  ghost predicate Held(digest: Digest, w: World) {
    TokensSound(digest, w) && LockSound(w)
  }

  lemma WritingKeepsTokens(digest: Digest, w: World, e: Event)
    requires Held(digest, w) && Enabled(w, e)
    requires e.CopyBegins? || e.CopyWrites? || e.CopyFails? || e.OtherWrites?
    ensures Held(digest, Step(digest, w, e))
  {}

  /** Taking the lock for a clear, or not. */
  lemma BeginClearKeepsTokens(digest: Digest, w: World, token: Token, readable: bool, forExit: bool)
    requires Held(digest, w) && w.lock.None? && (forExit ==> w.cleanup.Expecting?)
    ensures Held(digest, BeginClear(w, token, readable, forExit))
  {}

  lemma FinishClearKeepsTokens(digest: Digest, w: World, writable: bool)
    requires Held(digest, w) && w.lock.Some?
    ensures Held(digest, FinishClear(digest, w, writable))
  {}

  lemma ExitKeepsTokens(digest: Digest, w: World, e: Event)
    requires Held(digest, w) && ExitSound(w) && Enabled(w, e)
    requires e.ExitLooks? || e.ExitDecides? || e.CleanupLooks? || e.CleanupReports?
    ensures Held(digest, Step(digest, w, e))
  {}

  lemma StepKeepsTokens(digest: Digest, w: World, e: Event)
    requires Held(digest, w) && ExitSound(w) && Enabled(w, e)
    ensures Held(digest, Step(digest, w, e))
  {
    match e
    case TimerClears(t, readable) => BeginClearKeepsTokens(digest, w.(timers := w.timers - {t}), t, readable, false);
    case CleanupClears(readable) => BeginClearKeepsTokens(digest, w, w.cleanup.token, readable, true);
    case Erases(writable) => FinishClearKeepsTokens(digest, w, writable);
    case CopyBegins(_) => WritingKeepsTokens(digest, w, e);
    case CopyWrites(_) => WritingKeepsTokens(digest, w, e);
    case CopyFails(_, _) => WritingKeepsTokens(digest, w, e);
    case OtherWrites(_) => WritingKeepsTokens(digest, w, e);
    case _ => ExitKeepsTokens(digest, w, e);
  }

  lemma StepKeepsExit(digest: Digest, w: World, e: Event)
    requires ExitSound(w) && LockSound(w) && Enabled(w, e)
    ensures ExitSound(Step(digest, w, e))
  {}

  lemma StepKeepsGenerations(digest: Digest, w: World, e: Event)
    requires GenerationsSound(digest, w) && Enabled(w, e)
    ensures GenerationsSound(digest, Step(digest, w, e))
  {
    if !e.CopyBegins? && !e.CopyWrites? {
      QuietForGenerations(digest, w, e);
    }
  }

  lemma QuietForGenerations(digest: Digest, w: World, e: Event)
    requires Enabled(w, e) && !e.CopyBegins? && !e.CopyWrites?
    ensures var w' := Step(digest, w, e);
            && w'.latest == w.latest && w'.nextGeneration == w.nextGeneration
            && w'.copies.Keys <= w.copies.Keys && w'.timers <= w.timers
  {
    match e
    case CopyFails(_, _) =>
    case OtherWrites(_) =>
    case TimerClears(t, readable) =>
      var v := w.(timers := w.timers - {t});
      assert BeginClear(v, t, readable, false).timers == v.timers;
    case CleanupClears(_) =>
    case Erases(_) =>
    case ExitLooks =>
    case ExitDecides =>
    case CleanupLooks =>
    case CleanupReports =>
  }

  lemma StepKeepsInv(digest: Digest, w: World, e: Event)
    requires Inv(digest, w) && Enabled(w, e)
    ensures Inv(digest, Step(digest, w, e))
  {
    StepKeepsTokens(digest, w, e);
    StepKeepsExit(digest, w, e);
    StepKeepsGenerations(digest, w, e);
  }

  ghost predicate Runs(digest: Digest, w: World, es: Trace<Event>)
    decreases es
  {
    es.Then? ==> Enabled(w, es.head) && Runs(digest, Step(digest, w, es.head), es.tail)
  }

  ghost function Run(digest: Digest, w: World, es: Trace<Event>): World
    requires Runs(digest, w, es)
    decreases es
  {
    if es.Done? then w else Run(digest, Step(digest, w, es.head), es.tail)
  }

  lemma {:induction false} RunKeepsInv(digest: Digest, w: World, es: Trace<Event>)
    requires Inv(digest, w) && Runs(digest, w, es)
    ensures Inv(digest, Run(digest, w, es))
    decreases es
  {
    if es.Then? {
      StepKeepsInv(digest, w, es.head);
      RunKeepsInv(digest, Step(digest, w, es.head), es.tail);
    }
  }

  ghost predicate Reachable(digest: Digest, v: World) {
    exists w, es :: Initial(w) && Runs(digest, w, es) && Run(digest, w, es) == v
  }

  lemma ReachableIsSound(digest: Digest, v: World)
    requires Reachable(digest, v)
    ensures Inv(digest, v)
  {
    var w, es :| Initial(w) && Runs(digest, w, es) && Run(digest, w, es) == v;
    RunKeepsInv(digest, w, es);
  }

  // ---- what it means ----

  /** Did finishing the clear in progress just erase something? */
  predicate ErasesNow(digest: Digest, w: World, e: Event) {
    e.Erases? && e.writable && w.lock.Some? && StillMatches(digest, w.lock.value)
  }

  /**
   What a clear erases is the text of the latest copy if and only if no other
   application wrote since the clear read, or the last one to do so wrote that same
   text again. Otherwise it is what that application wrote.
   */
  lemma ClearErasesOnlyTheLatestCopy(digest: Digest, v: World)
    requires Injective(digest) && Reachable(digest, v)
    requires ErasesNow(digest, v, Erases(true))
    ensures v.latest.Some?
    ensures v.screen == Some(v.latest.value.text) <==>
            v.foreign.None? || v.foreign == Some(Some(v.latest.value.text))
    ensures v.foreign.Some? ==> v.screen == v.foreign.value
  {
    ReachableIsSound(digest, v);
    assert v.lock.value.current == Some(v.latest.value.text);
  }

  ghost predicate StillClearing(es: Trace<Event>)
    decreases es
  {
    es.Then? ==> !es.head.Erases? && StillClearing(es.tail)
  }

  function LastForeign(es: Trace<Event>, before: Option<Option<string>>): Option<Option<string>> {
    match es
    case Done => before
    case Then(e, rest) => LastForeign(rest, if e.OtherWrites? then Some(e.content) else before)
  }

  /** As long as a clear is in progress, the book says what other applications did in the run since. */
  lemma {:induction false} ForeignIsTheLastWrite(digest: Digest, w: World, es: Trace<Event>)
    requires w.lock.Some? && Runs(digest, w, es) && StillClearing(es)
    ensures Run(digest, w, es).foreign == LastForeign(es, w.foreign) && Run(digest, w, es).lock == w.lock
    decreases es
  {
    if es.Then? {
      ForeignIsTheLastWrite(digest, Step(digest, w, es.head), es.tail);
    }
  }

  /** Nothing but a finished clear, a write or a failing write ever changes the clipboard. */
  lemma OnlyMatchingClearsErase(digest: Digest, w: World, e: Event)
    requires Enabled(w, e) && Step(digest, w, e).screen != w.screen
    ensures ErasesNow(digest, w, e) || e.CopyWrites? || e.CopyFails? || e.OtherWrites?
  {}

  /**
   Such writes do get lost: whatever another application puts there in that gap
   is erased in the copy's place.
   */
  lemma GapErasesForeignText(digest: Digest, w: World, text: string, foreign: string) returns (es: Trace<Event>)
    requires Initial(w)
    ensures Runs(digest, w, es)
    ensures ErasesNow(digest, Run(digest, w, es), Erases(true)) && Run(digest, w, es).screen == Some(foreign)
  {
    var w1 := Step(digest, w, CopyBegins(text));
    var w2 := Step(digest, w1, CopyWrites(1));
    var token := TokenOf(digest, Copied(text, 1));
    var w3 := Step(digest, w2, TimerClears(token, true));
    var w4 := Step(digest, w3, OtherWrites(Some(foreign)));
    var e3 := Then(OtherWrites(Some(foreign)), Done);
    var e2 := Then(TimerClears(token, true), e3);
    var e1 := Then(CopyWrites(1), e2);
    es := Then(CopyBegins(text), e1);
    assert Runs(digest, w4, e3.tail) && Run(digest, w4, e3.tail) == w4;
    assert Runs(digest, w3, e3) && Run(digest, w3, e3) == w4;
    assert Runs(digest, w2, e2) && Run(digest, w2, e2) == w4;
    assert Runs(digest, w1, e1) && Run(digest, w1, e1) == w4;
    assert Runs(digest, w, es) && Run(digest, w, es) == w4;
  }

  /** The timer of an earlier copy does nothing, even if the later copy has the same text. */
  lemma EarlierTimerIsHarmless(digest: Digest, v: World, token: Token, readable: bool)
    requires Reachable(digest, v) && Enabled(v, TimerClears(token, readable))
    requires v.latest.Some? && token.generation != v.latest.value.generation
    ensures Step(digest, v, TimerClears(token, readable)) == v.(timers := v.timers - {token})
  {
    ReachableIsSound(digest, v);
  }

  /** A copy still in place when its own timer runs, with a working platform, is erased. */
  lemma OwnTimerErases(digest: Digest, v: World)
    requires Reachable(digest, v) && v.intact && v.lock.None?
    requires v.latest.Some? && TokenOf(digest, v.latest.value) in v.timers
    ensures var u := Step(digest, v, TimerClears(TokenOf(digest, v.latest.value), true));
            && Enabled(u, Erases(true)) && ErasesNow(digest, u, Erases(true))
            && Step(digest, u, Erases(true)).screen == None && Step(digest, u, Erases(true)).pending == None
  {
    ReachableIsSound(digest, v);
  }

  /**
   Shutdown cleanup starts at most once. A request that found a copy pending starts
   it if none was started, waits while it runs, and lets the app exit only once it
   has ended; a request that found none lets the app exit at once.
   */
  lemma CleanupStartsOnce(digest: Digest, v: World)
    requires Reachable(digest, v)
    ensures v.cleanupsStarted <= 1
    ensures v.finished <==> v.cleanupsStarted == 1 && v.cleanup == Idle
    ensures v.exitLook.Some? ==>
              match Action(v.exitLook.value, v.started, v.finished)
              case Start => v.exitLook.value && v.cleanupsStarted == 0
              case Wait => v.exitLook.value && v.cleanupsStarted == 1 && v.cleanup != Idle
              case Proceed => !v.exitLook.value || (v.cleanupsStarted == 1 && v.cleanup == Idle)
  {
    ReachableIsSound(digest, v);
  }

  /** The decision carried out: the cleanup begins exactly when it is the first to find a copy pending. */
  lemma CleanupBeginsIff(digest: Digest, v: World)
    requires Reachable(digest, v) && Enabled(v, ExitDecides)
    ensures var u := Step(digest, v, ExitDecides);
            if v.exitLook.value && v.cleanupsStarted == 0
            then u.cleanup == Looking && u.cleanupsStarted == 1
            else u == v.(exitLook := None)
  {
    ReachableIsSound(digest, v);
  }

  /** A clear that cannot read, or finds the text but cannot erase it, leaves the copy to be cleared later. */
  lemma FailedClearKeepsToken(digest: Digest, v: World, token: Token)
    requires Reachable(digest, v)
    ensures Enabled(v, TimerClears(token, false)) ==>
              Step(digest, v, TimerClears(token, false)) == v.(timers := v.timers - {token})
    ensures v.lock.Some? && v.lock.value.current.Some? && digest(v.lock.value.current.value) == v.lock.value.expected.digest ==>
              var u := Step(digest, v, Erases(false));
              u.pending == v.pending && u.pending.Some? && u.screen == v.screen && u.lock.None?
  {
    ReachableIsSound(digest, v);
  }

  /** A clear that finds anything else on the clipboard leaves it alone and forgets the copy. */
  lemma MismatchLeavesClipboard(digest: Digest, v: World, writable: bool)
    requires v.lock.Some?
    requires v.lock.value.current.None? || digest(v.lock.value.current.value) != v.lock.value.expected.digest
    ensures var u := Step(digest, v, Erases(writable));
            u.screen == v.screen && u.pending.None? && u.lock.None?
  {}

  /** A copy that fails is not remembered, and the one before it is not forgotten. */
  lemma FailedCopyChangesNothing(digest: Digest, v: World, generation: nat, wiped: bool)
    requires Enabled(v, CopyFails(generation, wiped))
    ensures var u := Step(digest, v, CopyFails(generation, wiped));
            && u.pending == v.pending && u.timers == v.timers && u.latest == v.latest
            && u.screen == (if wiped then None else v.screen)
  {}

  /** The shutdown worker erases a copy that is in place when it looks, if nothing interferes and the platform works. */
  lemma CleanupErases(digest: Digest, v: World)
    requires Reachable(digest, v) && v.intact && v.lock.None? && v.cleanup == Looking
    ensures var u := Step(digest, v, CleanupLooks);
            Enabled(u, CleanupClears(true)) &&
            var t := Step(digest, u, CleanupClears(true));
            Enabled(t, Erases(true)) &&
            Step(digest, t, Erases(true)) == v.(screen := None, pending := None, intact := false, foreign := None, cleanup := Reporting)
  {
    ReachableIsSound(digest, v);
  }
}
