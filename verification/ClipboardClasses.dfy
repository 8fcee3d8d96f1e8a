/**
 The clipboard guard in place (clipboard.rs): the pending token, the generation
 counter and the two exit flags as mutable state, beside the platform clipboard.
 */
module ClipboardClasses {
  import opened Basics
  import C = Clipboard

  /** What the program itself keeps, and the clipboard it works on. */
  datatype Core = Core(
    screen: Option<string>, pending: Option<C.Token>, nextGeneration: nat, started: bool, finished: bool)

  function CoreOf(w: C.World): Core {
    Core(w.screen, w.pending, w.nextGeneration, w.started, w.finished)
  }

  /** A whole clear without interference: compare, erase on a match, forget the token. */
  function Cleared(digest: C.Digest, c: Core, expected: C.Token, readable: bool, writable: bool): Core {
    if c.pending != Some(expected) || !readable then c
    else if c.screen.None? || digest(c.screen.value) != expected.digest then c.(pending := None)
    else if !writable then c
    else c.(screen := None, pending := None)
  }

  /** The uninterrupted clear is the two steps of the interleaved model, one after the other. */
  lemma ClearedIsCompareThenErase(digest: C.Digest, w: C.World, token: C.Token, readable: bool, writable: bool)
    requires C.Enabled(w, C.TimerClears(token, readable))
    ensures var v := C.Step(digest, w, C.TimerClears(token, readable));
            var c := if v.lock.Some? then C.Step(digest, v, C.Erases(writable)) else v;
            CoreOf(c) == Cleared(digest, CoreOf(w), token, readable, writable)
  {
    var v := w.(timers := w.timers - {token});
    assert C.Step(digest, w, C.TimerClears(token, readable)) == C.BeginClear(v, token, readable, false);
  }

  class ClipboardGuard {
    const digest: C.Digest
    var screen: Option<string>
    var pending: Option<C.Token>
    var nextGeneration: nat
    var started: bool
    var finished: bool

    function View(): Core
      reads this
    {
      Core(screen, pending, nextGeneration, started, finished)
    }

    constructor (digest: C.Digest, found: Option<string>)
      ensures this.digest == digest && View() == Core(found, None, 1, false, false)
    {
      this.digest := digest;
      screen, pending, nextGeneration, started, finished := found, None, 1, false, false;
    }

    method DrawGeneration() returns (generation: nat)
      modifies this`nextGeneration
      ensures View() == old(View()).(nextGeneration := old(nextGeneration) + 1) && generation == old(nextGeneration)
    {
      generation := nextGeneration;
      nextGeneration := nextGeneration + 1;
    }

    /** The locked part of a copy: write, then remember digest and generation. */
    method WriteCopy(copy: C.Copied, writes: bool, wipes: bool) returns (timer: Option<C.Token>)
      modifies this`screen, this`pending
      ensures writes ==> View() == old(View()).(screen := Some(copy.text), pending := Some(C.TokenOf(digest, copy)))
                         && timer == pending
      ensures !writes ==> View() == old(View()).(screen := if wipes then None else old(screen)) && timer == None
    {
      var expected := C.Token(digest(copy.text), copy.generation);
      if !writes {
        if wipes {
          screen := None;
        }
        return None;
      }
      screen := Some(copy.text);
      pending := Some(expected);
      return Some(expected);
    }

    method ClearDigestIfUnchanged(expected: C.Token, readable: bool, writable: bool) returns (ok: bool)
      modifies this`screen, this`pending
      ensures View() == Cleared(digest, old(View()), expected, readable, writable)
      ensures ok ==> pending != Some(expected)
    {
      if pending != Some(expected) {
        return true;
      }
      if !readable {
        return false;
      }
      var current := screen;
      var stillMatches := current.Some? && digest(current.value) == expected.digest;
      if stillMatches {
        if !writable {
          return false;
        }
        screen := None;
      }
      pending := None;
      return true;
    }

    /** `ExitCleanupState::action`: the first caller with something pending starts the cleanup. */
    method ExitAction(hasPending: bool) returns (action: C.ExitAction)
      modifies this`started
      ensures action == C.Action(hasPending, old(started), finished)
      ensures View() == old(View()).(started := old(started) || action == C.Start)
    {
      if !hasPending || finished {
        return C.Proceed;
      }
      var was := started;
      started := true;
      action := if was then C.Wait else C.Start;
    }

    method FinishCleanup()
      modifies this`finished
      ensures View() == old(View()).(finished := true)
    {
      finished := true;
    }
  }
}
