/**
 Generation-guarded debounce timers (attention.rs: `schedule_generation`,
 `take_pending_flush`, the generation bumps of `set_scope`).

 A debouncer owns a generation and a "timer outstanding" flag. Scheduling hands
 the caller a generation to sleep on; a scope change bumps the generation, so a
 timer that is still asleep turns stale. Generations are unbounded here.
 */
module Debounce {
  import opened Basics

  datatype Debouncer = Debouncer(generation: nat, scheduled: bool)

  /** The generation a caller must start a timer for, if any. */
  function Token(d: Debouncer, wanted: bool): Option<nat> {
    if !wanted || d.scheduled then None else Some(d.generation)
  }

  function Schedule(d: Debouncer, wanted: bool): Debouncer {
    if !wanted || d.scheduled then d else d.(scheduled := true)
  }

  /** A scope change invalidates whatever timer is outstanding. */
  function Reset(d: Debouncer): Debouncer {
    Debouncer(d.generation + 1, false)
  }

  /** Does a timer that slept on `generation` still speak for this debouncer? */
  predicate Current(d: Debouncer, generation: nat) {
    generation == d.generation
  }

  function Fire(d: Debouncer, generation: nat): Debouncer {
    if Current(d, generation) then d.(scheduled := false) else d
  }

  function Started(timers: multiset<nat>, token: Option<nat>): multiset<nat> {
    match token
    case None => timers
    case Some(g) => timers + multiset{g}
  }

  /**
   The debounce invariant over the timers outstanding in the runtime: exactly one
   of them carries the current generation when the flag is up and none does when
   it is down, none carries a future generation, and waiting work implies that a
   timer is on its way.
   */
  ghost predicate Sound(d: Debouncer, timers: multiset<nat>, waiting: bool) {
    && timers[d.generation] == (if d.scheduled then 1 else 0)
    && (forall g <- timers :: g <= d.generation)
    && (waiting ==> d.scheduled)
  }

  lemma ScheduleKeepsSound(d: Debouncer, timers: multiset<nat>, waiting: bool, wanted: bool)
    requires Sound(d, timers, waiting)
    ensures Sound(Schedule(d, wanted), Started(timers, Token(d, wanted)), waiting || wanted)
  {}

  lemma ResetKeepsSound(d: Debouncer, timers: multiset<nat>, waiting: bool)
    requires Sound(d, timers, waiting)
    ensures Sound(Reset(d), timers, false)
  {}

  lemma FireKeepsSound(d: Debouncer, timers: multiset<nat>, waiting: bool, generation: nat)
    requires Sound(d, timers, waiting)
    requires generation in timers
    ensures Sound(Fire(d, generation), timers - multiset{generation}, waiting && !Current(d, generation))
    ensures Current(d, generation) ==> d.scheduled
  {}
}
