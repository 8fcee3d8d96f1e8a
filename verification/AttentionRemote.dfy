/**
 The attention coordinator following remote brokers (attention.rs:
 `begin_remote_refresh`, `reconcile_remote`, `set_scope`; broker_mode.rs: the reads
 of `arm_sse`).

 `AttentionRuns` lets snapshots say anything, and `RemoteRefresh` knows only their
 versions. Here the two run in step: brokers hold queues that depend on how far
 they have come, reads carry what the broker held when it answered, and the
 coordinator's own events interleave freely.
 */
module AttentionRemote {
  import opened Basics
  import A = Attention
  import C = AttentionRuns
  import R = RemoteRefresh

  datatype Queues = Queues(approvals: A.Requests, elicitations: A.Requests)

  /** What each broker holds at each point of its history. */
  type Holdings = (nat, R.Pos) -> Queues

  ghost predicate Keyed(held: Holdings) {
    forall b, p :: C.KeyedById(held(b, p).approvals) && C.KeyedById(held(b, p).elicitations)
  }

  /** `undisturbed`: since the last scope change the queues were only ever set from snapshots. */
  datatype World = World(coordinator: C.World, remote: R.World, undisturbed: bool)

  datatype Event =
    | Own(event: C.Event)              // anything but reads and scope changes
    | Scope(scope: string)
    | Outside(move: R.Event)           // a broker moves on, a read is answered or lost
    | Begin(broker: nat)
    | Deliver(generation: nat)
    | Garbled(generation: nat)         // a read whose version does not parse

  ghost predicate Enabled(w: World, e: Event) {
    match e
    case Own(o) => C.Enabled(w.coordinator, o) && !o.RefreshBegun? && !o.SnapshotRead? && !o.ScopeSet?
    case Scope(_) => true
    case Outside(o) => R.Enabled(w.remote, o) && (o.Advance? || o.Restart? || o.Answer? || o.Lose?)
    case Begin(b) => R.Enabled(w.remote, R.BeginRead(b))
    case Deliver(g) => R.Enabled(w.remote, R.Deliver(g))
    case Garbled(g) => R.Enabled(w.remote, R.Lose(g))
  }

  /** The local callbacks, which set the queues without a snapshot. */
  predicate Disturbs(e: C.Event) {
    e.Requested? || e.Resolved? || e.Elicited? || e.ElicitationResolved? || e.Reseeded?
  }

  ghost function Brought(held: Holdings, w: World, g: nat): Queues
    requires Enabled(w, Deliver(g))
  {
    held(w.remote.inFlight[g].broker, w.remote.inFlight[g].answer.value)
  }

  ghost function CoordinatorEvent(held: Holdings, w: World, e: Event): Option<C.Event>
    requires Enabled(w, e)
  {
    match e
    case Own(o) => Some(o)
    case Scope(s) => Some(C.ScopeSet(s))
    case Outside(_) => None
    case Begin(_) => Some(C.RefreshBegun)
    case Deliver(g) =>
      var q := Brought(held, w, g);
      Some(C.SnapshotRead(g, Some(R.AnswerOf(w.remote, g)), q.approvals, q.elicitations))
    case Garbled(g) => Some(C.SnapshotRead(g, None, map[], map[]))
  }

  ghost function RemoteEvent(w: World, e: Event): Option<R.Event> {
    match e
    case Own(_) => None
    case Scope(s) => if s != w.coordinator.inner.tracker.scope then Some(R.ScopeChange) else None
    case Outside(o) => Some(o)
    case Begin(b) => Some(R.BeginRead(b))
    case Deliver(g) => Some(R.Deliver(g))
    case Garbled(g) => Some(R.Lose(g))
  }

  ghost function Step(held: Holdings, w: World, e: Event): World
    requires Keyed(held) && Enabled(w, e)
  {
    var c, r := CoordinatorEvent(held, w, e), RemoteEvent(w, e);
    World(if c.Some? then C.Step(w.coordinator, c.value) else w.coordinator,
          if r.Some? then R.Step(w.remote, r.value) else w.remote,
          if e.Own? then w.undisturbed && !Disturbs(e.event)
          else w.undisturbed || r == Some(R.ScopeChange))
  }

  // ---- the two stay in step ----

  ghost predicate InStep(w: World) {
    w.coordinator.inner.refresh == w.remote.refresh
  }

  /** Nothing applied yet means empty queues; otherwise they are what the newest applied snapshot brought. */
  ghost function Expected(held: Holdings, log: seq<R.Applied>): Queues {
    if log == [] then Queues(map[], map[]) else held(log[|log| - 1].broker, log[|log| - 1].pos)
  }

  ghost function QueuesOf(w: World): Queues {
    Queues(w.coordinator.inner.tracker.active, w.coordinator.inner.elicitations)
  }

  ghost predicate Mirrors(held: Holdings, w: World) {
    w.undisturbed ==> QueuesOf(w) == Expected(held, w.remote.log)
  }

  ghost predicate Inv(held: Holdings, w: World) {
    C.Inv(w.coordinator) && R.Inv(w.remote) && InStep(w) && Mirrors(held, w)
  }

  lemma DeliverKeepsInStep(held: Holdings, w: World, g: nat)
    requires Keyed(held) && Enabled(w, Deliver(g)) && InStep(w)
    ensures InStep(Step(held, w, Deliver(g)))
  {}

  lemma ScopeKeepsInStep(held: Holdings, w: World, scope: string)
    requires Keyed(held) && InStep(w)
    ensures InStep(Step(held, w, Scope(scope)))
  {}

  lemma StepKeepsInStep(held: Holdings, w: World, e: Event)
    requires Keyed(held) && Enabled(w, e) && InStep(w)
    ensures InStep(Step(held, w, e))
  {
    if e.Deliver? {
      DeliverKeepsInStep(held, w, e.generation);
    } else if e.Scope? {
      ScopeKeepsInStep(held, w, e.scope);
    } else if e.Own? {
      C.RefreshFollowsProtocol(w.coordinator, e.event);
    } else if e.Garbled? {
      C.RefreshFollowsProtocol(w.coordinator, C.SnapshotRead(e.generation, None, map[], map[]));
    }
  }

  /** The coordinator applies a snapshot exactly when the protocol logs it, and then holds what it brought. */
  lemma DeliveryIsAgreed(held: Holdings, w: World, g: nat)
    requires Keyed(held) && Enabled(w, Deliver(g)) && InStep(w)
    ensures var w' := Step(held, w, Deliver(g));
            if R.Accepts(w.remote.refresh, g, R.AnswerOf(w.remote, g))
            then QueuesOf(w') == Brought(held, w, g) == Expected(held, w'.remote.log)
            else QueuesOf(w') == QueuesOf(w) && w'.remote.log == w.remote.log
  {}

  lemma OwnStepsKeepQueues(w: C.World, e: C.Event)
    requires C.Enabled(w, e) && !Disturbs(e) && !e.SnapshotRead? && !e.ScopeSet?
    ensures C.InnerStep(w, e).tracker.active == w.inner.tracker.active
    ensures C.InnerStep(w, e).elicitations == w.inner.elicitations
  {}

  /** A scope change empties the queues and the log together. */
  lemma ScopeIsAgreed(held: Holdings, w: World, scope: string)
    requires Keyed(held)
    ensures var w' := Step(held, w, Scope(scope));
            if scope != w.coordinator.inner.tracker.scope
            then QueuesOf(w') == Queues(map[], map[]) && w'.remote.log == [] && w'.undisturbed
            else QueuesOf(w') == QueuesOf(w) && w'.remote == w.remote && w'.undisturbed == w.undisturbed
  {}

  predicate SetsQueues(e: Event) {
    e.Scope? || e.Deliver? || (e.Own? && Disturbs(e.event))
  }

  lemma OtherStepsAreQuiet(held: Holdings, w: World, e: Event)
    requires Keyed(held) && Enabled(w, e) && !SetsQueues(e)
    ensures var w' := Step(held, w, e);
            QueuesOf(w') == QueuesOf(w) && w'.remote.log == w.remote.log && w'.undisturbed == w.undisturbed
  {
    if e.Own? {
      OwnStepsKeepQueues(w.coordinator, e.event);
    } else if e.Begin? {
      OwnStepsKeepQueues(w.coordinator, C.RefreshBegun);
    } else if e.Garbled? {
      C.RefreshFollowsProtocol(w.coordinator, C.SnapshotRead(e.generation, None, map[], map[]));
    }
  }

  lemma StepKeepsMirror(held: Holdings, w: World, e: Event)
    requires Keyed(held) && Enabled(w, e) && InStep(w) && Mirrors(held, w)
    ensures Mirrors(held, Step(held, w, e))
  {
    if e.Scope? {
      ScopeIsAgreed(held, w, e.scope);
    } else if e.Deliver? {
      DeliveryIsAgreed(held, w, e.generation);
    } else if !SetsQueues(e) {
      OtherStepsAreQuiet(held, w, e);
    }
  }

  lemma CoordinatorKeepsInv(held: Holdings, w: World, e: Event)
    requires Keyed(held) && Enabled(w, e) && C.Inv(w.coordinator)
    ensures C.Inv(Step(held, w, e).coordinator)
  {
    var c := CoordinatorEvent(held, w, e);
    if c.Some? {
      C.StepKeepsInv(w.coordinator, c.value);
    }
  }

  lemma RemoteKeepsInv(held: Holdings, w: World, e: Event)
    requires Keyed(held) && Enabled(w, e) && R.Inv(w.remote)
    ensures R.Inv(Step(held, w, e).remote)
  {
    var r := RemoteEvent(w, e);
    if r.Some? {
      R.StepKeepsInv(w.remote, r.value);
    }
  }

  lemma StepKeepsInv(held: Holdings, w: World, e: Event)
    requires Keyed(held) && Inv(held, w) && Enabled(w, e)
    ensures Inv(held, Step(held, w, e))
  {
    StepKeepsInStep(held, w, e);
    StepKeepsMirror(held, w, e);
    CoordinatorKeepsInv(held, w, e);
    RemoteKeepsInv(held, w, e);
  }

  // ---- whole runs ----

  ghost predicate Runs(held: Holdings, w: World, es: Trace<Event>)
    requires Keyed(held)
    decreases es
  {
    es.Then? ==> Enabled(w, es.head) && Runs(held, Step(held, w, es.head), es.tail)
  }

  ghost function Run(held: Holdings, w: World, es: Trace<Event>): World
    requires Keyed(held) && Runs(held, w, es)
    decreases es
  {
    if es.Done? then w else Run(held, Step(held, w, es.head), es.tail)
  }

  ghost predicate Initial(w: World) {
    C.Initial(w.coordinator) && R.Initial(w.remote) && w.undisturbed
  }

  lemma {:induction false} RunKeepsInv(held: Holdings, w: World, es: Trace<Event>)
    requires Keyed(held) && Inv(held, w) && Runs(held, w, es)
    ensures Inv(held, Run(held, w, es))
    decreases es
  {
    if es.Then? {
      StepKeepsInv(held, w, es.head);
      RunKeepsInv(held, Step(held, w, es.head), es.tail);
    }
  }

  lemma InitialIsSound(held: Holdings, w: World)
    requires Initial(w)
    ensures Inv(held, w)
  {
    assert C.Runs(w.coordinator, Done) && C.Run(w.coordinator, Done) == w.coordinator;
    C.ReachableIsSound(w.coordinator);
  }

  /**
   What the user sees never goes back: in every run, as long as a scope's queues
   come from snapshots alone, they are what its broker held at the newest position
   applied, and those positions never move any broker backwards, whatever reads
   were delayed, reordered, lost, garbled or overtaken by a restart.
   */
  lemma QueuesMirrorNewestPosition(held: Holdings, w: World, es: Trace<Event>)
    requires Keyed(held) && Initial(w) && Runs(held, w, es)
    ensures var v := Run(held, w, es);
            && R.NeverBack(v.remote.log)
            && (v.undisturbed ==> QueuesOf(v) == Expected(held, v.remote.log))
            && C.Inv(v.coordinator)
  {
    InitialIsSound(held, w);
    RunKeepsInv(held, w, es);
  }
}
