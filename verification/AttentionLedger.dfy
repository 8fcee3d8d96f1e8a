/**
 What callers of the attention coordinator can count on (attention.rs:
 `AttentionTracker`, `RequestAttention`), told from the events alone.

 `AttentionRuns` says what never happens twice or too early. Here a ledger is kept
 by reading the events in order, without the coordinator: after every run the
 coordinator's queues, scope, settings and availability are those of the ledger.
 Then come the promises that rest on it: an announced request is handed over as it
 was last seen, a waiting subject is escalated, a banner is tracked and shown for
 exactly the subjects that wait.
 */
module AttentionLedger {
  import opened Basics
  import A = Attention
  import opened AttentionRuns
  import RemoteRefresh

  type Requests = map<string, A.Request>

  datatype Ledger = Ledger(
    scope: string, approvals: Requests, elicitations: Requests, settings: A.Settings, available: bool)

  /** One event entered into the ledger; `applied` says whether a snapshot is taken. */
  function Enter(l: Ledger, e: Event, applied: bool): Ledger {
    match e
    case Requested(r, _) => l.(approvals := l.approvals[r.id := r])
    case Resolved(id, _) => l.(approvals := l.approvals - {id})
    case Elicited(x) => l.(elicitations := l.elicitations[x.id := x])
    case ElicitationResolved(id) => l.(elicitations := l.elicitations - {id})
    case ScopeSet(s) => if s == l.scope then l else l.(scope := s, approvals := map[], elicitations := map[])
    case Reseeded(a, x) => l.(approvals := a, elicitations := x)
    case SnapshotRead(_, _, a, x) => if applied then l.(approvals := a, elicitations := x) else l
    case SettingsSet(s) => l.(settings := s)
    case AvailabilitySet(b) => l.(available := b)
    case _ => l
  }

  /** A snapshot with a readable version that the snapshot protocol accepts. */
  predicate Applied(w: World, e: Event) {
    e.SnapshotRead? && e.version.Some? && RemoteRefresh.Accepts(w.inner.refresh, e.generation, e.version.value)
  }

  ghost function Entered(l: Ledger, w: World, es: Trace<Event>): Ledger
    requires Runs(w, es)
    decreases es
  {
    if es.Done? then l else Entered(Enter(l, es.head, Applied(w, es.head)), Step(w, es.head), es.tail)
  }

  function LedgerOf(w: World): Ledger {
    Ledger(w.inner.tracker.scope, w.inner.tracker.active, w.inner.elicitations, w.inner.settings, w.inner.available)
  }

  predicate Queues(e: Event) {
    e.Requested? || e.Resolved? || e.Elicited? || e.ElicitationResolved?
  }

  predicate Replaces(e: Event) {
    e.ScopeSet? || e.Reseeded? || e.SnapshotRead?
  }

  lemma QueueingIsEntered(w: World, e: Event)
    requires Enabled(w, e) && Queues(e)
    ensures LedgerOf(Step(w, e)) == Enter(LedgerOf(w), e, Applied(w, e))
  {}

  lemma ReplacingIsEntered(w: World, e: Event)
    requires Enabled(w, e) && Replaces(e)
    ensures LedgerOf(Step(w, e)) == Enter(LedgerOf(w), e, Applied(w, e))
  {}

  /** Timers and banners leave the ledger as it is. */
  lemma OthersKeepQueues(w: World, e: Event)
    requires Enabled(w, e) && !Queues(e) && !Replaces(e)
    ensures var i, i' := w.inner, InnerStep(w, e);
            i'.tracker.scope == i.tracker.scope && i'.tracker.active == i.tracker.active && i'.elicitations == i.elicitations
  {}

  lemma OthersKeepSettings(w: World, e: Event)
    requires Enabled(w, e) && !Queues(e) && !Replaces(e)
    ensures InnerStep(w, e).settings == if e.SettingsSet? then e.settings else w.inner.settings
    ensures InnerStep(w, e).available == if e.AvailabilitySet? then e.available else w.inner.available
  {}

  lemma OthersAreEntered(w: World, e: Event)
    requires Enabled(w, e) && !Queues(e) && !Replaces(e)
    ensures LedgerOf(Step(w, e)) == Enter(LedgerOf(w), e, Applied(w, e))
  {
    OthersKeepQueues(w, e);
    OthersKeepSettings(w, e);
  }

  lemma StepIsEntered(w: World, e: Event)
    requires Enabled(w, e)
    ensures LedgerOf(Step(w, e)) == Enter(LedgerOf(w), e, Applied(w, e))
  {
    if Queues(e) {
      QueueingIsEntered(w, e);
    } else if Replaces(e) {
      ReplacingIsEntered(w, e);
    } else {
      OthersAreEntered(w, e);
    }
  }

  /** After every run the coordinator holds exactly what the ledger holds. */
  lemma {:induction false} LedgerIsKept(w: World, es: Trace<Event>)
    requires Runs(w, es)
    ensures LedgerOf(Run(w, es)) == Entered(LedgerOf(w), w, es)
    decreases es
  {
    if es.Then? {
      StepIsEntered(w, es.head);
      LedgerIsKept(Step(w, es.head), es.tail);
    }
  }

  /** It starts with nothing waiting, no scope, and banners unavailable until the platform says otherwise. */
  lemma LedgerStartsEmpty(w: World)
    requires Initial(w)
    ensures LedgerOf(w) == Ledger("", map[], map[], w.inner.settings, false)
  {}

  // ---- one request ----

  /** Does this event take `id` off the queue, or set the whole queue anew? */
  predicate Disturbs(w: World, e: Event, id: string) {
    || (e.Resolved? && e.id == id) || e.Reseeded? || Applied(w, e)
    || (e.ScopeSet? && e.scope != w.inner.tracker.scope)
  }

  ghost predicate Undisturbed(w: World, es: Trace<Event>, id: string)
    requires Runs(w, es)
    decreases es
  {
    es.Then? ==> !Disturbs(w, es.head, id) && Undisturbed(Step(w, es.head), es.tail, id)
  }

  /** The version of the request last asked for in `es`. */
  function LastVersion(es: Trace<Event>, before: A.Request): A.Request
    decreases es
  {
    match es
    case Done => before
    case Then(e, rest) => LastVersion(rest, if e.Requested? && e.request.id == before.id then e.request else before)
  }

  lemma {:induction false} StaysActive(w: World, es: Trace<Event>, r: A.Request)
    requires Runs(w, es) && Undisturbed(w, es, r.id)
    requires r.id in w.inner.tracker.active && w.inner.tracker.active[r.id] == r
    ensures r.id in Run(w, es).inner.tracker.active
    ensures Run(w, es).inner.tracker.active[r.id] == LastVersion(es, r)
    decreases es
  {
    if es.Then? {
      StepIsEntered(w, es.head);
      var next := if es.head.Requested? && es.head.request.id == r.id then es.head.request else r;
      assert Step(w, es.head).inner.tracker.active == LedgerOf(Step(w, es.head)).approvals;
      StaysActive(Step(w, es.head), es.tail, next);
    }
  }

  /**
   From the moment it is asked for until it is resolved, its queue is set anew or
   the scope changes, a request is active, in the version last asked for.
   */
  lemma RequestStaysActive(w: World, r: A.Request, announce: bool, es: Trace<Event>)
    requires Runs(Step(w, Requested(r, announce)), es) && Undisturbed(Step(w, Requested(r, announce)), es, r.id)
    ensures var v := Run(Step(w, Requested(r, announce)), es);
            r.id in v.inner.tracker.active && v.inner.tracker.active[r.id] == LastVersion(es, r)
  {
    StepIsEntered(w, Requested(r, announce));
    assert Step(w, Requested(r, announce)).inner.tracker.active == LedgerOf(Step(w, Requested(r, announce))).approvals;
    StaysActive(Step(w, Requested(r, announce)), es, r);
  }

  /** No live flush timer fires in the run. */
  ghost predicate NoFlush(w: World, es: Trace<Event>)
    requires Runs(w, es)
    decreases es
  {
    es.Then? ==>
      && !(es.head.FlushTimer? && es.head.generation == w.inner.flush.generation)
      && NoFlush(Step(w, es.head), es.tail)
  }

  /** The book of one lifetime: announced, and not handed over so far. */
  ghost predicate Awaited(w: World, id: string) {
    id in w.inner.tracker.active && id in w.lives && w.lives[id] == Life(true, 0)
  }

  lemma StaysAwaitedStep(w: World, e: Event, id: string)
    requires Enabled(w, e) && Awaited(w, id) && !Disturbs(w, e, id)
    requires !(e.FlushTimer? && e.generation == w.inner.flush.generation)
    ensures Awaited(Step(w, e), id)
  {
    StepIsEntered(w, e);
    assert Step(w, e).inner.tracker.active == LedgerOf(Step(w, e)).approvals;
    assert id in InnerStep(w, e).tracker.active;
    assert HandedOver(w, e) == map[];
  }

  lemma {:induction false} StaysAwaited(w: World, es: Trace<Event>, id: string)
    requires Runs(w, es) && Undisturbed(w, es, id) && NoFlush(w, es) && Awaited(w, id)
    ensures Awaited(Run(w, es), id)
    decreases es
  {
    if es.Then? {
      StaysAwaitedStep(w, es.head, id);
      StaysAwaited(Step(w, es.head), es.tail, id);
    }
  }

  lemma ArrivesAwaited(w: World, r: A.Request)
    requires r.id !in w.inner.tracker.active
    ensures Awaited(Step(w, Requested(r, true)), r.id)
  {
    var e := Requested(r, true);
    StepIsEntered(w, e);
    assert InnerStep(w, e).tracker.active == LedgerOf(Step(w, e)).approvals;
    assert HandedOver(w, e) == map[];
  }

  /**
   A new request that is to be announced is announced: whatever happens until then,
   as long as it is neither resolved nor swept away, one live flush timer is asleep,
   and when it fires it hands the request over, in the version last asked for.
   */
  lemma RequestIsHandedOver(w: World, r: A.Request, es: Trace<Event>)
    requires Inv(w) && r.id !in w.inner.tracker.active
    requires Runs(Step(w, Requested(r, true)), es)
    requires Undisturbed(Step(w, Requested(r, true)), es, r.id) && NoFlush(Step(w, Requested(r, true)), es)
    ensures var v := Run(Step(w, Requested(r, true)), es);
            && v.flushTimers[v.inner.flush.generation] == 1
            && r.id in HandedOver(v, FlushTimer(v.inner.flush.generation))
            && HandedOver(v, FlushTimer(v.inner.flush.generation))[r.id] == LastVersion(es, r)
  {
    var u := Step(w, Requested(r, true));
    var v := Run(u, es);
    StepKeepsInv(w, Requested(r, true));
    RunKeepsInv(u, es);
    RequestStaysActive(w, r, true, es);
    ArrivesAwaited(w, r);
    StaysAwaited(u, es, r.id);
    AwaitedIsHandedOver(v, r.id);
  }

  lemma AwaitedIsHandedOver(v: World, id: string)
    requires Inv(v) && Awaited(v, id)
    ensures v.flushTimers[v.inner.flush.generation] == 1
    ensures id in HandedOver(v, FlushTimer(v.inner.flush.generation))
    ensures HandedOver(v, FlushTimer(v.inner.flush.generation))[id] == v.inner.tracker.active[id]
  {
    assert id in v.inner.tracker.pending by {
      assert LivesSound(v.inner.tracker, v.lives);
    }
    SoundFlushIsExact(v, v.inner.flush.generation);
  }

  // ---- escalation ----

  /** The subject waits, by the ledger. */
  predicate Waits(l: Ledger, s: A.Subject) {
    match s
    case Approval(id) => id in l.approvals
    case Elicitation(id) => id in l.elicitations
    case Expired(_) => false
  }

  /**
   An escalation timer finds due exactly the subjects it was set for that wait and
   were not due before in this stay, provided that neither schedule nor scope
   changed since and notifications are on.
   */
  lemma DueIff(v: World, subjects: set<A.Subject>, leadSecs: nat, generation: nat, s: A.Subject)
    requires Inv(v)
    ensures s in DueNow(v, EscalationTimer(subjects, leadSecs, generation)) <==>
            && generation == v.inner.escalationGeneration
            && leadSecs == v.inner.settings.escalationSecs && v.inner.settings.mode != A.Off
            && s in subjects && Waits(LedgerOf(v), s) && s in v.dues && v.dues[s] == 0
  {
    assert EscalationSound(v.inner, v.dues);
    ActiveIsMember(v.inner, s);
  }

  // ---- banners ----

  /**
   A banner is tracked exactly when banners are available and there is something to
   say, and then for exactly those of its subjects that wait, or for all of them if
   it was not to be filtered.
   */
  lemma EnqueuedIsTracked(v: World, key: A.Key, subjects: set<A.Subject>, filterActive: bool)
    requires Inv(v) && Enabled(v, Enqueued(key, subjects, filterActive))
    ensures var l := LedgerOf(v);
            var wanted := set s | s in subjects && (filterActive ==> Waits(l, s));
            var after := Step(v, Enqueued(key, subjects, filterActive));
            && (key in after.inner.banners <==> l.available && wanted != {})
            && (key in after.inner.banners ==>
                  && after.inner.banners[key] == A.Banner(wanted, None)
                  && AtStage(after, key, Queued) && after.deliveries[key].original == wanted)
  {
    assert key !in v.inner.banners by {
      assert BannersSound(v);
    }
    forall s ensures A.SubjectActive(v.inner, s) <==> Waits(LedgerOf(v), s) {
    }
    var wanted := set s | s in subjects && (filterActive ==> Waits(LedgerOf(v), s));
    assert v.inner.available ==> A.Represented(v.inner, subjects, filterActive) == wanted;
  }

  /** A queued banner goes on to the screen exactly when it is still tracked. */
  lemma CheckedIffTracked(v: World, key: A.Key)
    requires Inv(v) && Enabled(v, Checked(key))
    ensures AtStage(Step(v, Checked(key)), key, Cleared) <==> key in v.inner.banners
  {
    assert DeliveryOk(v.inner, key, v.deliveries[key], v.withdrawn[key]);
    DeliveryAfter(v, Checked(key), key);
  }

  /** What is handed out for a banner is the identifier the platform gave it. */
  lemma HandedOutIsItsOwn(v: World, e: Event, key: A.Key)
    requires Inv(v) && Enabled(v, e) && key in HandedOut(v, e)
    ensures key in v.deliveries && v.deliveries[key].native == Some(HandedOut(v, e)[key])
  {
    assert BannersSound(v);
    HandedOutWas(v, e, key);
    assert DeliveryOk(v.inner, key, v.deliveries[key], v.withdrawn[key]);
  }
}
