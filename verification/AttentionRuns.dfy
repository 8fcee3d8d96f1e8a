/**
 Every interleaving of the attention coordinator (attention.rs) with its timers,
 its delivery worker, its banner observers and its broker callbacks.

 `World` adds to the coordinator what only the runtime knows: timers asleep, how
 far each banner has come on its way to the screen, and how often each was handed
 out for withdrawal. It also keeps books that the program does not: for each
 request of the current active lifetime, whether it was announced and how often
 it was handed over; for each subject, how many escalations named it; for each
 request id, how many expiries and expiry notices there were. The books are derived from the active sets before and after a step, not from what the
 coordinator claims to have resolved.
 */
module AttentionRuns {
  import opened Basics
  import opened Debounce
  import opened Attention
  import RateLimiter
  import RemoteRefresh

  /** One continuous stay of a request in the active set. */
  datatype Life = Life(announced: bool, handovers: nat)

  /** A banner on its way: queued, cleared for display, shown, under observation, taken back, or over. */
  datatype Stage = Queued | Cleared | OnScreen | Watched | Retracted | Over

  /**
   `original` is what the banner was tracked for, `left` which of these left the
   active set while it was tracked, `forced` whether a scope change or the
   shutdown took it away.
   */
  datatype Delivery = Delivery(
    stage: Stage, native: Option<string>, original: set<Subject>, left: set<Subject>, forced: bool)

  /**
   The expiries of the current scope, counted by request id: how often one left the
   active set expired, how often such an expiry found another of the same id still
   waiting for its notice, and how often a notice was handed over; and the request
   as it was when it last expired.
   */
  datatype Notices = Notices(
    expired: multiset<string>, merged: multiset<string>, handed: multiset<string>, latest: Requests)

  const NO_NOTICES: Notices := Notices(multiset{}, multiset{}, multiset{}, map[])

  datatype World = World(
    inner: Inner,
    flushTimers: multiset<nat>,
    expiryTimers: multiset<nat>,
    lives: map<string, Life>,
    dues: map<Subject, nat>,
    deliveries: map<Key, Delivery>,
    withdrawn: multiset<Key>,
    admissions: RateLimiter.History,   // banner admissions asked for in this scope
    notices: Notices)

  datatype Event =
    | Requested(request: Request, announce: bool)
    | Resolved(id: string, expired: bool)
    | Elicited(elicitation: Request)
    | ElicitationResolved(id: string)
    | ScopeSet(scope: string)
    | Reseeded(approvals: Requests, elicitations: Requests)
    | RefreshBegun
    | SnapshotRead(generation: nat, version: Option<RemoteRefresh.Version>,
                   approvals: Requests, elicitations: Requests)
    | SettingsSet(settings: Settings)
    | AvailabilitySet(available: bool)
    | FlushTimer(generation: nat)
    | ExpiryTimer(generation: nat)
    | EscalationTimer(subjects: set<Subject>, leadSecs: nat, generation: nat)
    | BannerAdmission(now: nat)
    | Enqueued(key: Key, subjects: set<Subject>, filterActive: bool)
    | Abandoned(key: Key)
    | Checked(key: Key)
    | Shown(key: Key, native: Option<string>)
    | Attached(key: Key)
    | ObserverEnded(key: Key)
    | ShutDown

  predicate AtStage(w: World, key: Key, stage: Stage) {
    key in w.deliveries && w.deliveries[key].stage == stage
  }

  predicate KeyedById(rs: Requests) {
    forall id <- rs :: rs[id].id == id
  }

  predicate OnlyExpired(subjects: set<Subject>) {
    forall s <- subjects :: s.Expired?
  }

  /**
   Timers fire only if they were started, the clock does not run backwards, banner
   keys are fresh, and each banner takes its steps in order; escalation timers and snapshots are unconstrained.
   Unfiltered banners are only asked for expired requests.
   */
  predicate Enabled(w: World, e: Event) {
    match e
    case Reseeded(a, l) => KeyedById(a) && KeyedById(l)
    case SnapshotRead(_, _, a, l) => KeyedById(a) && KeyedById(l)
    case FlushTimer(g) => g in w.flushTimers
    case ExpiryTimer(g) => g in w.expiryTimers
    case Enqueued(k, s, filter) => k !in w.deliveries && (filter || OnlyExpired(s))
    case Abandoned(k) => AtStage(w, k, Queued) || AtStage(w, k, Cleared)
    case Checked(k) => AtStage(w, k, Queued)
    case Shown(k, _) => AtStage(w, k, Cleared)
    case Attached(k) => AtStage(w, k, OnScreen)
    case ObserverEnded(k) => AtStage(w, k, Watched)
    case BannerAdmission(now) => RateLimiter.Clock(w.admissions) <= now
    case _ => true
  }

  function InnerStep(w: World, e: Event): Inner
    requires Enabled(w, e)
  {
    var i := w.inner;
    match e
    case Requested(r, announce) => Upsert(i, r, announce)
    case Resolved(id, expired) => Resolve(i, id, expired)
    case Elicited(l) => AddElicitation(i, l)
    case ElicitationResolved(id) => RemoveElicitation(i, id)
    case ScopeSet(scope) => SetScope(i, scope)
    case Reseeded(a, l) => Reseed(i, a, l)
    case RefreshBegun => i.(refresh := RemoteRefresh.Begin(i.refresh))
    case SnapshotRead(g, v, a, l) => Reconcile(i, g, v, a, l)
    case SettingsSet(s) => SetSettings(i, s)
    case AvailabilitySet(b) => i.(available := b)
    case FlushTimer(g) => FlushFires(i, g)
    case ExpiryTimer(g) => ExpiryFires(i, g)
    case EscalationTimer(s, lead, g) => Escalate(i, s, lead, g)
    case BannerAdmission(now) => i.(limiter := RateLimiter.Admit(i.limiter, now))
    case Enqueued(k, s, filter) => Enqueue(i, k, s, filter)
    case Abandoned(k) => Finish(i, k)
    case Checked(_) => i
    case Shown(_, _) => i
    case Attached(k) => Attach(i, k, w.deliveries[k].native)
    case ObserverEnded(k) => Finish(i, k)
    case ShutDown => i.(banners := map[])
  }

  function FlushTimersStep(w: World, e: Event): multiset<nat> {
    match e
    case Requested(r, announce) => Started(w.flushTimers, Token(w.inner.flush, Announces(w.inner, r, announce)))
    case SnapshotRead(g, v, a, _) =>
      Started(w.flushTimers, Token(w.inner.flush,
        AcceptsSnapshot(w.inner, g, v) && a.Keys - w.inner.tracker.active.Keys != {}))
    case FlushTimer(g) => w.flushTimers - multiset{g}
    case _ => w.flushTimers
  }

  function ExpiryTimersStep(w: World, e: Event): multiset<nat> {
    match e
    case Resolved(id, expired) => Started(w.expiryTimers, Token(w.inner.expiry, Expires(w.inner, id, expired)))
    case ExpiryTimer(g) => w.expiryTimers - multiset{g}
    case _ => w.expiryTimers
  }

  /** The requests this step hands over for delivery. */
  function HandedOver(w: World, e: Event): Requests {
    if e.FlushTimer? && Current(w.inner.flush, e.generation) then Taken(w.inner.tracker) else map[]
  }

  /** Does a request entering the active set in this step call for a banner? */
  predicate EntersAnnounced(e: Event) {
    e.SnapshotRead? || (e.Requested? && e.announce)
  }

  function LivesStep(w: World, e: Event): map<string, Life>
    requires Enabled(w, e)
  {
    map id | id in InnerStep(w, e).tracker.active ::
      var life := if id in w.inner.tracker.active && id in w.lives then w.lives[id]
                  else Life(EntersAnnounced(e), 0);
      if id in HandedOver(w, e) then life.(handovers := life.handovers + 1) else life
  }

  /** The subjects this step reports as due for escalation. */
  function DueNow(w: World, e: Event): set<Subject> {
    if e.EscalationTimer? then Due(w.inner, e.subjects, e.leadSecs, e.generation) else {}
  }

  function DuesStep(w: World, e: Event): map<Subject, nat>
    requires Enabled(w, e)
  {
    map s | s in ActiveSubjects(InnerStep(w, e)) ::
      (if s in ActiveSubjects(w.inner) && s in w.dues then w.dues[s] else 0)
      + (if s in DueNow(w, e) then 1 else 0)
  }

  /** The banners whose native identifier this step hands to the platform for withdrawal. */
  function HandedOut(w: World, e: Event): map<Key, string>
    requires Enabled(w, e)
  {
    var i := w.inner;
    match e
    case Resolved(id, _) => Withdrawn(i.banners, {Approval(id)})
    case ElicitationResolved(id) => Withdrawn(i.banners, {Elicitation(id)})
    case ScopeSet(scope) => if i.tracker.scope == scope then map[] else AllNative(i.banners)
    case Reseeded(a, l) => Withdrawn(i.banners, Departed(i, a, l))
    case SnapshotRead(g, v, a, l) =>
      if AcceptsSnapshot(i, g, v) then Withdrawn(i.banners, Departed(i, a, l)) else map[]
    case Attached(k) =>
      if k !in Attach(i, k, w.deliveries[k].native).banners && w.deliveries[k].native.Some?
      then map[k := w.deliveries[k].native.value] else map[]
    case ShutDown => AllNative(i.banners)
    case _ => map[]
  }

  predicate Forces(w: World, e: Event) {
    e.ShutDown? || (e.ScopeSet? && w.inner.tracker.scope != e.scope)
  }

  function NextStage(w: World, e: Event, k: Key): Stage
    requires Enabled(w, e) && k in w.deliveries
  {
    var d := w.deliveries[k];
    match e
    case Abandoned(key) => if key == k then Over else d.stage
    case Checked(key) => if key != k then d.stage else if Pending(w.inner, k) then Cleared else Over
    case Shown(key, _) => if key == k then OnScreen else d.stage
    case Attached(key) =>
      if key != k then d.stage
      else if k in Attach(w.inner, k, d.native).banners then Watched else Retracted
    case ObserverEnded(key) => if key == k then Over else d.stage
    case _ => d.stage
  }

  /** Banner `k` after the step; what left the active set is read off the active sets themselves. */
  function NextDelivery(w: World, e: Event, k: Key): Delivery
    requires Enabled(w, e) && k in w.deliveries
  {
    var d := w.deliveries[k];
    Delivery(
      NextStage(w, e, k),
      if e.Shown? && e.key == k then e.native else d.native,
      d.original,
      if k in w.inner.banners && !Forces(w, e)
      then d.left + d.original * (ActiveSubjects(w.inner) - ActiveSubjects(InnerStep(w, e))) else d.left,
      d.forced || (k in w.inner.banners && Forces(w, e)))
  }

  function DeliveriesStep(w: World, e: Event): map<Key, Delivery>
    requires Enabled(w, e)
  {
    var moved := map k | k in w.deliveries :: NextDelivery(w, e, k);
    if e.Enqueued? && Represented(w.inner, e.subjects, e.filterActive) != {}
    then moved[e.key := Delivery(Queued, None, Represented(w.inner, e.subjects, e.filterActive), {}, false)]
    else moved
  }

  function AdmissionsStep(w: World, e: Event): RateLimiter.History {
    if e.BannerAdmission? then RateLimiter.Call(w.admissions, e.now)
    else if e.ScopeSet? && e.scope != w.inner.tracker.scope then RateLimiter.Start
    else w.admissions
  }

  /** The expired requests this step hands over for a notice. */
  function ExpiriesHandedOver(w: World, e: Event): Requests {
    if e.ExpiryTimer? && Current(w.inner.expiry, e.generation) then w.inner.pendingExpirations else map[]
  }

  /** Does the book have an expiry of `id` whose notice is still to come? */
  predicate Owed(n: Notices, id: string) {
    n.expired[id] > n.merged[id] + n.handed[id]
  }

  function NoticesStep(w: World, e: Event): Notices {
    var n := w.notices;
    if e.Resolved? && e.expired && e.id in w.inner.tracker.active then
      Notices(n.expired + multiset{e.id},
              if Owed(n, e.id) then n.merged + multiset{e.id} else n.merged,
              n.handed,
              n.latest[e.id := w.inner.tracker.active[e.id]])
    else if e.ScopeSet? && e.scope != w.inner.tracker.scope then NO_NOTICES
    else n.(handed := n.handed + multiset(ExpiriesHandedOver(w, e).Keys))
  }

  function Step(w: World, e: Event): World
    requires Enabled(w, e)
  {
    World(InnerStep(w, e), FlushTimersStep(w, e), ExpiryTimersStep(w, e), LivesStep(w, e), DuesStep(w, e),
          DeliveriesStep(w, e), w.withdrawn + multiset(HandedOut(w, e).Keys),
          AdmissionsStep(w, e), NoticesStep(w, e))
  }

  // ---- debouncing: no flush is lost and none is doubled ----

  ghost predicate FlushSound(i: Inner, timers: multiset<nat>) {
    Sound(i.flush, timers, i.tracker.pending != {})
  }

  ghost predicate ExpirySound(i: Inner, timers: multiset<nat>) {
    Sound(i.expiry, timers, i.pendingExpirations != map[])
  }

  ghost predicate TimersSound(w: World) {
    FlushSound(w.inner, w.flushTimers) && ExpirySound(w.inner, w.expiryTimers)
  }

  /** The events that start, invalidate or consume flush timers. */
  predicate Flushes(e: Event) {
    e.Requested? || e.SnapshotRead? || e.ScopeSet? || e.FlushTimer?
  }

  lemma QuietForFlush(w: World, e: Event)
    requires Enabled(w, e) && !Flushes(e)
    ensures InnerStep(w, e).flush == w.inner.flush && InnerStep(w, e).tracker.pending <= w.inner.tracker.pending
  {}

  lemma FlushingKeepsFlush(w: World, e: Event)
    requires FlushSound(w.inner, w.flushTimers) && Enabled(w, e) && Flushes(e)
    ensures FlushSound(InnerStep(w, e), FlushTimersStep(w, e))
  {
    var i, t := w.inner, w.flushTimers;
    match e
    case Requested(r, a) => ScheduleKeepsSound(i.flush, t, i.tracker.pending != {}, Announces(i, r, a));
    case SnapshotRead(g, v, a, _) =>
      ScheduleKeepsSound(i.flush, t, i.tracker.pending != {},
        AcceptsSnapshot(i, g, v) && a.Keys - i.tracker.active.Keys != {});
    case ScopeSet(s) => ResetKeepsSound(i.flush, t, i.tracker.pending != {});
    case FlushTimer(g) => FireKeepsSound(i.flush, t, i.tracker.pending != {}, g);
  }

  lemma StepKeepsFlush(w: World, e: Event)
    requires FlushSound(w.inner, w.flushTimers) && Enabled(w, e)
    ensures FlushSound(InnerStep(w, e), FlushTimersStep(w, e))
  {
    if Flushes(e) {
      FlushingKeepsFlush(w, e);
    } else {
      QuietForFlush(w, e);
    }
  }

  lemma StepKeepsExpiry(w: World, e: Event)
    requires ExpirySound(w.inner, w.expiryTimers) && Enabled(w, e)
    ensures ExpirySound(InnerStep(w, e), ExpiryTimersStep(w, e))
  {
    var i, t := w.inner, w.expiryTimers;
    match e
    case Resolved(id, x) => ScheduleKeepsSound(i.expiry, t, i.pendingExpirations != map[], Expires(i, id, x));
    case ScopeSet(s) => ResetKeepsSound(i.expiry, t, i.pendingExpirations != map[]);
    case ExpiryTimer(g) => FireKeepsSound(i.expiry, t, i.pendingExpirations != map[], g);
    case _ =>
  }

  // ---- expiry notices: each expiry is answered for ----

  /** An expiry had its notice, was merged into a later one of its id, or is the one queued. */
  ghost predicate NoticesSound(queued: Requests, n: Notices) {
    && (forall id :: n.expired[id] == n.merged[id] + n.handed[id] + (if id in queued then 1 else 0))
    && (forall id <- queued :: id in n.latest && queued[id] == n.latest[id])
  }

  lemma StepKeepsNotices(w: World, e: Event)
    requires NoticesSound(w.inner.pendingExpirations, w.notices) && KeyedById(w.inner.tracker.active) && Enabled(w, e)
    ensures NoticesSound(InnerStep(w, e).pendingExpirations, NoticesStep(w, e))
  {
    QueueAfter(w, e);
    QueueKeepsNotices(w, e, NextQueue(w, e));
  }

  lemma QueueKeepsNotices(w: World, e: Event, q': Requests)
    requires NoticesSound(w.inner.pendingExpirations, w.notices) && q' == NextQueue(w, e)
    ensures NoticesSound(q', NoticesStep(w, e))
  {
    var q := w.inner.pendingExpirations;
    if e.Resolved? && e.expired && e.id in w.inner.tracker.active {
      assert Owed(w.notices, e.id) <==> e.id in q;
    } else if e.ExpiryTimer? && Current(w.inner.expiry, e.generation) {
      assert forall id :: multiset(q.Keys)[id] == (if id in q then 1 else 0);
    } else {
      assert multiset(ExpiriesHandedOver(w, e).Keys) == multiset{};
    }
  }

  /** What the queue of expiries should be after the step, by the events alone. */
  function NextQueue(w: World, e: Event): Requests {
    if e.Resolved? && e.expired && e.id in w.inner.tracker.active
    then w.inner.pendingExpirations[e.id := w.inner.tracker.active[e.id]]
    else if (e.ScopeSet? && e.scope != w.inner.tracker.scope) || (e.ExpiryTimer? && Current(w.inner.expiry, e.generation))
    then map[] else w.inner.pendingExpirations
  }

  /** The only steps that touch the queue of expiries. */
  lemma QueueAfter(w: World, e: Event)
    requires KeyedById(w.inner.tracker.active) && Enabled(w, e)
    ensures InnerStep(w, e).pendingExpirations == NextQueue(w, e)
  {
    if !(e.Resolved? || e.ScopeSet? || e.ExpiryTimer?) {
      QuietForQueue(w, e);
    }
  }

  lemma QuietForQueue(w: World, e: Event)
    requires Enabled(w, e) && !(e.Resolved? || e.ScopeSet? || e.ExpiryTimer?)
    ensures InnerStep(w, e).pendingExpirations == w.inner.pendingExpirations
  {}

  // ---- the limiter and the snapshot protocol inside the coordinator ----

  ghost predicate LimiterSound(i: Inner, h: RateLimiter.History) {
    RateLimiter.Monotone(h) && i.limiter == RateLimiter.After(h)
  }

  lemma StepKeepsLimiter(w: World, e: Event)
    requires LimiterSound(w.inner, w.admissions) && Enabled(w, e)
    ensures LimiterSound(InnerStep(w, e), AdmissionsStep(w, e))
  {}

  /** The coordinator moves its refresh state only by the moves of `RemoteRefresh`. */
  lemma RefreshFollowsProtocol(w: World, e: Event)
    requires Enabled(w, e)
    ensures InnerStep(w, e).refresh ==
            if e.RefreshBegun? then RemoteRefresh.Begin(w.inner.refresh)
            else if e.ScopeSet? && e.scope != w.inner.tracker.scope then RemoteRefresh.Rescope(w.inner.refresh)
            else if e.SnapshotRead? && e.version.Some?
                    && RemoteRefresh.Accepts(w.inner.refresh, e.generation, e.version.value)
            then RemoteRefresh.Apply(w.inner.refresh, e.version.value)
            else w.inner.refresh
    ensures e.SnapshotRead? && !AcceptsSnapshot(w.inner, e.generation, e.version) ==> InnerStep(w, e) == w.inner
  {}

  // ---- announcements: exactly once per lifetime ----

  /**
   Each active request has exactly one announcement to its name if it entered
   announced and none otherwise, and that announcement is either still pending or
   has been handed over.
   */
  ghost predicate LivesSound(t: Tracker, lives: map<string, Life>) {
    && KeyedById(t.active)
    && t.pending <= t.active.Keys
    && lives.Keys == t.active.Keys
    && forall id <- t.active ::
         lives[id].handovers + (if id in t.pending then 1 else 0) == (if lives[id].announced then 1 else 0)
  }

  /** The events that touch the tracker. */
  predicate Tracks(e: Event) {
    e.Requested? || e.Resolved? || e.ScopeSet? || e.Reseeded? || e.SnapshotRead? || e.FlushTimer?
  }

  lemma OtherStepsLeaveTracker(w: World, e: Event)
    requires Enabled(w, e) && !Tracks(e)
    ensures InnerStep(w, e).tracker == w.inner.tracker && HandedOver(w, e) == map[]
  {}

  lemma CallbackKeepsLives(w: World, e: Event)
    requires LivesSound(w.inner.tracker, w.lives) && Enabled(w, e)
    requires e.Requested? || e.Resolved? || e.ScopeSet?
    ensures LivesSound(InnerStep(w, e).tracker, LivesStep(w, e))
  {}

  lemma ReseedKeepsLives(w: World, e: Event)
    requires LivesSound(w.inner.tracker, w.lives) && Enabled(w, e) && e.Reseeded?
    ensures LivesSound(InnerStep(w, e).tracker, LivesStep(w, e))
  {}

  lemma ReconcilingKeepsLives(t: Tracker, next: Requests, lives: map<string, Life>, lives': map<string, Life>)
    requires LivesSound(t, lives) && KeyedById(next) && lives'.Keys == next.Keys
    requires forall id <- next :: lives'[id] == if id in t.active then lives[id] else Life(true, 0)
    ensures LivesSound(Reconciled(t, next), lives')
  {}

  lemma SnapshotKeepsLives(w: World, e: Event)
    requires LivesSound(w.inner.tracker, w.lives) && Enabled(w, e) && e.SnapshotRead?
    ensures LivesSound(InnerStep(w, e).tracker, LivesStep(w, e))
  {
    var t, t', lives := w.inner.tracker, InnerStep(w, e).tracker, LivesStep(w, e);
    forall id | id in t'.active
      ensures lives[id] == if id in t.active then w.lives[id] else Life(true, 0) {
    }
    if AcceptsSnapshot(w.inner, e.generation, e.version) {
      assert t' == Reconciled(t, e.approvals);
      ReconcilingKeepsLives(t, e.approvals, w.lives, lives);
    } else {
      assert t' == t;
      assert lives == w.lives;
    }
  }

  /** Taking the pending requests drops none of them. */
  lemma TakenIsAllPending(t: Tracker)
    requires t.pending <= t.active.Keys
    ensures Taken(t).Keys == t.pending
  {}

  lemma FlushKeepsLives(w: World, e: Event)
    requires LivesSound(w.inner.tracker, w.lives) && Enabled(w, e) && e.FlushTimer?
    ensures LivesSound(InnerStep(w, e).tracker, LivesStep(w, e))
  {
    var t, lives := w.inner.tracker, LivesStep(w, e);
    TakenIsAllPending(t);
    var taken := HandedOver(w, e).Keys;
    assert taken == if Current(w.inner.flush, e.generation) then t.pending else {};
    assert InnerStep(w, e).tracker == t.(pending := t.pending - taken);
    assert lives.Keys == t.active.Keys;
    forall id | id in t.active
      ensures lives[id] == if id in taken then w.lives[id].(handovers := w.lives[id].handovers + 1) else w.lives[id] {
    }
  }

  lemma StepKeepsLives(w: World, e: Event)
    requires LivesSound(w.inner.tracker, w.lives) && Enabled(w, e)
    ensures LivesSound(InnerStep(w, e).tracker, LivesStep(w, e))
  {
    if e.Requested? || e.Resolved? || e.ScopeSet? {
      CallbackKeepsLives(w, e);
    } else if e.Reseeded? {
      ReseedKeepsLives(w, e);
    } else if e.SnapshotRead? {
      SnapshotKeepsLives(w, e);
    } else if e.FlushTimer? {
      FlushKeepsLives(w, e);
    } else {
      OtherStepsLeaveTracker(w, e);
    }
  }

  // ---- escalation: once per lifetime ----

  ghost predicate EscalationSound(i: Inner, dues: map<Subject, nat>) {
    && i.escalated <= ActiveSubjects(i)
    && dues.Keys == ActiveSubjects(i)
    && forall s <- dues :: dues[s] == (if s in i.escalated then 1 else 0)
  }

  /** The subjects a step takes off the active set, as the coordinator computes them. */
  function ClaimedGone(w: World, e: Event): set<Subject> {
    match e
    case Resolved(id, _) => {Approval(id)}
    case ElicitationResolved(id) => {Elicitation(id)}
    case ScopeSet(scope) => if w.inner.tracker.scope == scope then {} else ActiveSubjects(w.inner)
    case Reseeded(a, l) => Departed(w.inner, a, l)
    case SnapshotRead(g, v, a, l) => if AcceptsSnapshot(w.inner, g, v) then Departed(w.inner, a, l) else {}
    case _ => {}
  }

  /** The coordinator resolves exactly the subjects that leave the active set. */
  lemma ClaimedGoneIsGone(w: World, e: Event)
    requires Enabled(w, e)
    ensures ActiveSubjects(w.inner) - ActiveSubjects(InnerStep(w, e)) == ActiveSubjects(w.inner) * ClaimedGone(w, e)
    ensures forall s <- ClaimedGone(w, e) :: !s.Expired?
  {
    forall s ensures s in ActiveSubjects(w.inner) && s !in ActiveSubjects(InnerStep(w, e)) <==>
                     s in ActiveSubjects(w.inner) && s in ClaimedGone(w, e) {
      ActiveIsMember(w.inner, s);
      ActiveIsMember(InnerStep(w, e), s);
      if SubjectActive(w.inner, s) {
        LeavesIff(w, e, s);
      }
    }
  }

  lemma ActiveIsMember(i: Inner, s: Subject)
    ensures s in ActiveSubjects(i) <==> SubjectActive(i, s)
  {}

  predicate TakesOff(e: Event) {
    e.Resolved? || e.ElicitationResolved? || e.ScopeSet? || e.Reseeded? || e.SnapshotRead?
  }

  lemma LeavesIff(w: World, e: Event, s: Subject)
    requires Enabled(w, e) && SubjectActive(w.inner, s)
    ensures !SubjectActive(InnerStep(w, e), s) <==> s in ClaimedGone(w, e)
  {
    if TakesOff(e) {
      ActiveIsMember(w.inner, s);
      TakenOffIff(w, e, s);
    } else {
      NothingTakenOff(w, e, s);
    }
  }

  lemma TakenOffIff(w: World, e: Event, s: Subject)
    requires Enabled(w, e) && TakesOff(e) && SubjectActive(w.inner, s) && s in ActiveSubjects(w.inner)
    ensures !SubjectActive(InnerStep(w, e), s) <==> s in ClaimedGone(w, e)
  {}

  lemma NothingTakenOff(w: World, e: Event, s: Subject)
    requires Enabled(w, e) && !TakesOff(e) && SubjectActive(w.inner, s)
    ensures SubjectActive(InnerStep(w, e), s) && ClaimedGone(w, e) == {}
  {}

  lemma EscalatedAfter(w: World, e: Event)
    requires Enabled(w, e) && w.inner.escalated <= ActiveSubjects(w.inner)
    ensures InnerStep(w, e).escalated == w.inner.escalated - ClaimedGone(w, e) + DueNow(w, e)
    ensures DueNow(w, e) <= ActiveSubjects(w.inner) - w.inner.escalated
    ensures DueNow(w, e) != {} ==> ActiveSubjects(InnerStep(w, e)) == ActiveSubjects(w.inner)
  {}

  lemma StepKeepsEscalation(w: World, e: Event)
    requires EscalationSound(w.inner, w.dues) && Enabled(w, e)
    ensures EscalationSound(InnerStep(w, e), DuesStep(w, e))
  {
    ClaimedGoneIsGone(w, e);
    EscalatedAfter(w, e);
    DuesMeaning(w, e);
    var i, i', gone, due := w.inner, InnerStep(w, e), ClaimedGone(w, e), DueNow(w, e);
    forall s | s in ActiveSubjects(i') && s in i.escalated ensures s !in gone {
      assert s in ActiveSubjects(i);
    }
    assert i'.escalated <= ActiveSubjects(i');
  }

  lemma DuesMeaning(w: World, e: Event)
    requires EscalationSound(w.inner, w.dues) && Enabled(w, e)
    ensures DuesStep(w, e).Keys == ActiveSubjects(InnerStep(w, e))
    ensures forall s <- DuesStep(w, e) ::
              DuesStep(w, e)[s] == (if s in w.inner.escalated then 1 else 0) + (if s in DueNow(w, e) then 1 else 0)
  {}

  // ---- banners: each has one owner ----

  /** A tracked banner represents live work only: exactly what it was tracked for and has not left since. */
  ghost predicate TrackedOk(i: Inner, b: Banner, d: Delivery) {
    && b.subjects != {}
    && b.subjects == d.original - d.left
    && (forall s <- b.subjects :: s.Expired? || SubjectActive(i, s))
    && !d.forced
    && b.native == (if d.stage == Watched then d.native else None)
    && d.stage in {Queued, Cleared, OnScreen, Watched}
  }

  /** A banner that is no longer tracked: why, and how often it was handed out. */
  ghost predicate UntrackedOk(d: Delivery, count: nat) {
    match d.stage
    case Watched => SpentOrForced(d) && count == (if d.native.Some? then 1 else 0)
    case Retracted => SpentOrForced(d) && count == (if d.native.Some? then 1 else 0)
    case Over => count <= 1 && (count == 1 ==> SpentOrForced(d) && d.native.Some?)
    case _ => SpentOrForced(d) && count == 0
  }

  /** Every subject left the active set while the banner stood for it, or a scope change or shutdown struck. */
  predicate SpentOrForced(d: Delivery) {
    d.original <= d.left || d.forced
  }

  ghost predicate DeliveryOk(i: Inner, k: Key, d: Delivery, count: nat) {
    if k in i.banners then TrackedOk(i, i.banners[k], d) && count == 0 else UntrackedOk(d, count)
  }

  ghost predicate BannersSound(w: World) {
    && w.inner.banners.Keys <= w.deliveries.Keys
    && (forall k <- w.withdrawn :: k in w.deliveries)
    && (forall k <- w.deliveries :: DeliveryOk(w.inner, k, w.deliveries[k], w.withdrawn[k]))
  }

  /** A step that resolves subjects: what it crosses off and what it hands out. */
  predicate Resolves(e: Event) {
    e.Resolved? || e.ElicitationResolved? || e.Reseeded? || e.SnapshotRead?
  }

  lemma ResolvingCrossesOff(w: World, e: Event)
    requires Enabled(w, e) && Resolves(e) && BannersSound(w)
    ensures InnerStep(w, e).banners == Crossed(w.inner.banners, ClaimedGone(w, e))
    ensures HandedOut(w, e) == Withdrawn(w.inner.banners, ClaimedGone(w, e))
  {
    if e.SnapshotRead? && !AcceptsSnapshot(w.inner, e.generation, e.version) {
      forall k | k in w.inner.banners ensures w.inner.banners[k].subjects - {} == w.inner.banners[k].subjects
        && !(w.inner.banners[k].subjects <= {}) {
        assert DeliveryOk(w.inner, k, w.deliveries[k], w.withdrawn[k]);
      }
    }
  }

  /** Crossing off what left keeps a banner's account of itself exact. */
  lemma CrossingOneOff(i: Inner, i': Inner, b: Banner, d: Delivery, gone: set<Subject>)
    requires TrackedOk(i, b, d) && forall s <- gone :: !s.Expired?
    requires ActiveSubjects(i) - ActiveSubjects(i') == ActiveSubjects(i) * gone
    ensures var d' := d.(left := d.left + d.original * (ActiveSubjects(i) - ActiveSubjects(i')));
            if b.subjects <= gone then d'.original <= d'.left
            else TrackedOk(i', b.(subjects := b.subjects - gone), d')
  {
    var left := ActiveSubjects(i) - ActiveSubjects(i');
    forall s | s in b.subjects ensures s in gone <==> s in left {
      ActiveIsMember(i, s);
    }
    forall s | s in b.subjects && s !in gone ensures s.Expired? || SubjectActive(i', s) {
      ActiveIsMember(i, s);
      ActiveIsMember(i', s);
    }
    assert b.subjects - gone == d.original - (d.left + d.original * left);
    if !(b.subjects <= gone) {
      var s :| s in b.subjects && s !in gone;
      assert s in b.subjects - gone;
    }
  }

  /** One banner under a resolving step. */
  lemma ResolvingKeepsDelivery(w: World, e: Event, k: Key)
    requires Enabled(w, e) && Resolves(e) && BannersSound(w) && k in w.deliveries
    ensures DeliveryOk(InnerStep(w, e), k, NextDelivery(w, e, k),
                       w.withdrawn[k] + (if k in HandedOut(w, e) then 1 else 0))
  {
    assert DeliveryOk(w.inner, k, w.deliveries[k], w.withdrawn[k]);
    ResolvingCrossesOff(w, e);
    if k in w.inner.banners {
      ClaimedGoneIsGone(w, e);
      CrossingOneOff(w.inner, InnerStep(w, e), w.inner.banners[k], w.deliveries[k], ClaimedGone(w, e));
    }
  }

  /** Steps that take no subject off the active set. */
  lemma QuietStepsLeaveNothing(w: World, e: Event)
    requires Enabled(w, e) && !Resolves(e) && !Forces(w, e)
    ensures ActiveSubjects(w.inner) <= ActiveSubjects(InnerStep(w, e))
    ensures ActiveSubjects(w.inner) - ActiveSubjects(InnerStep(w, e)) == {}
  {
    ClaimedGoneIsGone(w, e);
  }

  /** The events of one banner's own journey. */
  predicate Moves(e: Event, k: Key) {
    (e.Abandoned? || e.Checked? || e.Shown? || e.Attached? || e.ObserverEnded?) && e.key == k
  }

  lemma MovingKeepsDelivery(w: World, e: Event, k: Key)
    requires Enabled(w, e) && BannersSound(w) && k in w.deliveries && Moves(e, k)
    ensures DeliveryOk(InnerStep(w, e), k, NextDelivery(w, e, k),
                       w.withdrawn[k] + (if k in HandedOut(w, e) then 1 else 0))
  {
    var d, d' := w.deliveries[k], NextDelivery(w, e, k);
    assert DeliveryOk(w.inner, k, d, w.withdrawn[k]);
    assert InnerStep(w, e).tracker == w.inner.tracker && InnerStep(w, e).elicitations == w.inner.elicitations;
    assert d'.left == d.left;
  }

  lemma ForcingKeepsDelivery(w: World, e: Event, k: Key)
    requires Enabled(w, e) && BannersSound(w) && k in w.deliveries && Forces(w, e)
    ensures DeliveryOk(InnerStep(w, e), k, NextDelivery(w, e, k),
                       w.withdrawn[k] + (if k in HandedOut(w, e) then 1 else 0))
  {
    assert DeliveryOk(w.inner, k, w.deliveries[k], w.withdrawn[k]);
  }

  lemma BystandersKeepDelivery(w: World, e: Event, k: Key)
    requires Enabled(w, e) && BannersSound(w) && k in w.deliveries
    requires !Forces(w, e) && !Resolves(e) && !Moves(e, k)
    ensures DeliveryOk(InnerStep(w, e), k, NextDelivery(w, e, k),
                       w.withdrawn[k] + (if k in HandedOut(w, e) then 1 else 0))
  {
    var i, i', d := w.inner, InnerStep(w, e), w.deliveries[k];
    assert DeliveryOk(i, k, d, w.withdrawn[k]);
    QuietStepsLeaveNothing(w, e);
    assert NextDelivery(w, e, k) == d;
    assert k !in HandedOut(w, e);
    assert k in i'.banners <==> k in i.banners;
    if k in i.banners {
      assert i'.banners[k] == i.banners[k];
      forall s | s in i.banners[k].subjects ensures s.Expired? || SubjectActive(i', s) {
        ActiveIsMember(i, s);
        ActiveIsMember(i', s);
      }
    }
  }

  lemma StepKeepsDelivery(w: World, e: Event, k: Key)
    requires BannersSound(w) && Enabled(w, e) && k in w.deliveries
    ensures DeliveryOk(InnerStep(w, e), k, NextDelivery(w, e, k),
                       w.withdrawn[k] + (if k in HandedOut(w, e) then 1 else 0))
  {
    if Forces(w, e) {
      ForcingKeepsDelivery(w, e, k);
    } else if Resolves(e) {
      ResolvingKeepsDelivery(w, e, k);
    } else if Moves(e, k) {
      MovingKeepsDelivery(w, e, k);
    } else {
      BystandersKeepDelivery(w, e, k);
    }
  }

  lemma NewBannerOk(w: World, e: Event)
    requires BannersSound(w) && Enabled(w, e) && e.Enqueued?
    requires Represented(w.inner, e.subjects, e.filterActive) != {}
    ensures DeliveryOk(InnerStep(w, e), e.key, DeliveriesStep(w, e)[e.key], w.withdrawn[e.key])
  {
    assert e.key !in w.withdrawn;
  }

  lemma HandedOutWas(w: World, e: Event, k: Key)
    requires Enabled(w, e) && k in HandedOut(w, e)
    ensures k in w.inner.banners || AtStage(w, k, OnScreen)
  {}

  lemma TrackedWas(w: World, e: Event, k: Key)
    requires Enabled(w, e) && k in InnerStep(w, e).banners
    ensures k in w.inner.banners || (k !in w.deliveries && k in DeliveriesStep(w, e))
  {}

  lemma DeliveryAfter(w: World, e: Event, k: Key)
    requires Enabled(w, e) && k in w.deliveries
    ensures k in DeliveriesStep(w, e) && DeliveriesStep(w, e)[k] == NextDelivery(w, e, k)
  {}

  /** One banner's books after the step, in place of the whole map of them. */
  lemma StepKeepsBooks(w: World, e: Event, k: Key)
    requires BannersSound(w) && Enabled(w, e) && k in DeliveriesStep(w, e)
    ensures DeliveryOk(InnerStep(w, e), k, DeliveriesStep(w, e)[k], (w.withdrawn + multiset(HandedOut(w, e).Keys))[k])
  {
    if k in w.deliveries {
      StepKeepsDelivery(w, e, k);
      DeliveryAfter(w, e, k);
    } else {
      NewBannerOk(w, e);
      if k in HandedOut(w, e) {
        HandedOutWas(w, e, k);
      }
    }
  }

  lemma StepKeepsBanners(w: World, e: Event)
    requires BannersSound(w) && Enabled(w, e)
    ensures BannersSound(Step(w, e))
  {
    var handed, ds, i' := HandedOut(w, e).Keys, DeliveriesStep(w, e), InnerStep(w, e);
    var count := w.withdrawn + multiset(handed);
    forall k | k in ds ensures DeliveryOk(i', k, ds[k], count[k]) {
      StepKeepsBooks(w, e, k);
    }
    forall k | k in i'.banners ensures k in ds {
      TrackedWas(w, e, k);
      if k in w.deliveries {
        DeliveryAfter(w, e, k);
      }
    }
    forall k | k in count ensures k in ds {
      if k in handed {
        HandedOutWas(w, e, k);
      }
      DeliveryAfter(w, e, k);
    }
  }

  // ---- the whole coordinator over whole runs ----

  ghost predicate Inv(w: World) {
    && TimersSound(w)
    && LivesSound(w.inner.tracker, w.lives)
    && EscalationSound(w.inner, w.dues)
    && BannersSound(w)
    && LimiterSound(w.inner, w.admissions)
    && NoticesSound(w.inner.pendingExpirations, w.notices)
  }

  ghost predicate Initial(w: World) {
    exists settings :: w == World(Fresh(settings), multiset{}, multiset{}, map[], map[], map[], multiset{},
                                 RateLimiter.Start, NO_NOTICES)
  }

  ghost predicate Runs(w: World, es: Trace<Event>)
    decreases es
  {
    es.Then? ==> Enabled(w, es.head) && Runs(Step(w, es.head), es.tail)
  }

  ghost function Run(w: World, es: Trace<Event>): World
    requires Runs(w, es)
    decreases es
  {
    if es.Done? then w else Run(Step(w, es.head), es.tail)
  }

  lemma StepKeepsInv(w: World, e: Event)
    requires Inv(w) && Enabled(w, e)
    ensures Inv(Step(w, e))
  {
    StepKeepsFlush(w, e);
    StepKeepsExpiry(w, e);
    StepKeepsLives(w, e);
    StepKeepsEscalation(w, e);
    StepKeepsBanners(w, e);
    StepKeepsLimiter(w, e);
    StepKeepsNotices(w, e);
  }

  lemma {:induction false} RunKeepsInv(w: World, es: Trace<Event>)
    requires Inv(w) && Runs(w, es)
    ensures Inv(Run(w, es))
    decreases es
  {
    if es.Then? {
      StepKeepsInv(w, es.head);
      RunKeepsInv(Step(w, es.head), es.tail);
    }
  }

  /** The states the coordinator can get into. */
  ghost predicate Reachable(v: World) {
    exists w, es :: Initial(w) && Runs(w, es) && Run(w, es) == v
  }

  lemma InitialIsSound(w: World)
    requires Initial(w)
    ensures Inv(w)
  {}

  /** Every reachable state of the coordinator satisfies the invariant. */
  lemma ReachableIsSound(v: World)
    requires Reachable(v)
    ensures Inv(v)
  {
    var w, es :| Initial(w) && Runs(w, es) && Run(w, es) == v;
    InitialIsSound(w);
    RunKeepsInv(w, es);
  }

  // ---- what the invariant means to a reader ----

  lemma ReachableTimersAreSound(v: World)
    requires Reachable(v)
    ensures TimersSound(v) && v.inner.tracker.pending <= v.inner.tracker.active.Keys
  {
    ReachableIsSound(v);
  }

  /**
   Work waiting means that exactly one live timer is asleep for it; when that timer
   fires it hands over every pending request, as it now stands in the active set,
   and leaves none; a stale timer changes nothing in the coordinator.
   */
  ghost predicate FlushExact(v: World, generation: nat) {
    && v.flushTimers[v.inner.flush.generation] <= 1
    && (v.inner.tracker.pending != {} ==> v.flushTimers[v.inner.flush.generation] == 1)
    && (generation in v.flushTimers ==>
          if generation == v.inner.flush.generation
          then HandedOver(v, FlushTimer(generation)).Keys == v.inner.tracker.pending
               && v.inner.tracker.pending <= v.inner.tracker.active.Keys
               && (forall id <- v.inner.tracker.pending ::
                     HandedOver(v, FlushTimer(generation))[id] == v.inner.tracker.active[id])
               && FlushFires(v.inner, generation).tracker.pending == {}
          else HandedOver(v, FlushTimer(generation)) == map[] && FlushFires(v.inner, generation) == v.inner)
  }

  lemma SoundFlushIsExact(v: World, generation: nat)
    requires TimersSound(v) && v.inner.tracker.pending <= v.inner.tracker.active.Keys
    ensures FlushExact(v, generation)
  {
    TakenIsAllPending(v.inner.tracker);
  }

  /** No flush is lost and none is doubled. */
  lemma FlushLosesAndDoublesNothing(v: World, generation: nat)
    requires Reachable(v)
    ensures FlushExact(v, generation)
  {
    ReachableTimersAreSound(v);
    SoundFlushIsExact(v, generation);
  }

  /**
   The same for expiry notices: the live timer hands over every expiry owed a
   notice, each as the request was when it last expired, and leaves none owed; a
   stale one hands over nothing.
   */
  ghost predicate ExpiryExact(v: World, generation: nat) {
    && v.expiryTimers[v.inner.expiry.generation] <= 1
    && ((exists id :: Owed(v.notices, id)) ==> v.expiryTimers[v.inner.expiry.generation] == 1)
    && (generation in v.expiryTimers ==>
          var handed := ExpiriesHandedOver(v, ExpiryTimer(generation));
          if generation == v.inner.expiry.generation
          then (forall id :: id in handed <==> Owed(v.notices, id))
               && (forall id <- handed :: id in v.notices.latest && handed[id] == v.notices.latest[id])
               && (forall id :: !Owed(NoticesStep(v, ExpiryTimer(generation)), id))
               && ExpiryFires(v.inner, generation).pendingExpirations == map[]
          else handed == map[] && ExpiryFires(v.inner, generation) == v.inner)
  }

  lemma SoundExpiryIsExact(v: World, generation: nat)
    requires TimersSound(v) && NoticesSound(v.inner.pendingExpirations, v.notices)
    ensures ExpiryExact(v, generation)
  {
    assert forall id :: Owed(v.notices, id) <==> id in v.inner.pendingExpirations;
    if generation in v.expiryTimers && generation == v.inner.expiry.generation {
      var e := ExpiryTimer(generation);
      QueueKeepsNotices(v, e, NextQueue(v, e));
      assert NextQueue(v, e) == map[];
    }
  }

  /** No expiry notice is lost and none is doubled. */
  lemma ExpiryLosesAndDoublesNothing(v: World, generation: nat)
    requires Reachable(v)
    ensures ExpiryExact(v, generation)
  {
    ReachableTimersAreSound(v);
    ReachableNoticesAreSound(v);
    SoundExpiryIsExact(v, generation);
  }

  lemma ReachableNoticesAreSound(v: World)
    requires Reachable(v)
    ensures NoticesSound(v.inner.pendingExpirations, v.notices) && KeyedById(v.inner.tracker.active)
  {
    ReachableIsSound(v);
  }

  /** In every reachable state each expiry of the scope is accounted for exactly once. */
  lemma EveryExpiryIsAccountedFor(v: World, id: string)
    requires Reachable(v)
    ensures v.notices.expired[id] ==
            v.notices.merged[id] + v.notices.handed[id] + (if id in v.inner.pendingExpirations then 1 else 0)
  {
    ReachableNoticesAreSound(v);
  }

  ghost predicate StaysInScope(w: World, es: Trace<Event>)
    requires Runs(w, es)
    decreases es
  {
    es.Then? ==> (es.head.ScopeSet? ==> es.head.scope == w.inner.tracker.scope) && StaysInScope(Step(w, es.head), es.tail)
  }

  lemma {:induction false} BooksOnlyGrow(w: World, es: Trace<Event>, id: string)
    requires Runs(w, es) && StaysInScope(w, es)
    ensures var n, n' := w.notices, Run(w, es).notices;
            n'.handed[id] >= n.handed[id] && n'.merged[id] >= n.merged[id]
            && n'.expired[id] + n.merged[id] >= n'.merged[id] + n.expired[id]
    decreases es
  {
    if es.Then? {
      BooksOnlyGrow(Step(w, es.head), es.tail, id);
    }
  }

  /**
   Over any run that stays in its scope, a queued expiry is handed over exactly
   once: until its timer fires not at all, then once and not again, unless the
   request comes back and expires anew.
   */
  lemma QueuedExpiryIsHandedOverOnce(v: World, es: Trace<Event>, id: string)
    requires Inv(v) && Runs(v, es) && StaysInScope(v, es)
    ensures id in v.inner.pendingExpirations && Run(v, es).notices.expired[id] == v.notices.expired[id] ==>
              Run(v, es).notices.handed[id] ==
              v.notices.handed[id] + (if id in Run(v, es).inner.pendingExpirations then 0 else 1)
  {
    RunKeepsInv(v, es);
    BooksOnlyGrow(v, es, id);
  }

  /**
   Once per lifetime: a request is handed over at most once while it stays active,
   never if it entered unannounced, and an announced one is never forgotten.
   */
  lemma HandedOverOncePerLifetime(v: World, id: string)
    requires Reachable(v) && id in v.inner.tracker.active
    ensures id in v.lives && v.lives[id].handovers <= 1
    ensures !v.lives[id].announced ==> v.lives[id].handovers == 0 && id !in v.inner.tracker.pending
    ensures v.lives[id].announced ==> (id in v.inner.tracker.pending <==> v.lives[id].handovers == 0)
  {
    ReachableIsSound(v);
  }

  /** Single-shot escalation, whatever timers, reschedules and setting changes there were. */
  lemma EscalatedOncePerLifetime(v: World, s: Subject)
    requires Reachable(v)
    ensures v.inner.escalated <= ActiveSubjects(v.inner)
    ensures SubjectActive(v.inner, s) ==> s in v.dues && v.dues[s] <= 1
  {
    ReachableIsSound(v);
    ActiveIsMember(v.inner, s);
  }

  lemma ReachableDeliveryIsOk(v: World, k: Key)
    requires Reachable(v) && k in v.deliveries
    ensures DeliveryOk(v.inner, k, v.deliveries[k], v.withdrawn[k])
  {
    ReachableIsSound(v);
    assert BannersSound(v);
  }

  /** The attach step is behind it: under observation, taken back on attaching, or over. */
  predicate PastAttach(d: Delivery) {
    d.stage == Watched || d.stage == Retracted || d.stage == Over
  }

  /** Tracked, with its identifier and with live subjects only. */
  ghost predicate IsTracked(i: Inner, k: Key, d: Delivery, count: nat) {
    && k in i.banners && count == 0
    && d.stage == Watched && i.banners[k].native == d.native
    && i.banners[k].subjects != {} && forall s <- i.banners[k].subjects :: s.Expired? || SubjectActive(i, s)
  }

  /** Handed out for withdrawal, once, because all its subjects left or a scope change or shutdown struck. */
  ghost predicate IsHandedOut(i: Inner, k: Key, d: Delivery, count: nat) {
    k !in i.banners && count == 1 && SpentOrForced(d)
  }

  /** Finished on its own, its observer having ended, and never handed out. */
  ghost predicate IsFinished(i: Inner, k: Key, d: Delivery, count: nat) {
    k !in i.banners && count == 0 && d.stage == Over
  }

  /** What one banner's books say of its owner. */
  ghost predicate Owned(i: Inner, k: Key, d: Delivery, count: nat) {
    && (PastAttach(d) && d.native.Some? ==> IsTracked(i, k, d, count) || IsHandedOut(i, k, d, count) || IsFinished(i, k, d, count))
    && (d.stage == Retracted ==> k !in i.banners && count == (if d.native.Some? then 1 else 0))
    && (count == 0 || (IsHandedOut(i, k, d, count) && d.native.Some? && PastAttach(d)))
    && (k in i.banners ==>
          i.banners[k].subjects != {} && forall s <- i.banners[k].subjects :: s.Expired? || SubjectActive(i, s))
  }

  lemma BooksNameOneOwner(i: Inner, k: Key, d: Delivery, count: nat)
    requires DeliveryOk(i, k, d, count)
    ensures Owned(i, k, d, count)
  {}

  /**
   Banner ownership: a banner past its attach step that has a native identifier is
   tracked, handed out for withdrawal once, or finished, and only one of these. One
   that was taken back on attaching is handed out there and then. No banner is ever
   handed out twice, nor one without an identifier; and outside a scope change or
   the shutdown it is handed out only after all its subjects left the active set.
   */
  lemma BannersHaveOneOwner(v: World, k: Key)
    requires Reachable(v) && k in v.deliveries
    ensures Owned(v.inner, k, v.deliveries[k], v.withdrawn[k])
  {
    ReachableDeliveryIsOk(v, k);
    BooksNameOneOwner(v.inner, k, v.deliveries[k], v.withdrawn[k]);
  }

  lemma StageAfterAttach(w: World, e: Event, k: Key)
    requires Enabled(w, e) && k in w.deliveries && PastAttach(w.deliveries[k])
    ensures NextStage(w, e, k) == w.deliveries[k].stage || NextStage(w, e, k) == Over
  {}

  lemma ClosedStaysClosed(w: World, e: Event, k: Key)
    requires Enabled(w, e) && k in w.deliveries && k !in w.inner.banners && PastAttach(w.deliveries[k])
    ensures k in DeliveriesStep(w, e) && k !in InnerStep(w, e).banners && PastAttach(DeliveriesStep(w, e)[k])
    ensures k !in HandedOut(w, e)
  {
    if k in HandedOut(w, e) {
      HandedOutWas(w, e, k);
    }
    if k in InnerStep(w, e).banners {
      TrackedWas(w, e, k);
    }
    StageAfterAttach(w, e, k);
    DeliveryAfter(w, e, k);
  }

  /** Whatever follows, a banner handed out or finished is never tracked or handed out again. */
  lemma {:induction false} NeverHandedOutAgain(w: World, es: Trace<Event>, k: Key)
    requires Runs(w, es) && k in w.deliveries && k !in w.inner.banners && PastAttach(w.deliveries[k])
    ensures k in Run(w, es).deliveries && k !in Run(w, es).inner.banners
    ensures Run(w, es).withdrawn[k] == w.withdrawn[k]
    decreases es
  {
    if es.Then? {
      ClosedStaysClosed(w, es.head, k);
      NeverHandedOutAgain(Step(w, es.head), es.tail, k);
    }
  }

  /** In every reachable state the limiter is the one its scope's whole history of admissions leads to. */
  lemma LimiterReflectsHistory(v: World)
    requires Reachable(v)
    ensures RateLimiter.Monotone(v.admissions)
    ensures v.inner.limiter.times == RateLimiter.Recent(RateLimiter.Normals(v.admissions), RateLimiter.Clock(v.admissions))
  {
    ReachableIsSound(v);
    RateLimiter.DequeIsRecentHistory(v.admissions);
  }

  // ---- escalation timers from before a reschedule ----

  /** Does this step invalidate the escalation timers asleep? */
  predicate Reschedules(w: World, e: Event) {
    (e.SettingsSet? && e.settings != w.inner.settings) || (e.ScopeSet? && e.scope != w.inner.tracker.scope)
  }

  lemma EscalationGenerationGrows(w: World, e: Event)
    requires Enabled(w, e)
    ensures InnerStep(w, e).escalationGeneration ==
            w.inner.escalationGeneration + (if Reschedules(w, e) then 1 else 0)
  {}

  lemma {:induction false} EscalationGenerationNeverFalls(w: World, es: Trace<Event>)
    requires Runs(w, es)
    ensures Run(w, es).inner.escalationGeneration >= w.inner.escalationGeneration
    decreases es
  {
    if es.Then? {
      EscalationGenerationGrows(w, es.head);
      EscalationGenerationNeverFalls(Step(w, es.head), es.tail);
    }
  }

  /** A timer scheduled before a change of the schedule or of the scope never finds anything due again. */
  lemma RescheduledTimersStayDead(w: World, e: Event, es: Trace<Event>, subjects: set<Subject>, leadSecs: nat, generation: nat)
    requires Enabled(w, e) && Reschedules(w, e) && Runs(Step(w, e), es)
    requires generation <= w.inner.escalationGeneration
    ensures Due(Run(Step(w, e), es).inner, subjects, leadSecs, generation) == {}
  {
    EscalationGenerationGrows(w, e);
    EscalationGenerationNeverFalls(Step(w, e), es);
  }
}
