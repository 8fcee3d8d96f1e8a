/**
 The request-attention coordinator as values (attention.rs: `AttentionTracker`,
 `AttentionInner` and the lock sections of `RequestAttention`).

 Each function is one critical section of the coordinator's lock. Subjects are a
 datatype in place of prefixed strings, and unordered containers stand for the
 ordered ones. `AttentionClasses` holds the in-place form and proves it against
 these functions; `AttentionRuns` states what every interleaving keeps.
 */
module Attention {
  import opened Basics
  import opened Debounce
  import RateLimiter
  import RemoteRefresh

  datatype Subject = Approval(id: string) | Elicitation(id: string) | Expired(id: string)

  /** A parked approval or elicitation. */
  datatype Request = Request(id: string, agent: string, connection: string, deadline: Option<nat>)

  datatype Mode = Off | WhenHidden | Always

  datatype Settings = Settings(mode: Mode, escalationSecs: nat)

  type Requests = map<string, Request>

  /** A list read into a map; a later entry with the same id wins. */
  function Collect(rs: seq<Request>): Requests {
    if rs == [] then map[] else
      var n := |rs| - 1;
      Collect(rs[..n])[rs[n].id := rs[n]]
  }

  /** Every id listed is collected, under its own id, in its last version. */
  lemma {:induction false} CollectKeepsLast(rs: seq<Request>, id: string)
    ensures id in Collect(rs) <==> exists i | 0 <= i < |rs| :: rs[i].id == id
    ensures id in Collect(rs) ==>
              exists i | 0 <= i < |rs| ::
                Collect(rs)[id] == rs[i] && rs[i].id == id && forall j | i < j < |rs| :: rs[j].id != id
  {
    if rs != [] {
      var n := |rs| - 1;
      var prior := rs[..n];
      CollectKeepsLast(prior, id);
      assert forall i | 0 <= i < n :: prior[i] == rs[i];
      if rs[n].id != id && id in Collect(prior) {
        var i :| 0 <= i < n && Collect(prior)[id] == prior[i] && prior[i].id == id
                 && forall j | i < j < n :: prior[j].id != id;
        assert Collect(rs)[id] == rs[i] && rs[i].id == id;
        assert forall j | i < j < |rs| :: rs[j].id != id;
      }
    }
  }

  // ---- the tracker ----

  datatype Tracker = Tracker(scope: string, active: Requests, pending: set<string>)

  function Track(t: Tracker, r: Request, announce: bool): Tracker {
    t.(active := t.active[r.id := r],
       pending := if r.id !in t.active && announce then t.pending + {r.id} else t.pending)
  }

  function Reconciled(t: Tracker, next: Requests): Tracker {
    t.(active := next, pending := (t.pending * next.Keys) + (next.Keys - t.active.Keys))
  }

  function Adopted(t: Tracker, next: Requests): Tracker {
    t.(active := next, pending := t.pending * next.Keys)
  }

  function Dropped(t: Tracker, id: string): Tracker {
    t.(active := t.active - {id}, pending := t.pending - {id})
  }

  /** What a flush hands over: the pending requests that are still active. */
  function Taken(t: Tracker): Requests {
    map id | id in t.pending && id in t.active :: t.active[id]
  }

  // ---- banners ----

  type Key = string

  datatype Banner = Banner(subjects: set<Subject>, native: Option<string>)

  type Banners = map<Key, Banner>

  /** Cross `gone` off every banner; a banner with nothing left to say is forgotten. */
  function Crossed(b: Banners, gone: set<Subject>): Banners {
    map k | k in b && !(b[k].subjects <= gone) :: b[k].(subjects := b[k].subjects - gone)
  }

  /** The native identifiers to withdraw when `gone` is crossed off, by banner. */
  function Withdrawn(b: Banners, gone: set<Subject>): map<Key, string> {
    map k | k in b && b[k].subjects <= gone && b[k].native.Some? :: b[k].native.value
  }

  function AllNative(b: Banners): map<Key, string> {
    map k | k in b && b[k].native.Some? :: b[k].native.value
  }

  /** Crossing off one by one or all at once comes to the same banners and the same withdrawals. */
  lemma CrossedInTwoSteps(b: Banners, first: set<Subject>, second: set<Subject>)
    ensures Crossed(Crossed(b, first), second) == Crossed(b, first + second)
    ensures Withdrawn(b, first) + Withdrawn(Crossed(b, first), second) == Withdrawn(b, first + second)
    ensures Withdrawn(b, first).Keys !! Withdrawn(Crossed(b, first), second).Keys
  {
    var c := Crossed(b, first);
    forall k | k in c ensures c[k].subjects <= second <==> b[k].subjects <= first + second {
      assert c[k].subjects == b[k].subjects - first;
    }
    assert forall k <- b :: k in Crossed(c, second) ==>
      Crossed(c, second)[k].subjects == b[k].subjects - (first + second);
  }

  // ---- the coordinator ----

  datatype Inner = Inner(
    tracker: Tracker,
    settings: Settings,
    flush: Debouncer,
    expiry: Debouncer,
    pendingExpirations: Requests,
    refresh: RemoteRefresh.Refresh,
    elicitations: Requests,
    available: bool,
    limiter: RateLimiter.Limiter,
    escalationGeneration: nat,
    escalated: set<Subject>,
    banners: Banners)

  function Fresh(settings: Settings): Inner {
    Inner(Tracker("", map[], {}), settings, Debouncer(0, false), Debouncer(0, false), map[],
          RemoteRefresh.Refresh(0, None), map[], false, RateLimiter.EMPTY, 0, {}, map[])
  }

  predicate SubjectActive(i: Inner, s: Subject) {
    match s
    case Approval(id) => id in i.tracker.active
    case Elicitation(id) => id in i.elicitations
    case Expired(_) => false
  }

  function ActiveSubjects(i: Inner): set<Subject> {
    (set id | id in i.tracker.active :: Approval(id)) + (set id | id in i.elicitations :: Elicitation(id))
  }

  /** The subjects that two replacement queues no longer mention. */
  function Departed(i: Inner, approvals: Requests, elicitations: Requests): set<Subject> {
    (set id | id in i.tracker.active && id !in approvals :: Approval(id))
    + (set id | id in i.elicitations && id !in elicitations :: Elicitation(id))
  }

  /** Resolved subjects lose their banners and their escalation mark. */
  function Leave(i: Inner, gone: set<Subject>): Inner {
    i.(banners := Crossed(i.banners, gone), escalated := i.escalated - gone)
  }

  function SetScope(i: Inner, scope: string): Inner {
    if i.tracker.scope == scope then i else
      Inner(Tracker(scope, map[], {}), i.settings, Reset(i.flush), Reset(i.expiry), map[],
            RemoteRefresh.Rescope(i.refresh), map[], i.available, RateLimiter.EMPTY,
            i.escalationGeneration + 1, {}, map[])
  }

  predicate Announces(i: Inner, r: Request, announce: bool) {
    r.id !in i.tracker.active && announce
  }

  function Upsert(i: Inner, r: Request, announce: bool): Inner {
    i.(tracker := Track(i.tracker, r, announce), flush := Schedule(i.flush, Announces(i, r, announce)))
  }

  predicate Expires(i: Inner, id: string, expired: bool) {
    expired && id in i.tracker.active
  }

  function Resolve(i: Inner, id: string, expired: bool): Inner {
    var queued := if Expires(i, id, expired)
      then i.pendingExpirations[i.tracker.active[id].id := i.tracker.active[id]] else i.pendingExpirations;
    Leave(i.(tracker := Dropped(i.tracker, id),
             pendingExpirations := queued,
             expiry := Schedule(i.expiry, Expires(i, id, expired))),
          {Approval(id)})
  }

  function AddElicitation(i: Inner, e: Request): Inner {
    i.(elicitations := i.elicitations[e.id := e])
  }

  function RemoveElicitation(i: Inner, id: string): Inner {
    Leave(i.(elicitations := i.elicitations - {id}), {Elicitation(id)})
  }

  function Reseed(i: Inner, approvals: Requests, elicitations: Requests): Inner {
    Leave(i.(tracker := Adopted(i.tracker, approvals), elicitations := elicitations),
          Departed(i, approvals, elicitations))
  }

  predicate AcceptsSnapshot(i: Inner, generation: nat, version: Option<RemoteRefresh.Version>) {
    version.Some? && RemoteRefresh.Accepts(i.refresh, generation, version.value)
  }

  /** A malformed version is `None`; a snapshot that is not accepted changes nothing. */
  function Reconcile(i: Inner, generation: nat, version: Option<RemoteRefresh.Version>,
                     approvals: Requests, elicitations: Requests): Inner {
    if !AcceptsSnapshot(i, generation, version) then i else
      Leave(i.(tracker := Reconciled(i.tracker, approvals),
               elicitations := elicitations,
               refresh := RemoteRefresh.Apply(i.refresh, version.value),
               flush := Schedule(i.flush, approvals.Keys - i.tracker.active.Keys != {})),
            Departed(i, approvals, elicitations))
  }

  function SetSettings(i: Inner, settings: Settings): Inner {
    i.(settings := settings,
       escalationGeneration := i.escalationGeneration + (if i.settings != settings then 1 else 0))
  }

  function FlushFires(i: Inner, generation: nat): Inner {
    if !Current(i.flush, generation) then i
    else i.(flush := Fire(i.flush, generation), tracker := i.tracker.(pending := {}))
  }

  function ExpiryFires(i: Inner, generation: nat): Inner {
    if !Current(i.expiry, generation) then i
    else i.(expiry := Fire(i.expiry, generation), pendingExpirations := map[])
  }

  /** The subjects an escalation timer finds due: still waiting and never escalated. */
  function Due(i: Inner, subjects: set<Subject>, leadSecs: nat, generation: nat): set<Subject> {
    if i.escalationGeneration != generation || i.settings.escalationSecs != leadSecs || i.settings.mode == Off
    then {}
    else set s | s in subjects && SubjectActive(i, s) && s !in i.escalated
  }

  function Escalate(i: Inner, subjects: set<Subject>, leadSecs: nat, generation: nat): Inner {
    i.(escalated := i.escalated + Due(i, subjects, leadSecs, generation))
  }

  /** What a banner asked for `subjects` would represent; empty means none is queued. */
  function Represented(i: Inner, subjects: set<Subject>, filterActive: bool): set<Subject> {
    if !i.available then {}
    else if filterActive then set s | s in subjects && SubjectActive(i, s)
    else subjects
  }

  function Enqueue(i: Inner, key: Key, subjects: set<Subject>, filterActive: bool): Inner {
    var r := Represented(i, subjects, filterActive);
    if r == {} then i else i.(banners := i.banners[key := Banner(r, None)])
  }

  predicate Pending(i: Inner, key: Key) {
    key in i.banners && i.banners[key].subjects != {}
  }

  function Attach(i: Inner, key: Key, native: Option<string>): Inner {
    if key !in i.banners then i
    else if i.banners[key].subjects == {} then i.(banners := i.banners - {key})
    else i.(banners := i.banners[key := i.banners[key].(native := native)])
  }

  function Finish(i: Inner, key: Key): Inner {
    i.(banners := i.banners - {key})
  }
}
