/**
 The request-attention coordinator in place (attention.rs: `AttentionTracker`,
 `AttentionInner`, and the critical sections of `RequestAttention`): objects whose
 methods update maps, sets, a deque, flags and generation counters. Every method
 is proved to have exactly the effect of the function of `Attention` it is named
 after, so the run theorems of `AttentionRuns` speak about this code.
 */
module AttentionClasses {
  import opened Basics
  import opened Debounce
  import A = Attention
  import L = RateLimiter
  import R = RemoteRefresh

  method CollectAll(rs: seq<A.Request>) returns (m: A.Requests)
    ensures m == A.Collect(rs)
  {
    m := map[];
    for n := 0 to |rs|
      invariant m == A.Collect(rs[..n])
    {
      assert rs[..n + 1][..n] == rs[..n];
      m := m[rs[n].id := rs[n]];
    }
    assert rs[..|rs|] == rs;
  }

  class AttentionTracker {
    var scope: string
    var active: A.Requests
    var pending: set<string>

    function View(): A.Tracker
      reads this
    {
      A.Tracker(scope, active, pending)
    }

    constructor ()
      ensures View() == A.Tracker("", map[], {})
    {
      scope, active, pending := "", map[], {};
    }

    method SetScope(s: string) returns (changed: bool)
      modifies this
      ensures changed == (old(scope) != s)
      ensures View() == if changed then A.Tracker(s, map[], {}) else old(View())
    {
      if scope == s {
        return false;
      }
      scope, active, pending := s, map[], {};
      return true;
    }

    method Upsert(r: A.Request, announceIfNew: bool) returns (added: bool)
      modifies this
      ensures added == (r.id !in old(active) && announceIfNew)
      ensures View() == A.Track(old(View()), r, announceIfNew)
    {
      var isNew := r.id !in active;
      active := active[r.id := r];
      if isNew && announceIfNew {
        pending := pending + {r.id};
      }
      added := isNew && announceIfNew;
    }

    method Reconcile(approvals: seq<A.Request>) returns (resolved: set<string>, added: bool)
      modifies this
      ensures View() == A.Reconciled(old(View()), A.Collect(approvals))
      ensures resolved == old(active).Keys - A.Collect(approvals).Keys
      ensures added == (A.Collect(approvals).Keys - old(active).Keys != {})
    {
      var next := CollectAll(approvals);
      resolved := active.Keys - next.Keys;
      var newIds := next.Keys - active.Keys;
      active := next;
      pending := set id | id in pending && id in active;
      pending := pending + newIds;
      added := newIds != {};
    }

    method Adopt(approvals: seq<A.Request>) returns (resolved: set<string>)
      modifies this
      ensures View() == A.Adopted(old(View()), A.Collect(approvals))
      ensures resolved == old(active).Keys - A.Collect(approvals).Keys
    {
      var next := CollectAll(approvals);
      resolved := active.Keys - next.Keys;
      active := next;
      pending := set id | id in pending && id in active;
    }

    method Resolve(id: string) returns (resolved: Option<A.Request>)
      modifies this
      ensures View() == A.Dropped(old(View()), id)
      ensures resolved == if id in old(active) then Some(old(active)[id]) else None
    {
      resolved := if id in active then Some(active[id]) else None;
      active := active - {id};
      pending := pending - {id};
    }

    method TakePending() returns (requests: A.Requests)
      modifies this
      ensures View() == old(View()).(pending := {})
      ensures requests == A.Taken(old(View()))
    {
      var ids := pending;
      pending := {};
      requests := map id | id in ids && id in active :: active[id];
    }
  }

  // ---- the half-way states of crossing one subject off ----

  /** The banners after all but `todo` lost the subject. */
  ghost function HalfCrossed(b: A.Banners, subject: A.Subject, todo: set<A.Key>): A.Banners {
    map k | k in b :: if k in todo then b[k] else b[k].(subjects := b[k].subjects - {subject})
  }

  ghost function Emptied(b: A.Banners, subject: A.Subject, todo: set<A.Key>): set<A.Key> {
    set k | k in b && k !in todo && b[k].subjects <= {subject}
  }

  ghost function NativesOf(b: A.Banners, keys: set<A.Key>): map<A.Key, string> {
    map k | k in b && k in keys && b[k].native.Some? :: b[k].native.value
  }

  lemma HalfCrossedStep(b: A.Banners, subject: A.Subject, todo: set<A.Key>, k: A.Key)
    requires k in todo && k in b
    ensures var c := b[k].(subjects := b[k].subjects - {subject});
            && HalfCrossed(b, subject, todo)[k := c] == HalfCrossed(b, subject, todo - {k})
            && Emptied(b, subject, todo - {k}) == Emptied(b, subject, todo) + (if c.subjects == {} then {k} else {})
  {
    assert b[k].subjects <= {subject} <==> b[k].subjects - {subject} == {};
  }

  lemma NativesOfStep(b: A.Banners, keys: set<A.Key>, k: A.Key)
    requires k in b
    ensures NativesOf(b, keys + {k}) ==
            if b[k].native.Some? then NativesOf(b, keys)[k := b[k].native.value] else NativesOf(b, keys)
  {}

  lemma RemovedIsCrossed(b: A.Banners, subject: A.Subject)
    ensures var h, e := HalfCrossed(b, subject, {}), Emptied(b, subject, {});
            h - e == A.Crossed(b, {subject}) && NativesOf(h, e) == A.Withdrawn(b, {subject})
  {}

  lemma DepartedIds(i: A.Inner, approvals: A.Requests, parked: A.Requests)
    ensures A.Departed(i, approvals, parked) ==
            (set id | id in i.tracker.active.Keys - approvals.Keys :: A.Approval(id))
            + (set id | id in i.elicitations && id !in parked :: A.Elicitation(id))
  {}

  datatype EnqueueResult = Unavailable | NothingToSay | Queued

  class AttentionInner {
    const tracker: AttentionTracker
    var settings: A.Settings
    var flushGeneration: nat
    var flushScheduled: bool
    var expiryGeneration: nat
    var expiryScheduled: bool
    var pendingExpirations: A.Requests
    var refreshGeneration: nat
    var lastVersion: Option<R.Version>
    var elicitations: A.Requests
    var available: bool
    var notificationTimes: seq<nat>
    var stormAnnounced: bool
    var escalationGeneration: nat
    var escalated: set<A.Subject>
    var banners: A.Banners

    function View(): A.Inner
      reads this, tracker
    {
      A.Inner(tracker.View(), settings, Debouncer(flushGeneration, flushScheduled),
              Debouncer(expiryGeneration, expiryScheduled), pendingExpirations,
              R.Refresh(refreshGeneration, lastVersion), elicitations, available,
              L.Limiter(notificationTimes, stormAnnounced), escalationGeneration, escalated, banners)
    }

    /** No banner without a subject is ever kept. */
    ghost predicate Valid()
      reads this
    {
      forall k <- banners :: banners[k].subjects != {}
    }

    constructor (s: A.Settings)
      ensures Valid() && View() == A.Fresh(s) && fresh(tracker)
    {
      tracker := new AttentionTracker();
      settings := s;
      flushGeneration, flushScheduled, expiryGeneration, expiryScheduled := 0, false, 0, false;
      pendingExpirations, elicitations, available := map[], map[], false;
      refreshGeneration, lastVersion := 0, None;
      notificationTimes, stormAnnounced := [], false;
      escalationGeneration, escalated, banners := 0, {}, map[];
    }

    // ---- banners ----

    /** Cross one subject off every banner, then remove the emptied ones and collect their identifiers. */
    method ResolveNotificationSubject(subject: A.Subject) returns (handed: map<A.Key, string>)
      requires Valid()
      modifies this`banners
      ensures Valid()
      ensures banners == A.Crossed(old(banners), {subject})
      ensures handed == A.Withdrawn(old(banners), {subject})
    {
      var empty := CrossOff(subject);
      handed := Remove(empty);
      RemovedIsCrossed(old(banners), subject);
    }

    method CrossOff(subject: A.Subject) returns (empty: set<A.Key>)
      modifies this`banners
      ensures banners == HalfCrossed(old(banners), subject, {})
      ensures empty == Emptied(old(banners), subject, {})
    {
      var todo := banners.Keys;
      empty := {};
      while todo != {}
        invariant todo <= old(banners).Keys
        invariant banners == HalfCrossed(old(banners), subject, todo)
        invariant empty == Emptied(old(banners), subject, todo)
        decreases |todo|
      {
        var k :| k in todo;
        HalfCrossedStep(old(banners), subject, todo, k);
        var left := banners[k].subjects - {subject};
        banners := banners[k := banners[k].(subjects := left)];
        if left == {} {
          empty := empty + {k};
        }
        todo := todo - {k};
      }
    }

    method Remove(keys: set<A.Key>) returns (handed: map<A.Key, string>)
      requires keys <= banners.Keys
      modifies this`banners
      ensures banners == old(banners) - keys
      ensures handed == NativesOf(old(banners), keys)
    {
      handed := map[];
      var todo := keys;
      while todo != {}
        invariant todo <= keys
        invariant banners == old(banners) - (keys - todo)
        invariant handed == NativesOf(old(banners), keys - todo)
        decreases |todo|
      {
        var k :| k in todo;
        NativesOfStep(old(banners), keys - todo, k);
        assert keys - (todo - {k}) == (keys - todo) + {k};
        if banners[k].native.Some? {
          handed := handed[k := banners[k].native.value];
        }
        banners := banners - {k};
        todo := todo - {k};
      }
      assert keys - todo == keys;
    }

    /** Resolve a batch of subjects one after the other, as the queue replacements do. */
    method ResolveAll(gone: set<A.Subject>) returns (handed: map<A.Key, string>)
      requires Valid()
      modifies this`banners, this`escalated
      ensures Valid()
      ensures banners == A.Crossed(old(banners), gone)
      ensures handed == A.Withdrawn(old(banners), gone)
      ensures escalated == old(escalated) - gone
    {
      handed := map[];
      var todo := gone;
      ghost var done: set<A.Subject> := {};
      NothingToCross();
      while todo != {}
        invariant Valid()
        invariant done == gone - todo && todo <= gone
        invariant banners == A.Crossed(old(banners), done)
        invariant handed == A.Withdrawn(old(banners), done)
        invariant escalated == old(escalated) - done
        decreases |todo|
      {
        var subject :| subject in todo;
        A.CrossedInTwoSteps(old(banners), done, {subject});
        var more := ResolveNotificationSubject(subject);
        handed := handed + more;
        escalated := escalated - {subject};
        todo := todo - {subject};
        done := done + {subject};
      }
      assert done == gone;
    }

    lemma NothingToCross()
      requires Valid()
      ensures A.Crossed(banners, {}) == banners && A.Withdrawn(banners, {}) == map[]
    {
      assert forall k <- banners :: banners[k].subjects - {} == banners[k].subjects;
    }

    method EnqueueNotification(key: A.Key, subjects: set<A.Subject>, filterActive: bool)
      returns (result: EnqueueResult)
      requires Valid()
      modifies this`banners
      ensures Valid() && View() == A.Enqueue(old(View()), key, subjects, filterActive)
      ensures result == if !available then Unavailable
                        else if A.Represented(old(View()), subjects, filterActive) == {} then NothingToSay
                        else Queued
    {
      if !available {
        return Unavailable;
      }
      var kept := subjects;
      if filterActive {
        kept := set s | s in subjects && A.SubjectActive(View(), s);
      }
      if kept == {} {
        return NothingToSay;
      }
      banners := banners[key := A.Banner(kept, None)];
      return Queued;
    }

    method AttachNativeNotification(key: A.Key, native: Option<string>) returns (observe: bool)
      modifies this`banners
      ensures old(Valid()) ==> Valid()
      ensures View() == A.Attach(old(View()), key, native)
      ensures observe == (key in banners)
    {
      if key !in banners {
        return false;
      }
      if banners[key].subjects == {} {
        banners := banners - {key};
        return false;
      }
      banners := banners[key := banners[key].(native := native)];
      return true;
    }

    method NotificationFinished(key: A.Key)
      requires Valid()
      modifies this`banners
      ensures Valid() && View() == A.Finish(old(View()), key)
    {
      banners := banners - {key};
    }

    // ---- broker callbacks ----

    method SetScope(scope: string) returns (handed: map<A.Key, string>)
      requires Valid()
      modifies this, tracker
      ensures Valid() && View() == A.SetScope(old(View()), scope)
      ensures handed == if old(tracker.scope) == scope then map[] else A.AllNative(old(banners))
    {
      var changed := tracker.SetScope(scope);
      if !changed {
        return map[];
      }
      handed := ClearNotifications();
      ForgetScope();
    }

    method ClearNotifications() returns (handed: map<A.Key, string>)
      modifies this`banners
      ensures banners == map[] && handed == A.AllNative(old(banners))
    {
      handed := map k | k in banners && banners[k].native.Some? :: banners[k].native.value;
      banners := map[];
    }

    /** Everything a scope change forgets besides the tracker and the banners. */
    method ForgetScope()
      modifies this`flushGeneration, this`flushScheduled, this`expiryGeneration, this`expiryScheduled,
               this`pendingExpirations, this`refreshGeneration, this`lastVersion, this`elicitations,
               this`notificationTimes, this`stormAnnounced, this`escalationGeneration, this`escalated
      ensures flushGeneration == old(flushGeneration) + 1 && !flushScheduled
      ensures expiryGeneration == old(expiryGeneration) + 1 && !expiryScheduled
      ensures refreshGeneration == old(refreshGeneration) + 1 && lastVersion == None
      ensures pendingExpirations == map[] && elicitations == map[]
      ensures notificationTimes == [] && !stormAnnounced
      ensures escalationGeneration == old(escalationGeneration) + 1 && escalated == {}
    {
      flushGeneration, flushScheduled := flushGeneration + 1, false;
      expiryGeneration, expiryScheduled := expiryGeneration + 1, false;
      pendingExpirations := map[];
      refreshGeneration, lastVersion := refreshGeneration + 1, None;
      elicitations := map[];
      notificationTimes, stormAnnounced := [], false;
      escalationGeneration, escalated := escalationGeneration + 1, {};
    }

    method ScheduleGeneration(added: bool) returns (token: Option<nat>)
      modifies this`flushScheduled
      ensures Debouncer(flushGeneration, flushScheduled) == Schedule(old(Debouncer(flushGeneration, flushScheduled)), added)
      ensures token == Token(old(Debouncer(flushGeneration, flushScheduled)), added)
    {
      if !added || flushScheduled {
        return None;
      }
      flushScheduled := true;
      return Some(flushGeneration);
    }

    method QueueExpiration(r: A.Request) returns (token: Option<nat>)
      modifies this`expiryScheduled, this`pendingExpirations
      ensures pendingExpirations == old(pendingExpirations)[r.id := r]
      ensures Debouncer(expiryGeneration, expiryScheduled) == Schedule(old(Debouncer(expiryGeneration, expiryScheduled)), true)
      ensures token == Token(old(Debouncer(expiryGeneration, expiryScheduled)), true)
    {
      pendingExpirations := pendingExpirations[r.id := r];
      if expiryScheduled {
        return None;
      }
      expiryScheduled := true;
      return Some(expiryGeneration);
    }

    method Upsert(r: A.Request, announceIfNew: bool) returns (token: Option<nat>)
      requires Valid()
      modifies this`flushScheduled, tracker
      ensures Valid() && View() == A.Upsert(old(View()), r, announceIfNew)
      ensures token == Token(old(View()).flush, A.Announces(old(View()), r, announceIfNew))
    {
      var added := tracker.Upsert(r, announceIfNew);
      token := ScheduleGeneration(added);
    }

    method Resolve(id: string, expired: bool) returns (handed: map<A.Key, string>, token: Option<nat>)
      requires Valid()
      modifies this, tracker
      ensures Valid() && View() == A.Resolve(old(View()), id, expired)
      ensures handed == A.Withdrawn(old(banners), {A.Approval(id)})
      ensures token == Token(old(View()).expiry, A.Expires(old(View()), id, expired))
    {
      var resolved := tracker.Resolve(id);
      token := None;
      if expired && resolved.Some? {
        token := QueueExpiration(resolved.value);
      }
      handed := ResolveNotificationSubject(A.Approval(id));
      escalated := escalated - {A.Approval(id)};
    }

    method AddElicitation(e: A.Request) returns (added: bool)
      requires Valid()
      modifies this`elicitations
      ensures Valid() && View() == A.AddElicitation(old(View()), e)
      ensures added == (e.id !in old(elicitations))
    {
      added := e.id !in elicitations;
      elicitations := elicitations[e.id := e];
    }

    method RemoveElicitation(id: string) returns (handed: map<A.Key, string>)
      requires Valid()
      modifies this
      ensures Valid() && View() == A.RemoveElicitation(old(View()), id)
      ensures handed == A.Withdrawn(old(banners), {A.Elicitation(id)})
    {
      elicitations := elicitations - {id};
      handed := ResolveNotificationSubject(A.Elicitation(id));
      escalated := escalated - {A.Elicitation(id)};
    }

    method Reseed(approvals: seq<A.Request>, parked: seq<A.Request>) returns (handed: map<A.Key, string>)
      requires Valid()
      modifies this, tracker
      ensures Valid() && View() == A.Reseed(old(View()), A.Collect(approvals), A.Collect(parked))
      ensures handed == A.Withdrawn(old(banners), A.Departed(old(View()), A.Collect(approvals), A.Collect(parked)))
    {
      var resolved := tracker.Adopt(approvals);
      DepartedIds(old(View()), A.Collect(approvals), A.Collect(parked));
      handed := ReplaceElicitations(resolved, parked);
    }

    /** The shared end of the two queue replacements: new elicitations in, resolved subjects out. */
    method ReplaceElicitations(resolved: set<string>, parked: seq<A.Request>) returns (handed: map<A.Key, string>)
      requires Valid()
      modifies this`elicitations, this`banners, this`escalated
      ensures Valid() && elicitations == A.Collect(parked)
      ensures var gone := (set id | id in resolved :: A.Approval(id))
                          + (set id | id in old(elicitations) && id !in A.Collect(parked) :: A.Elicitation(id));
              && handed == A.Withdrawn(old(banners), gone)
              && banners == A.Crossed(old(banners), gone)
              && escalated == old(escalated) - gone
    {
      var next := CollectAll(parked);
      var gone := set id | id in elicitations && id !in next :: A.Elicitation(id);
      elicitations := next;
      handed := ResolveAll((set id | id in resolved :: A.Approval(id)) + gone);
    }

    method ReconcileRemote(generation: nat, version: Option<R.Version>,
                           approvals: seq<A.Request>, parked: seq<A.Request>)
      returns (applied: bool, handed: map<A.Key, string>, token: Option<nat>)
      requires Valid()
      modifies this, tracker
      ensures Valid()
      ensures View() == A.Reconcile(old(View()), generation, version, A.Collect(approvals), A.Collect(parked))
      ensures applied == A.AcceptsSnapshot(old(View()), generation, version)
      ensures handed == if applied then A.Withdrawn(old(banners), A.Departed(old(View()), A.Collect(approvals), A.Collect(parked))) else map[]
      ensures token == Token(old(View()).flush, applied && A.Collect(approvals).Keys - old(tracker.active).Keys != {})
    {
      if version.None? || !AcceptsRemoteVersion(generation, version.value) {
        return false, map[], None;
      }
      lastVersion := version;
      handed, token := ReplaceQueues(approvals, parked);
      applied := true;
    }

    /** The rest of an accepted snapshot: both queues replaced, new requests scheduled, departed subjects resolved. */
    method ReplaceQueues(approvals: seq<A.Request>, parked: seq<A.Request>)
      returns (handed: map<A.Key, string>, token: Option<nat>)
      requires Valid()
      modifies this`flushScheduled, this`elicitations, this`banners, this`escalated, tracker
      ensures Valid()
      ensures tracker.View() == A.Reconciled(old(tracker.View()), A.Collect(approvals))
      ensures elicitations == A.Collect(parked)
      ensures Debouncer(flushGeneration, flushScheduled) ==
              Schedule(old(View()).flush, A.Collect(approvals).Keys - old(tracker.active).Keys != {})
      ensures token == Token(old(View()).flush, A.Collect(approvals).Keys - old(tracker.active).Keys != {})
      ensures var gone := A.Departed(old(View()), A.Collect(approvals), A.Collect(parked));
              && handed == A.Withdrawn(old(banners), gone)
              && banners == A.Crossed(old(banners), gone)
              && escalated == old(escalated) - gone
    {
      var resolved, added := tracker.Reconcile(approvals);
      token := ScheduleGeneration(added);
      DepartedIds(old(View()), A.Collect(approvals), A.Collect(parked));
      handed := ReplaceElicitations(resolved, parked);
    }

    predicate AcceptsRemoteVersion(generation: nat, version: R.Version)
      reads this
    {
      match lastVersion
      case Some(last) => if last.epoch == version.epoch then version.seq_ > last.seq_ else generation == refreshGeneration
      case None => generation == refreshGeneration
    }

    method BeginRemoteRefresh() returns (generation: nat)
      requires Valid()
      modifies this`refreshGeneration
      ensures Valid() && View() == old(View()).(refresh := R.Begin(old(View()).refresh))
      ensures generation == refreshGeneration
    {
      refreshGeneration := refreshGeneration + 1;
      return refreshGeneration;
    }

    // ---- timers ----

    method TakePendingFlush(generation: nat) returns (requests: A.Requests)
      requires Valid()
      modifies this`flushScheduled, tracker
      ensures Valid() && View() == A.FlushFires(old(View()), generation)
      ensures requests == if generation == old(flushGeneration) then A.Taken(old(tracker.View())) else map[]
    {
      if generation != flushGeneration {
        return map[];
      }
      flushScheduled := false;
      requests := tracker.TakePending();
    }

    method TakePendingExpirations(generation: nat) returns (requests: A.Requests)
      requires Valid()
      modifies this`expiryScheduled, this`pendingExpirations
      ensures Valid() && View() == A.ExpiryFires(old(View()), generation)
      ensures requests == if generation == old(expiryGeneration) then old(pendingExpirations) else map[]
    {
      if generation != expiryGeneration {
        return map[];
      }
      expiryScheduled := false;
      requests := pendingExpirations;
      pendingExpirations := map[];
    }

    method TakeDueEscalation(subjects: set<A.Subject>, leadSecs: nat, generation: nat) returns (due: set<A.Subject>)
      requires Valid()
      modifies this`escalated
      ensures Valid() && View() == A.Escalate(old(View()), subjects, leadSecs, generation)
      ensures due == A.Due(old(View()), subjects, leadSecs, generation)
    {
      if escalationGeneration != generation || settings.escalationSecs != leadSecs || settings.mode == A.Off {
        return {};
      }
      due := set s | s in subjects && A.SubjectActive(View(), s) && s !in escalated;
      escalated := escalated + due;
    }

    method SetSettings(s: A.Settings) returns (reschedule: set<A.Subject>)
      requires Valid()
      modifies this`settings, this`escalationGeneration
      ensures Valid() && View() == A.SetSettings(old(View()), s)
      ensures reschedule == if old(settings) != s && s.mode != A.Off then A.ActiveSubjects(old(View())) else {}
    {
      var changed := settings.escalationSecs != s.escalationSecs || settings.mode != s.mode;
      settings := s;
      if changed {
        escalationGeneration := escalationGeneration + 1;
      }
      reschedule := if changed && s.mode != A.Off then A.ActiveSubjects(View()) else {};
    }

    /** Drop expired admissions from the front of the deque, then decide. */
    method AdmitNotification(now: nat) returns (verdict: L.Admission)
      requires Valid()
      modifies this`notificationTimes, this`stormAnnounced
      ensures Valid() && View() == old(View()).(limiter := L.Admit(old(View()).limiter, now))
      ensures verdict == L.Verdict(old(View()).limiter, now)
    {
      ghost var k := 0;
      while notificationTimes != [] && L.Expired(now, notificationTimes[0])
        invariant k <= |old(notificationTimes)| && notificationTimes == old(notificationTimes)[k..]
        invariant forall i | 0 <= i < k :: L.Expired(now, old(notificationTimes)[i])
        invariant unchanged(this`stormAnnounced)
        decreases |notificationTimes|
      {
        notificationTimes := notificationTimes[1..];
        k := k + 1;
      }
      assert k == L.FirstFresh(old(notificationTimes), now, 0);
      if notificationTimes == [] {
        stormAnnounced := false;
      }
      if |notificationTimes| < L.LIMIT {
        notificationTimes := notificationTimes + [now];
        verdict := L.Normal;
      } else if !stormAnnounced {
        stormAnnounced := true;
        verdict := L.Storm;
      } else {
        verdict := L.Suppressed;
      }
    }
  }
}
