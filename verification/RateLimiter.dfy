/**
 The native-banner rate limiter (attention.rs: `admit_notification`).

 The program keeps a deque of recent admissions and one flag. The theorems
 compare it with the full history of calls: the deque is exactly the recent part
 of that history, no window ever holds more banners than the limit, and storm
 warnings are spaced apart.
 */
module RateLimiter {

  /** Nanoseconds. */
  const WINDOW: nat := 60_000_000_000
  const LIMIT: nat := 4

  datatype Admission = Normal | Storm | Suppressed

  datatype Limiter = Limiter(times: seq<nat>, stormAnnounced: bool)

  const EMPTY: Limiter := Limiter([], false)

  /** `Instant::saturating_duration_since` reaches the window. */
  predicate Expired(now: nat, sent: nat) {
    now >= sent && now - sent >= WINDOW
  }

  /** Where the unexpired admissions begin, looking from position `k` on. */
  function FirstFresh(times: seq<nat>, now: nat, k: nat): (r: nat)
    requires k <= |times|
    ensures k <= r <= |times|
    ensures forall i | k <= i < r :: Expired(now, times[i])
    ensures r < |times| ==> !Expired(now, times[r])
    decreases |times| - k
  {
    if k == |times| || !Expired(now, times[k]) then k else FirstFresh(times, now, k + 1)
  }

  function Pruned(times: seq<nat>, now: nat): seq<nat> {
    times[FirstFresh(times, now, 0)..]
  }

  /** The limiter after the expired admissions were dropped. */
  function Refreshed(l: Limiter, now: nat): Limiter {
    var times := Pruned(l.times, now);
    Limiter(times, times != [] && l.stormAnnounced)
  }

  function Verdict(l: Limiter, now: nat): Admission {
    var p := Refreshed(l, now);
    if |p.times| < LIMIT then Normal else if !p.stormAnnounced then Storm else Suppressed
  }

  function Admit(l: Limiter, now: nat): Limiter {
    var p := Refreshed(l, now);
    match Verdict(l, now)
    case Normal => p.(times := p.times + [now])
    case Storm => p.(stormAnnounced := true)
    case Suppressed => p
  }

  // ---- whole histories of calls within one scope ----

  /** All calls since the scope was entered, newest outermost. */
  datatype History = Start | Call(earlier: History, now: nat)

  /** The clock never runs backwards. */
  predicate Monotone(h: History) {
    h.Call? ==> (h.earlier.Call? ==> h.earlier.now <= h.now) && Monotone(h.earlier)
  }

  /** `p` is `h` at some earlier moment, or `h` itself. */
  predicate Prefix(p: History, h: History) {
    p == h || (h.Call? && Prefix(p, h.earlier))
  }

  function Clock(h: History): nat {
    if h.Start? then 0 else h.now
  }

  function After(h: History): Limiter {
    if h.Start? then EMPTY else Admit(After(h.earlier), h.now)
  }

  /** What the newest call of `h` was told. */
  function Told(h: History): Admission
    requires h.Call?
  {
    Verdict(After(h.earlier), h.now)
  }

  /** The times of all Normal admissions, oldest first. */
  function Normals(h: History): seq<nat> {
    if h.Start? then []
    else if Told(h) == Normal then Normals(h.earlier) + [h.now]
    else Normals(h.earlier)
  }

  /** Less than a minute old. */
  predicate Young(now: nat, sent: nat) {
    now < sent + 60_000_000_000
  }

  /** Reference definition of the deque: filter the whole history by age. */
  function Recent(times: seq<nat>, now: nat): seq<nat> {
    if times == [] then []
    else
      var n := |times| - 1;
      Recent(times[..n], now) + (if Young(now, times[n]) then [times[n]] else [])
  }

  ghost predicate Sorted(ts: seq<nat>) {
    forall i, j | 0 <= i < j < |ts| :: ts[i] <= ts[j]
  }

  ghost predicate AllExpired(ts: seq<nat>, now: nat) {
    forall i | 0 <= i < |ts| :: Expired(now, ts[i])
  }

  ghost predicate AllFresh(ts: seq<nat>, now: nat) {
    forall i | 0 <= i < |ts| :: ts[i] <= now && !Expired(now, ts[i])
  }

  /** What pruning removes is an expired prefix; what it keeps is recent. */
  lemma PruneSplits(times: seq<nat>, now: nat) returns (dropped: seq<nat>)
    requires Sorted(times) && forall i | 0 <= i < |times| :: times[i] <= now
    ensures times == dropped + Pruned(times, now)
    ensures AllExpired(dropped, now) && AllFresh(Pruned(times, now), now)
  {
    var k := FirstFresh(times, now, 0);
    dropped := times[..k];
    forall i | 0 <= i < |times[k..]| ensures times[k..][i] <= now && !Expired(now, times[k..][i]) {
      assert times[k] <= times[k + i];
    }
  }

  lemma RecentLast(times: seq<nat>, last: nat, now: nat)
    ensures Recent(times + [last], now) == if Young(now, last) then Recent(times, now) + [last] else Recent(times, now)
  {
    assert (times + [last])[..|times|] == times;
  }

  lemma {:induction false} RecentOfGone(gone: seq<nat>, now: nat)
    requires AllExpired(gone, now)
    ensures Recent(gone, now) == []
  {
    if gone != [] {
      RecentOfGone(gone[..|gone| - 1], now);
    }
  }

  lemma {:induction false} RecentOfSplit(gone: seq<nat>, young: seq<nat>, now: nat)
    requires AllExpired(gone, now) && AllFresh(young, now)
    ensures Recent(gone + young, now) == young
    decreases |young|
  {
    if young == [] {
      assert gone + young == gone;
      RecentOfGone(gone, now);
    } else {
      var n := |young| - 1;
      RecentOfSplit(gone, young[..n], now);
      RecentLast(gone + young[..n], young[n], now);
      assert young == young[..n] + [young[n]];
      assert gone + young == (gone + young[..n]) + [young[n]];
    }
  }

  /** The history splits into admissions the limiter forgot, all expired, and its deque. */
  ghost predicate Refines(l: Limiter, gone: seq<nat>, normals: seq<nat>, now: nat) {
    && normals == gone + l.times
    && Sorted(normals)
    && AllExpired(gone, now)
    && (forall i | 0 <= i < |normals| :: normals[i] <= now)
    && |l.times| <= LIMIT
  }

  lemma SuffixIsSorted(a: seq<nat>, b: seq<nat>, bound: nat)
    requires Sorted(a + b) && forall i | 0 <= i < |a + b| :: (a + b)[i] <= bound
    ensures Sorted(b) && forall i | 0 <= i < |b| :: b[i] <= bound
  {
    forall i | 0 <= i < |b| ensures b[i] == (a + b)[|a| + i] {
    }
  }

  lemma ExpiredStaysExpired(a: seq<nat>, b: seq<nat>, before: nat, now: nat)
    requires AllExpired(a, before) && before <= now && AllExpired(b, now)
    ensures AllExpired(a + b, now)
  {}

  lemma RefreshRefines(l: Limiter, gone: seq<nat>, normals: seq<nat>, before: nat, now: nat)
    returns (older: seq<nat>)
    requires Refines(l, gone, normals, before) && before <= now
    ensures Refines(Refreshed(l, now), older, normals, now)
    ensures AllFresh(Refreshed(l, now).times, now)
  {
    SuffixIsSorted(gone, l.times, now);
    var dropped := PruneSplits(l.times, now);
    ExpiredStaysExpired(gone, dropped, before, now);
    older := gone + dropped;
    assert gone + (dropped + Pruned(l.times, now)) == older + Pruned(l.times, now);
    assert |Pruned(l.times, now)| <= |l.times|;
  }

  lemma PushRefines(l: Limiter, gone: seq<nat>, normals: seq<nat>, now: nat)
    requires Refines(l, gone, normals, now) && |l.times| < LIMIT && AllFresh(l.times, now)
    ensures Refines(l.(times := l.times + [now]), gone, normals + [now], now)
    ensures AllFresh(l.times + [now], now)
  {
    assert gone + (l.times + [now]) == normals + [now];
  }

  lemma AdmitRefines(l: Limiter, gone: seq<nat>, normals: seq<nat>, before: nat, now: nat)
    returns (older: seq<nat>)
    requires Refines(l, gone, normals, before) && before <= now
    ensures Refines(Admit(l, now), older, if Verdict(l, now) == Normal then normals + [now] else normals, now)
    ensures AllFresh(Admit(l, now).times, now)
  {
    older := RefreshRefines(l, gone, normals, before, now);
    if Verdict(l, now) == Normal {
      PushRefines(Refreshed(l, now), older, normals, now);
    }
  }

  lemma {:induction false} HistoryRefines(h: History) returns (gone: seq<nat>)
    requires Monotone(h)
    ensures Refines(After(h), gone, Normals(h), Clock(h))
    ensures AllFresh(After(h).times, Clock(h))
  {
    if h.Start? {
      gone := [];
    } else {
      var o := HistoryRefines(h.earlier);
      gone := AdmitRefines(After(h.earlier), o, Normals(h.earlier), Clock(h.earlier), h.now);
    }
  }

  /** After every call the deque is exactly the Normal admissions younger than the window. */
  lemma DequeIsRecentHistory(h: History)
    requires Monotone(h)
    ensures After(h).times == Recent(Normals(h), Clock(h))
  {
    var gone := HistoryRefines(h);
    RecentOfSplit(gone, After(h).times, Clock(h));
  }

  /** What a call finds left after pruning is the recent part of the history before it. */
  lemma PrunedIsRecent(h: History)
    requires Monotone(h) && h.Call?
    ensures Refreshed(After(h.earlier), h.now).times == Recent(Normals(h.earlier), h.now)
  {
    var o := HistoryRefines(h.earlier);
    var l := After(h.earlier);
    var gone := RefreshRefines(l, o, Normals(h.earlier), Clock(h.earlier), h.now);
    RecentOfSplit(gone, Refreshed(l, h.now).times, h.now);
  }

  /** A call is Normal iff fewer than four Normal admissions precede it within the window. */
  lemma NormalIffRoomInWindow(h: History)
    requires Monotone(h) && h.Call?
    ensures Told(h) == Normal <==> |Recent(Normals(h.earlier), h.now)| < 4
  {
    PrunedIsRecent(h);
    NormalIffRoom(After(h.earlier), h.now);
  }

  lemma NormalIffRoom(l: Limiter, now: nat)
    ensures Verdict(l, now) == Normal <==> |Refreshed(l, now).times| < 4
  {}

  /** The fifth of any five successive Normal admissions is at least a window after the first. */
  lemma {:induction false} NormalsAreSpread(h: History, k: nat)
    requires Monotone(h) && k + LIMIT < |Normals(h)|
    ensures Normals(h)[k + LIMIT] >= Normals(h)[k] + WINDOW
  {
    if k + LIMIT < |Normals(h.earlier)| {
      NormalsAreSpread(h.earlier, k);
    } else {
      var o := HistoryRefines(h.earlier);
      var gone := RefreshRefines(After(h.earlier), o, Normals(h.earlier), Clock(h.earlier), h.now);
      assert Expired(h.now, gone[k]) && Normals(h.earlier)[k] == gone[k];
    }
  }

  lemma NormalsAreSorted(h: History, j: nat, k: nat)
    requires Monotone(h) && j <= k < |Normals(h)|
    ensures Normals(h)[j] <= Normals(h)[k]
  {
    var _ := HistoryRefines(h);
  }

  lemma {:induction false} IntervalSize(s: set<nat>, lo: nat, n: nat)
    requires forall x <- s :: lo <= x < lo + n
    ensures |s| <= n
    decreases n
  {
    if n == 0 {
      assert s == {};
    } else {
      var top := lo + n - 1;
      IntervalSize(s - {top}, lo, n - 1);
      assert s <= (s - {top}) + {top};
    }
  }

  lemma {:induction false} Least(s: set<nat>) returns (m: nat)
    requires s != {}
    ensures m in s && forall x <- s :: m <= x
  {
    var some :| some in s;
    m := some;
    if s != {some} {
      var rest := Least(s - {some});
      m := if rest < some then rest else some;
      assert forall x <- s :: x == some || x in s - {some};
    } else {
      assert forall x <- s :: x == some;
    }
  }

  /** No half-open minute holds more than four Normal admissions. */
  lemma MinuteHoldsFour(h: History, start: nat, chosen: set<nat>)
    requires Monotone(h)
    requires forall k <- chosen :: k < |Normals(h)| && start <= Normals(h)[k] < start + 60_000_000_000
    ensures |chosen| <= 4
  {
    if chosen != {} {
      var m := Least(chosen);
      forall k | k in chosen ensures k < m + 4 {
        if k >= m + 4 {
          NormalsAreSpread(h, m);
          NormalsAreSorted(h, m + 4, k);
        }
      }
      IntervalSize(chosen, m, 4);
    }
  }

  lemma TwentyAreSpread(h: History, k: nat)
    requires Monotone(h) && k + 20 < |Normals(h)|
    ensures Normals(h)[k + 20] >= Normals(h)[k] + 5 * WINDOW
  {
    NormalsAreSpread(h, k);
    NormalsAreSpread(h, k + 4);
    NormalsAreSpread(h, k + 8);
    NormalsAreSpread(h, k + 12);
    NormalsAreSpread(h, k + 16);
  }

  /** No half-open five minutes, the life of a response observer, hold more than twenty. */
  lemma FiveMinutesHoldTwenty(h: History, start: nat, chosen: set<nat>)
    requires Monotone(h)
    requires forall k <- chosen :: k < |Normals(h)| && start <= Normals(h)[k] < start + 300_000_000_000
    ensures |chosen| <= 20
  {
    if chosen != {} {
      var m := Least(chosen);
      forall k | k in chosen ensures k < m + 20 {
        if k >= m + 20 {
          TwentyAreSpread(h, m);
          NormalsAreSorted(h, m + 20, k);
        }
      }
      IntervalSize(chosen, m, 20);
    }
  }

  // ---- storm warnings ----

  /** The newest admission on record in `l`. */
  function Newest(l: Limiter): nat {
    if l.times == [] then 0 else l.times[|l.times| - 1]
  }

  /**
   What holds of the limiter at any time after a storm warning given when `mark`
   was the newest admission: either the warning still stands, or the record was
   emptied since, and then all it holds is at least a window younger than `mark`
   and was admitted after the warning.
   */
  ghost predicate SinceStorm(l: Limiter, now: nat, normalsSince: nat, mark: nat) {
    || (l.stormAnnounced && l.times != [] && Newest(l) >= mark)
    || (&& now >= mark + WINDOW
        && (forall i | 0 <= i < |l.times| :: l.times[i] >= mark + WINDOW)
        && normalsSince >= |l.times|)
  }

  lemma PrunedKeepsNewest(times: seq<nat>, now: nat)
    requires times != []
    ensures var p := Pruned(times, now);
            if p == [] then Expired(now, times[|times| - 1])
            else |p| <= |times| && p[|p| - 1] == times[|times| - 1]
  {}

  lemma PrunedKeepsFloor(times: seq<nat>, now: nat, floor: nat)
    requires forall i | 0 <= i < |times| :: times[i] >= floor
    ensures |Pruned(times, now)| <= |times|
    ensures forall i | 0 <= i < |Pruned(times, now)| :: Pruned(times, now)[i] >= floor
  {}

  /** One more call; a second warning comes only once the first was reset and four more banners went out. */
  lemma StormStep(l: Limiter, before: nat, now: nat, since: nat, mark: nat)
    requires SinceStorm(l, before, since, mark) && before <= now && mark <= now
    ensures SinceStorm(Admit(l, now), now, since + (if Verdict(l, now) == Normal then 1 else 0), mark)
    ensures Verdict(l, now) == Storm ==>
              since >= LIMIT && now >= mark + WINDOW && Newest(Admit(l, now)) >= mark + WINDOW
  {
    if l.times != [] {
      PrunedKeepsNewest(l.times, now);
    }
    if now >= mark + WINDOW && forall i | 0 <= i < |l.times| :: l.times[i] >= mark + WINDOW {
      PrunedKeepsFloor(l.times, now, mark + WINDOW);
    }
  }

  lemma {:induction false} SinceStormHolds(h: History, s: History)
    requires Monotone(h) && Prefix(s, h) && s.Call? && Told(s) == Storm
    ensures |Normals(h)| >= |Normals(s)|
    ensures SinceStorm(After(h), Clock(h), |Normals(h)| - |Normals(s)|, Newest(After(s)))
    ensures Newest(After(s)) <= Clock(h)
  {
    if s == h {
      var _ := HistoryRefines(h);
    } else {
      SinceStormHolds(h.earlier, s);
      StormStep(After(h.earlier), Clock(h.earlier), h.now,
                |Normals(h.earlier)| - |Normals(s)|, Newest(After(s)));
    }
  }

  /** At least four Normal admissions lie between any two storm warnings. */
  lemma StormsAreSpaced(s: History, t: History)
    requires Monotone(t) && t.Call? && Prefix(s, t.earlier) && s.Call?
    requires Told(s) == Storm && Told(t) == Storm
    ensures |Normals(t)| >= |Normals(s)| + 4
    ensures t.now >= Newest(After(s)) + WINDOW
    ensures Newest(After(t)) >= Newest(After(s)) + WINDOW
  {
    SinceStormHolds(t.earlier, s);
    StormStep(After(t.earlier), Clock(t.earlier), t.now,
              |Normals(t.earlier)| - |Normals(s)|, Newest(After(s)));
  }

  lemma {:induction false} PrefixIsMonotone(p: History, h: History)
    requires Monotone(h) && Prefix(p, h)
    ensures Monotone(p)
  {
    if p != h {
      PrefixIsMonotone(p, h.earlier);
    }
  }

  /** Any three storm warnings span strictly more than one window. */
  lemma ThreeStormsOutlastAWindow(s: History, t: History, u: History)
    requires Monotone(u) && u.Call? && Prefix(t, u.earlier) && t.Call? && Prefix(s, t.earlier) && s.Call?
    requires Told(s) == Storm && Told(t) == Storm && Told(u) == Storm
    ensures u.now > s.now + 60_000_000_000
  {
    PrefixIsMonotone(t, u.earlier);
    PrefixIsMonotone(s, t.earlier);
    StormsAreSpaced(s, t);
    StormsAreSpaced(t, u);
    var _ := HistoryRefines(s);
    assert !Expired(s.now, Newest(After(s)));
  }

  // ---- when a storm warning is given ----

  /** Some call after `s`, up to and including `h`, found no Normal admission less than a minute old. */
  ghost predicate ClearedSince(s: History, h: History) {
    exists c :: Prefix(c, h) && c.Call? && Prefix(s, c.earlier) && Recent(Normals(c.earlier), c.now) == []
  }

  ghost predicate IsStorm(s: History, h: History) {
    Prefix(s, h) && s.Call? && Told(s) == Storm
  }

  /** A storm warning was given in `h` and nothing has cleared it since. */
  function Standing(h: History): bool {
    h.Call? && (Told(h) == Storm || (Recent(Normals(h.earlier), h.now) != [] && Standing(h.earlier)))
  }

  function Size(h: History): nat {
    if h.Start? then 0 else 1 + Size(h.earlier)
  }

  lemma {:induction false} PrefixIsShorter(p: History, h: History)
    requires Prefix(p, h)
    ensures Size(p) <= Size(h)
  {
    if p != h {
      PrefixIsShorter(p, h.earlier);
    }
  }

  lemma ClearedStep(s: History, h: History)
    requires h.Call? && Prefix(s, h.earlier)
    ensures ClearedSince(s, h) <==> ClearedSince(s, h.earlier) || Recent(Normals(h.earlier), h.now) == []
  {
    if Recent(Normals(h.earlier), h.now) == [] {
      assert Prefix(h, h);
    }
    if ClearedSince(s, h.earlier) {
      var c :| Prefix(c, h.earlier) && c.Call? && Prefix(s, c.earlier) && Recent(Normals(c.earlier), c.now) == [];
      assert Prefix(c, h);
    }
  }

  lemma NotClearedAtOnce(h: History)
    requires h.Call?
    ensures !ClearedSince(h, h)
  {
    forall c | Prefix(c, h) && c.Call? ensures !Prefix(h, c.earlier) {
      PrefixIsShorter(c, h);
      if Prefix(h, c.earlier) {
        PrefixIsShorter(h, c.earlier);
      }
    }
  }

  lemma {:induction false} StandingIff(h: History)
    ensures Standing(h) <==> exists s :: IsStorm(s, h) && !ClearedSince(s, h)
  {
    if h.Call? {
      StandingIff(h.earlier);
      NotClearedAtOnce(h);
      forall s | Prefix(s, h.earlier) ensures ClearedSince(s, h) <==> ClearedSince(s, h.earlier) || Recent(Normals(h.earlier), h.now) == [] {
        ClearedStep(s, h);
      }
      if Told(h) == Storm {
        assert IsStorm(h, h);
      } else if Standing(h) {
        var s :| IsStorm(s, h.earlier) && !ClearedSince(s, h.earlier);
        assert IsStorm(s, h) && !ClearedSince(s, h);
      }
      if s :| IsStorm(s, h) && !ClearedSince(s, h) {
        assert s == h || IsStorm(s, h.earlier);
      }
    }
  }

  lemma {:induction false} FlagIsStanding(h: History)
    requires Monotone(h)
    ensures After(h).stormAnnounced <==> Standing(h)
  {
    if h.Call? {
      FlagIsStanding(h.earlier);
      PrunedIsRecent(h);
    }
  }

  /**
   A call that is not Normal is told Storm if and only if every earlier storm
   warning was followed by a call that found no Normal admission less than a minute
   old. So the warning is given, once, and again after every lull.
   */
  lemma StormIffNoneStands(h: History)
    requires Monotone(h) && h.Call? && Told(h) != Normal
    ensures Told(h) == Storm <==> forall s :: IsStorm(s, h.earlier) ==> ClearedSince(s, h.earlier)
    ensures Told(h) == Storm || Told(h) == Suppressed
  {
    PrunedIsRecent(h);
    NormalIffRoomInWindow(h);
    FlagIsStanding(h.earlier);
    StandingIff(h.earlier);
  }
}
