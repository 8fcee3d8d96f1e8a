/**
 Refreshing the activity list page by page (ui/src/activity-refresh.ts:
 `refreshActivityPages`).
 */
module ActivityPaging {
  import opened Basics

  const PAGE_LIMIT: nat := 500

  datatype Page<T> = Page(entries: seq<T>, next: Option<nat>)

  /** A pager answers the `call`-th request for a page before a cursor; it may answer differently each time. */
  type Pager<!T> = (nat, Option<nat>, nat) -> Page<T>

  function Max(a: int, b: int): int {
    if a >= b then a else b
  }

  function Min(a: int, b: int): int {
    if a <= b then a else b
  }

  function Target(currentCount: nat, preserveDepth: bool): nat {
    if preserveDepth then Max(PAGE_LIMIT, currentCount) else PAGE_LIMIT
  }

  // ---- a faithful pager over a fixed log ----

  /**
   `log` newest first, `cursor(i)` naming position `i`. Asked before position `i`
   the pager answers some of the entries from there on, at least one and at most
   the limit, and the cursor of where it stopped, if anything is left.
   */
  ghost predicate Faithful<T(!new)>(pager: Pager<T>, log: seq<T>, cursor: nat -> nat) {
    && (forall i, j | 0 <= i < j <= |log| :: cursor(j) < cursor(i))
    && (forall i | 0 <= i <= |log| :: cursor(i) > 0)
    && (forall call, limit | 0 < limit :: Answers(pager(call, None, limit), log, cursor, 0, limit))
    && (forall call, i, limit | 0 <= i <= |log| && 0 < limit ::
          Answers(pager(call, Some(cursor(i)), limit), log, cursor, i, limit))
  }

  ghost predicate Answers<T>(page: Page<T>, log: seq<T>, cursor: nat -> nat, i: nat, limit: nat)
    requires i <= |log|
  {
    var j := i + |page.entries|;
    && j <= |log| && |page.entries| <= limit
    && page.entries == log[i..j]
    && (i < |log| ==> i < j)
    && page.next == (if j < |log| then Some(cursor(j)) else None)
  }

  ghost predicate CursorsFrom<T(!new)>(pager: Pager<T>, finite: set<nat>) {
    forall call, before, limit :: pager(call, before, limit).next.Some? ==> pager(call, before, limit).next.value in finite
  }

  /**
   The loop. It ends for any pager whose cursors come from some finite set, and
   against a faithful pager it returns exactly the newest entries up to the target
   and the cursor of where they stop.
   */
  method RefreshActivityPages<T(!new)>(
      currentCount: nat, preserveDepth: bool, pager: Pager<T>,
      ghost finite: set<nat>, ghost log: seq<T>, ghost cursor: nat -> nat)
    returns (result: Page<T>)
    requires CursorsFrom(pager, finite)
    ensures Faithful(pager, log, cursor) ==>
              var target := if preserveDepth && currentCount > 500 then currentCount else 500;
              var k := if |log| < target then |log| else target;
              result.entries == log[..k] && result.next == (if k < |log| then Some(cursor(k)) else None)
  {
    var target := Target(currentCount, preserveDepth);
    var entries: seq<T> := [];
    var before: Option<nat> := None;
    var next: Option<nat> := None;
    var seen: set<nat> := {};
    var call := 0;
    ghost var faithful := Faithful(pager, log, cursor);
    while true
      invariant seen <= finite
      invariant faithful ==>
                  && |entries| <= |log| && entries == log[..|entries|]
                  && before == (if call == 0 then None else Some(cursor(|entries|)))
                  && (call == 0 ==> entries == [])
                  && (call > 0 ==> |entries| < |log|)
                  && |entries| < target
                  && (forall c <- seen :: c >= cursor(|entries|))
      decreases finite - seen
    {
      var remaining := Max(1, target - |entries|);
      var page := pager(call, before, Min(PAGE_LIMIT, remaining));
      ghost var i := |entries|;
      if faithful && call > 0 {
        assert page == pager(call, Some(cursor(i)), Min(PAGE_LIMIT, remaining));
      }
      assert faithful ==> Answers(page, log, cursor, i, Min(PAGE_LIMIT, remaining));
      entries := entries + page.entries;
      assert faithful ==> entries == log[..|entries|];
      next := page.next;
      call := call + 1;
      if next.None? || next.value == 0 || |entries| >= target || next.value in seen {
        break;
      }
      assert next.value in finite - seen;
      seen := seen + {next.value};
      before := next;
    }
    result := Page(entries, next);
  }
}
