/**
 The retention plan of database_maintenance and its application: which matches, AdminLog events
 and snapshots are candidates for deletion, and why planning again deletes nothing more.
 */
module Retention {
  import opened Options
  import opened Counting
  import opened Rejecting
  import opened Sorting

  // One rcon_materialized_matches row; `closedAt` is ended_at, or else started_at, when it parses.
  datatype MatchRow = MatchRow(id: int, target: string, matchKey: string, fromMatchEnd: bool,
                               closedAt: Option<int>, lower: Option<int>, upper: Option<int>)

  datatype EventRow =
    EventRow(id: int, target: string, eventType: string, eventTime: Option<int>, serverTime: Option<int>)

  datatype SnapshotRow = SnapshotRow(id: int, capturedAt: Option<int>)

  datatype StatRow = StatRow(target: string, matchKey: string, playerId: string)

  // The calendar of `now` and the retention settings, all instants in seconds.
  datatype Settings = Settings(
    now: int, monthStart: int, previousMonthStart: int, weekStart: int, previousWeekStart: int, firstWeekOfMonth: bool,
    recentMatchesKeep: nat, weeklyFallbackMinMatches: nat,
    noncriticalCutoff: int, criticalCutoff: int, snapshotCutoff: int, batchSize: nat)

  datatype Tables =
    Tables(matches: seq<MatchRow>, stats: seq<StatRow>, events: seq<EventRow>, snapshots: seq<SnapshotRow>)

  ghost predicate DistinctIds(rows: seq<MatchRow>) {
    forall i, j :: 0 <= i < j < |rows| ==> rows[i].id != rows[j].id
  }

  ghost predicate DistinctKeys(rows: seq<MatchRow>) {
    forall i, j :: 0 <= i < j < |rows| ==> !(rows[i].target == rows[j].target && rows[i].matchKey == rows[j].matchKey)
  }

  // ---------- Which matches are protected ----------

  predicate IsClosed(r: MatchRow) {
    r.fromMatchEnd && r.closedAt.Some?
  }

  function NonZero(n: Option<int>): Option<int> {
    if n == Some(0) then None else n
  }

  // `_coerce_int(ended) or _coerce_int(started) or 0`
  function ServerTimeKey(r: MatchRow): int {
    if NonZero(r.upper).Some? then r.upper.value
    else if NonZero(r.lower).Some? then r.lower.value
    else 0
  }

  // The order of the most recent closed matches first.
  predicate MoreRecent(a: MatchRow, b: MatchRow) {
    var s, t := if a.closedAt.Some? then a.closedAt.value else 0, if b.closedAt.Some? then b.closedAt.value else 0;
    if s != t then s > t
    else if ServerTimeKey(a) != ServerTimeKey(b) then ServerTimeKey(a) > ServerTimeKey(b)
    else a.id > b.id
  }

  predicate RecentFirst(a: MatchRow, b: MatchRow) {
    !MoreRecent(b, a)
  }

  function ClosedMoreRecentThan(r: MatchRow): MatchRow -> bool {
    (other: MatchRow) => IsClosed(other) && MoreRecent(other, r)
  }

  function ClosedBetween(from: int, until: int): MatchRow -> bool {
    (r: MatchRow) => IsClosed(r) && from <= r.closedAt.value < until
  }

  // Fewer than `recentMatchesKeep` closed matches are more recent.
  predicate AmongRecent(rows: seq<MatchRow>, s: Settings, r: MatchRow) {
    CountIf(rows, ClosedMoreRecentThan(r)) < s.recentMatchesKeep
  }

  predicate ProtectsPreviousWeek(rows: seq<MatchRow>, s: Settings) {
    && CountIf(rows, ClosedBetween(s.weekStart, s.now)) < s.weeklyFallbackMinMatches
    && CountIf(rows, ClosedBetween(s.previousWeekStart, s.weekStart)) > 0
  }

  predicate InProtectedPeriod(s: Settings, previousWeek: bool, closedAt: int) {
    || closedAt >= s.monthStart
    || (s.firstWeekOfMonth && s.previousMonthStart <= closedAt < s.monthStart)
    || closedAt >= s.weekStart
    || (previousWeek && s.previousWeekStart <= closedAt < s.weekStart)
  }

  predicate IsProtected(rows: seq<MatchRow>, s: Settings, r: MatchRow) {
    AmongRecent(rows, s, r)
      || (r.closedAt.Some? && InProtectedPeriod(s, ProtectsPreviousWeek(rows, s), r.closedAt.value))
  }

  function IsMatchCandidate(rows: seq<MatchRow>, s: Settings): MatchRow -> bool {
    (r: MatchRow) => IsClosed(r) && !IsProtected(rows, s, r)
  }

  // ---------- Which events and snapshots go ----------

  const CRITICAL: set<string> := {"kill", "match_start", "match_end"}

  // Whether `r` protects the server time `t` of its target.
  predicate Shields(rows: seq<MatchRow>, s: Settings, r: MatchRow, target: string, t: int) {
    && IsClosed(r) && IsProtected(rows, s, r) && r.target == target
    && r.lower.Some? && r.upper.Some? && r.lower.value <= t <= r.upper.value
  }

  ghost predicate ServerTimeIsProtected(rows: seq<MatchRow>, s: Settings, target: string, t: int) {
    exists r :: r in rows && Shields(rows, s, r, target, t)
  }

  ghost predicate EventExpires(rows: seq<MatchRow>, s: Settings, e: EventRow) {
    && e.eventTime.Some?
    && if e.eventType in CRITICAL then
         && e.eventTime.value < s.criticalCutoff && e.serverTime.Some?
         && !ServerTimeIsProtected(rows, s, e.target, e.serverTime.value)
       else e.eventTime.value < s.noncriticalCutoff
  }

  ghost function IsEventCandidate(rows: seq<MatchRow>, s: Settings): EventRow -> bool {
    (e: EventRow) => EventExpires(rows, s, e)
  }

  function IsSnapshotCandidate(s: Settings): SnapshotRow -> bool {
    (r: SnapshotRow) => r.capturedAt.Some? && r.capturedAt.value < s.snapshotCutoff
  }

  // ---------- Planning ----------

  lemma RecentFirstIsTotalPreorder()
    ensures TotalPreorder(RecentFirst)
  {
  }

  lemma {:induction false} RejectKeepsDistinctIds(rows: seq<MatchRow>, p: MatchRow -> bool)
    requires DistinctIds(rows)
    ensures DistinctIds(Reject(rows, p))
  {
    if rows != [] {
      var front, last := rows[..|rows| - 1], rows[|rows| - 1];
      RejectKeepsDistinctIds(front, p);
      RejectKeepsRest(front, p);
      forall x | x in Reject(front, p) ensures x.id != last.id {
        var i :| 0 <= i < |front| && front[i] == x;
        assert rows[i].id != rows[|rows| - 1].id;
      }
    }
  }

  lemma {:induction false} EachOnce(rows: seq<MatchRow>, x: MatchRow)
    requires DistinctIds(rows)
    ensures multiset(rows)[x] <= 1
  {
    if rows != [] {
      var front, last := rows[..|rows| - 1], rows[|rows| - 1];
      EachOnce(front, x);
      assert rows == front + [last];
      if x == last {
        assert x !in front;
        assert x !in multiset(front);
      }
    }
  }

  lemma TwiceInSequence(ys: seq<MatchRow>, i: nat, j: nat)
    requires i < j < |ys| && ys[i] == ys[j]
    ensures multiset(ys)[ys[i]] >= 2
  {
    assert ys == ys[..j] + ys[j..];
    assert multiset(ys) == multiset(ys[..j]) + multiset(ys[j..]);
    assert ys[..j][i] == ys[i] && ys[j..][0] == ys[i];
    assert ys[i] in multiset(ys[..j]) && ys[i] in multiset(ys[j..]);
  }

  lemma PermutationKeepsDistinctIds(xs: seq<MatchRow>, ys: seq<MatchRow>)
    requires DistinctIds(xs) && multiset(xs) == multiset(ys)
    ensures DistinctIds(ys)
  {
    SameElements(xs, ys);
    forall i, j | 0 <= i < j < |ys| ensures ys[i].id != ys[j].id {
      EachOnce(xs, ys[i]);
      if ys[i] == ys[j] {
        TwiceInSequence(ys, i, j);
      }
      assert ys[i] in xs && ys[j] in xs;
    }
  }

  function NotClosed(): MatchRow -> bool {
    (r: MatchRow) => !IsClosed(r)
  }

  lemma CountOfSplit(rows: seq<MatchRow>, i: nat, p: MatchRow -> bool)
    requires i <= |rows| && (forall k :: 0 <= k < i ==> p(rows[k])) && (forall k :: i <= k < |rows| ==> !p(rows[k]))
    ensures CountIf(rows, p) == i
  {
    assert rows == rows[..i] + rows[i..];
    CountIfConcat(rows[..i], rows[i..], p);
    CountIfAll(rows[..i], p);
    CountIfNone(rows[i..], p);
  }

  lemma MoreRecentAreEarlier(sorted: seq<MatchRow>, i: int)
    requires Sorted(RecentFirst, sorted) && DistinctIds(sorted) && 0 <= i < |sorted|
    requires forall k :: 0 <= k < |sorted| ==> IsClosed(sorted[k])
    ensures CountIf(sorted, ClosedMoreRecentThan(sorted[i])) == i
  {
    var more := ClosedMoreRecentThan(sorted[i]);
    forall k | 0 <= k < i ensures more(sorted[k]) {
      assert RecentFirst(sorted[k], sorted[i]) && sorted[k].id != sorted[i].id;
    }
    forall k | i <= k < |sorted| ensures !more(sorted[k]) {
      assert k > i ==> RecentFirst(sorted[i], sorted[k]);
    }
    CountOfSplit(sorted, i, more);
  }

  /** The position of a row among the sorted closed rows is the number of more recent ones. */
  lemma PositionCountsMoreRecent(rows: seq<MatchRow>, sorted: seq<MatchRow>, i: int)
    requires sorted == SortBy(RecentFirst, Reject(rows, NotClosed())) && DistinctIds(rows) && 0 <= i < |sorted|
    ensures CountIf(rows, ClosedMoreRecentThan(sorted[i])) == i
  {
    SortedClosedRows(rows, sorted);
    MoreRecentAreEarlier(sorted, i);
    CountIfPermuted(sorted, Reject(rows, NotClosed()), ClosedMoreRecentThan(sorted[i]));
    CountAfterReject(rows, NotClosed(), ClosedMoreRecentThan(sorted[i]));
  }

  lemma SortedClosedRows(rows: seq<MatchRow>, sorted: seq<MatchRow>)
    requires sorted == SortBy(RecentFirst, Reject(rows, NotClosed())) && DistinctIds(rows)
    ensures Sorted(RecentFirst, sorted) && DistinctIds(sorted)
      && multiset(sorted) == multiset(Reject(rows, NotClosed()))
    ensures forall r :: r in sorted <==> r in rows && IsClosed(r)
    ensures forall i :: 0 <= i < |sorted| ==> sorted[i] in rows && IsClosed(sorted[i])
  {
    var closed := Reject(rows, NotClosed());
    RecentFirstIsTotalPreorder();
    SortBySorts(RecentFirst, closed);
    SortByPermutes(RecentFirst, closed);
    RejectKeepsDistinctIds(rows, NotClosed());
    PermutationKeepsDistinctIds(closed, sorted);
    SameElements(sorted, closed);
    ClosedRows(rows);
    EachIsElement(sorted);
  }

  lemma ClosedRows(rows: seq<MatchRow>)
    ensures forall r :: r in Reject(rows, NotClosed()) <==> r in rows && IsClosed(r)
  {
    RejectKeepsRest(rows, NotClosed());
  }

  lemma EachIsElement<T>(xs: seq<T>)
    ensures forall i :: 0 <= i < |xs| ==> xs[i] in xs
  {
  }

  // Per target, the closed server-time ranges of the protected matches.
  type Ranges = map<string, seq<(int, int)>>

  predicate InRanges(ranges: Ranges, target: string, t: int) {
    target in ranges && exists i :: 0 <= i < |ranges[target]| && ranges[target][i].0 <= t <= ranges[target][i].1
  }

  ghost predicate RangesShield(ranges: Ranges, rows: seq<MatchRow>, s: Settings) {
    forall target, t :: InRanges(ranges, target, t) <==> ServerTimeIsProtected(rows, s, target, t)
  }

  ghost predicate ShieldedBy(rows: seq<MatchRow>, s: Settings, some: seq<MatchRow>, target: string, t: int) {
    exists r :: r in some && Shields(rows, s, r, target, t)
  }

  function StaysInPlan(rows: seq<MatchRow>, s: Settings): MatchRow -> bool {
    (r: MatchRow) => !IsClosed(r) || IsProtected(rows, s, r)
  }

  // `ranges` shields exactly what the protected rows among `some` shield.
  ghost predicate RangesFollow(ranges: Ranges, rows: seq<MatchRow>, s: Settings, some: seq<MatchRow>) {
    forall target, t :: InRanges(ranges, target, t) <==> ShieldedBy(rows, s, some, target, t)
  }

  lemma StaysInPlanOneMore(rows: seq<MatchRow>, s: Settings, some: seq<MatchRow>, row: MatchRow)
    requires IsClosed(row)
    ensures Reject(some + [row], StaysInPlan(rows, s))
      == Reject(some, StaysInPlan(rows, s)) + (if IsProtected(rows, s, row) then [] else [row])
  {
    assert (some + [row])[..|some|] == some;
    assert StaysInPlan(rows, s)(row) == IsProtected(rows, s, row);
  }

  // One closed row of the planning loop; `protected` is the source's should_protect.
  method PlanRow(ghost rows: seq<MatchRow>, ghost s: Settings, ghost some: seq<MatchRow>, row: MatchRow,
                 protected: bool,
                 candidates: seq<MatchRow>, ranges: Ranges) returns (candidates': seq<MatchRow>, ranges': Ranges)
    requires IsClosed(row) && protected == IsProtected(rows, s, row)
    requires PlansFor(candidates, ranges, rows, s, some)
    ensures PlansFor(candidates', ranges', rows, s, some + [row])
  {
    candidates', ranges' := candidates, ranges;
    StaysInPlanOneMore(rows, s, some, row);
    if protected {
      if row.lower.Some? && row.upper.Some? {
        RangeAdded(rows, s, some, row, ranges);
        ranges' := ranges[row.target := (if row.target in ranges then ranges[row.target] else [])
          + [(row.lower.value, row.upper.value)]];
      } else {
        NothingAdded(rows, s, some, row, ranges);
      }
    } else {
      candidates' := candidates + [row];
      NothingAdded(rows, s, some, row, ranges);
    }
  }

  lemma NothingAdded(rows: seq<MatchRow>, s: Settings, some: seq<MatchRow>, row: MatchRow, ranges: Ranges)
    requires forall target, t :: !Shields(rows, s, row, target, t)
    requires RangesFollow(ranges, rows, s, some)
    ensures RangesFollow(ranges, rows, s, some + [row])
  {
    forall target, t ensures ShieldedBy(rows, s, some + [row], target, t) <==> ShieldedBy(rows, s, some, target, t) {
      if ShieldedBy(rows, s, some, target, t) {
        var r :| r in some && Shields(rows, s, r, target, t);
        assert r in some + [row];
      }
    }
  }

  lemma PositionDecides(rows: seq<MatchRow>, s: Settings, closed: seq<MatchRow>, i: int, previousWeek: bool)
    requires DistinctIds(rows) && closed == SortBy(RecentFirst, Reject(rows, NotClosed())) && 0 <= i < |closed|
    requires previousWeek == ProtectsPreviousWeek(rows, s)
    ensures IsClosed(closed[i])
    ensures IsProtected(rows, s, closed[i])
      <==> i < s.recentMatchesKeep || InProtectedPeriod(s, previousWeek, closed[i].closedAt.value)
  {
    SortedClosedRows(rows, closed);
    PositionCountsMoreRecent(rows, closed, i);
  }

  lemma OneMoreRead(closed: seq<MatchRow>, i: nat)
    requires i < |closed|
    ensures closed[..i] + [closed[i]] == closed[..i + 1]
  {
  }

  // The plan for the closed rows `some`.
  ghost predicate PlansFor(candidates: seq<MatchRow>, ranges: Ranges, rows: seq<MatchRow>, s: Settings,
                           some: seq<MatchRow>) {
    candidates == Reject(some, StaysInPlan(rows, s)) && RangesFollow(ranges, rows, s, some)
  }

  // The scan of the sorted closed rows.
  method PlanClosedRows(rows: seq<MatchRow>, s: Settings, closed: seq<MatchRow>, previousWeek: bool)
    returns (candidates: seq<MatchRow>, ranges: Ranges)
    requires DistinctIds(rows) && closed == SortBy(RecentFirst, Reject(rows, NotClosed()))
    requires previousWeek == ProtectsPreviousWeek(rows, s)
    ensures PlansFor(candidates, ranges, rows, s, closed)
  {
    candidates, ranges := [], map[];
    ghost var read: seq<MatchRow> := [];
    for i := 0 to |closed|
      invariant read == closed[..i] && PlansFor(candidates, ranges, rows, s, read)
    {
      PositionDecides(rows, s, closed, i, previousWeek);
      OneMoreRead(closed, i);
      var protected := i < s.recentMatchesKeep || InProtectedPeriod(s, previousWeek, closed[i].closedAt.value);
      candidates, ranges := PlanRow(rows, s, read, closed[i], protected, candidates, ranges);
      read := read + [closed[i]];
    }
    assert read == closed;
  }

  /** _plan_materialized_match_cleanup: candidates, most recent first, and the protected ranges. */
  method PlanMatchCleanup(rows: seq<MatchRow>, s: Settings) returns (candidates: seq<MatchRow>, ranges: Ranges)
    requires DistinctIds(rows)
    ensures candidates == Reject(SortBy(RecentFirst, Reject(rows, NotClosed())), StaysInPlan(rows, s))
    ensures forall r :: r in candidates <==> r in rows && IsMatchCandidate(rows, s)(r)
    ensures RangesShield(ranges, rows, s)
  {
    var closed := SortBy(RecentFirst, Reject(rows, NotClosed()));
    SortedClosedRows(rows, closed);
    WeekCountsOfClosed(rows, closed, s);
    var previousWeek :=
      && CountIf(closed, ClosedBetween(s.weekStart, s.now)) < s.weeklyFallbackMinMatches
      && CountIf(closed, ClosedBetween(s.previousWeekStart, s.weekStart)) > 0;
    candidates, ranges := PlanClosedRows(rows, s, closed, previousWeek);
    RejectKeepsRest(closed, StaysInPlan(rows, s));
    ClosedShieldAll(rows, s, closed);
  }

  lemma ClosedShieldAll(rows: seq<MatchRow>, s: Settings, closed: seq<MatchRow>)
    requires forall r :: r in closed <==> r in rows && IsClosed(r)
    ensures forall target, t :: ShieldedBy(rows, s, closed, target, t) <==> ServerTimeIsProtected(rows, s, target, t)
  {
  }

  lemma WeekCountsOfClosed(rows: seq<MatchRow>, closed: seq<MatchRow>, s: Settings)
    requires closed == SortBy(RecentFirst, Reject(rows, NotClosed())) && DistinctIds(rows)
    ensures CountIf(closed, ClosedBetween(s.weekStart, s.now)) == CountIf(rows, ClosedBetween(s.weekStart, s.now))
    ensures CountIf(closed, ClosedBetween(s.previousWeekStart, s.weekStart))
      == CountIf(rows, ClosedBetween(s.previousWeekStart, s.weekStart))
  {
    SortedClosedRows(rows, closed);
    CountIfPermuted(closed, Reject(rows, NotClosed()), ClosedBetween(s.weekStart, s.now));
    CountIfPermuted(closed, Reject(rows, NotClosed()), ClosedBetween(s.previousWeekStart, s.weekStart));
    CountAfterReject(rows, NotClosed(), ClosedBetween(s.weekStart, s.now));
    CountAfterReject(rows, NotClosed(), ClosedBetween(s.previousWeekStart, s.weekStart));
  }

  lemma RangeAdded(rows: seq<MatchRow>, s: Settings, some: seq<MatchRow>, row: MatchRow, ranges: Ranges)
    requires IsClosed(row) && IsProtected(rows, s, row) && row.lower.Some? && row.upper.Some?
    requires RangesFollow(ranges, rows, s, some)
    ensures var extended :=
      ranges[row.target := (if row.target in ranges then ranges[row.target] else [])
        + [(row.lower.value, row.upper.value)]];
      RangesFollow(extended, rows, s, some + [row])
  {
    var earlier := if row.target in ranges then ranges[row.target] else [];
    var extended := ranges[row.target := earlier + [(row.lower.value, row.upper.value)]];
    forall target, t ensures InRanges(extended, target, t) <==> ShieldedBy(rows, s, some + [row], target, t) {
      if InRanges(ranges, target, t) {
        var i :| 0 <= i < |ranges[target]| && ranges[target][i].0 <= t <= ranges[target][i].1;
        assert extended[target][i] == ranges[target][i];
      }
      if Shields(rows, s, row, target, t) {
        assert row in some + [row];
        assert extended[target][|earlier|].0 <= t <= extended[target][|earlier|].1;
      }
      assert ShieldedBy(rows, s, some + [row], target, t)
        <==> ShieldedBy(rows, s, some, target, t) || Shields(rows, s, row, target, t);
      if InRanges(extended, target, t) {
        var i :| 0 <= i < |extended[target]| && extended[target][i].0 <= t <= extended[target][i].1;
        if target == row.target && i < |earlier| {
          assert ranges[target][i] == extended[target][i];
        }
      }
    }
  }

  // ---------- Planning the events and the snapshots ----------

  ghost function StaysEvent(rows: seq<MatchRow>, s: Settings): EventRow -> bool {
    (e: EventRow) => !EventExpires(rows, s, e)
  }

  function StaysSnapshot(s: Settings): SnapshotRow -> bool {
    (r: SnapshotRow) => !(r.capturedAt.Some? && r.capturedAt.value < s.snapshotCutoff)
  }

  lemma OneMore<T>(rows: seq<T>, i: int, p: T -> bool)
    requires 0 <= i < |rows|
    ensures Reject(rows[..i + 1], p) == Reject(rows[..i], p) + (if p(rows[i]) then [] else [rows[i]])
  {
    assert rows[..i + 1][..i] == rows[..i];
  }

  /** _plan_admin_log_cleanup: the expired events, in id order. */
  method PlanAdminLogCleanup(events: seq<EventRow>, s: Settings, ranges: Ranges, ghost rows: seq<MatchRow>)
    returns (expired: seq<EventRow>)
    requires RangesShield(ranges, rows, s)
    ensures expired == Reject(events, StaysEvent(rows, s))
  {
    expired := [];
    for i := 0 to |events|
      invariant expired == Reject(events[..i], StaysEvent(rows, s))
    {
      var e := events[i];
      OneMore(events, i, StaysEvent(rows, s));
      if e.eventTime.Some? {
        if e.eventType in CRITICAL {
          if e.eventTime.value < s.criticalCutoff && e.serverTime.Some?
            && !InRanges(ranges, e.target, e.serverTime.value) {
            expired := expired + [e];
          }
        } else if e.eventTime.value < s.noncriticalCutoff {
          expired := expired + [e];
        }
      }
    }
    assert events[..|events|] == events;
  }

  method PlanSnapshotCleanup(snapshots: seq<SnapshotRow>, s: Settings) returns (expired: seq<SnapshotRow>)
    ensures expired == Reject(snapshots, StaysSnapshot(s))
  {
    expired := [];
    for i := 0 to |snapshots|
      invariant expired == Reject(snapshots[..i], StaysSnapshot(s))
    {
      OneMore(snapshots, i, StaysSnapshot(s));
      if snapshots[i].capturedAt.Some? && snapshots[i].capturedAt.value < s.snapshotCutoff {
        expired := expired + [snapshots[i]];
      }
    }
    assert snapshots[..|snapshots|] == snapshots;
  }

  // ---------- What a cleanup leaves ----------

  ghost predicate InDoomedMatch(rows: seq<MatchRow>, s: Settings, x: StatRow) {
    exists r :: r in rows && IsMatchCandidate(rows, s)(r) && StatIn(x, r)
  }

  ghost function OfDoomedMatch(rows: seq<MatchRow>, s: Settings): StatRow -> bool {
    (x: StatRow) => InDoomedMatch(rows, s, x)
  }

  /** One cleanup in apply mode, as four set differences. */
  ghost function Cleaned(t: Tables, s: Settings): Tables {
    Tables(
      Reject(t.matches, IsMatchCandidate(t.matches, s)),
      Reject(t.stats, OfDoomedMatch(t.matches, s)),
      Reject(t.events, IsEventCandidate(t.matches, s)),
      Reject(t.snapshots, IsSnapshotCandidate(s)))
  }

  // A count of more recent matches that is unchanged by deleting `gone`, or still at least `keep`.
  lemma {:induction false} RecentSurvive(rows: seq<MatchRow>, gone: MatchRow -> bool, keep: nat, r: MatchRow)
    requires forall x :: x in rows && gone(x) ==> IsClosed(x) && CountIf(rows, ClosedMoreRecentThan(x)) >= keep
    ensures var left := CountIf(Reject(rows, gone), ClosedMoreRecentThan(r));
      left == CountIf(rows, ClosedMoreRecentThan(r)) || left >= keep
    decreases CountIf(rows, ClosedMoreRecentThan(r))
  {
    var more := ClosedMoreRecentThan(r);
    if x :| x in rows && gone(x) && more(x) {
      FewerMoreRecent(rows, x, r);
      RecentSurvive(rows, gone, keep, x);
      MoreRecentIsTransitive(x, r);
      CountIfImplies(Reject(rows, gone), ClosedMoreRecentThan(x), more);
    } else {
      CountAfterReject(rows, gone, more);
    }
  }

  lemma MoreRecentIsTransitive(x: MatchRow, r: MatchRow)
    requires MoreRecent(x, r)
    ensures forall y :: MoreRecent(y, x) ==> MoreRecent(y, r)
  {
  }

  lemma FewerMoreRecent(rows: seq<MatchRow>, x: MatchRow, r: MatchRow)
    requires x in rows && IsClosed(x) && MoreRecent(x, r)
    ensures CountIf(rows, ClosedMoreRecentThan(x)) < CountIf(rows, ClosedMoreRecentThan(r))
  {
    MoreRecentIsTransitive(x, r);
    CountIfStrictlyFewer(rows, ClosedMoreRecentThan(x), ClosedMoreRecentThan(r), x);
  }

  // The same settings keeping another number of recent matches.
  function Keeping(s: Settings, n: nat): Settings {
    s.(recentMatchesKeep := n)
  }

  lemma SurvivorsAreKept(rows: seq<MatchRow>, s: Settings)
    ensures forall r ::
      r in Reject(rows, IsMatchCandidate(rows, s)) <==> r in rows && (IsClosed(r) ==> IsProtected(rows, s, r))
  {
    RejectKeepsRest(rows, IsMatchCandidate(rows, s));
  }

  // Only candidates of a cleanup are gone, perhaps not all of them.
  ghost predicate OnlyCandidates(rows: seq<MatchRow>, s: Settings, gone: MatchRow -> bool) {
    forall r :: r in rows && gone(r) ==> IsMatchCandidate(rows, s)(r)
  }

  // Deleting candidates of a cleanup leaves the recency test of a smaller number unchanged.
  lemma RecencyUnchanged(rows: seq<MatchRow>, s: Settings, gone: MatchRow -> bool, n: nat, r: MatchRow)
    requires n <= s.recentMatchesKeep && OnlyCandidates(rows, s, gone)
    ensures AmongRecent(Reject(rows, gone), Keeping(s, n), r) <==> AmongRecent(rows, Keeping(s, n), r)
  {
    RecentSurvive(rows, gone, s.recentMatchesKeep, r);
    CountAfterReject(rows, gone, ClosedMoreRecentThan(r));
  }

  lemma PreviousWeekUnchanged(rows: seq<MatchRow>, s: Settings, gone: MatchRow -> bool)
    requires OnlyCandidates(rows, s, gone)
    ensures ProtectsPreviousWeek(Reject(rows, gone), s) <==> ProtectsPreviousWeek(rows, s)
  {
    var before := ClosedBetween(s.previousWeekStart, s.weekStart);
    CountAfterReject(rows, gone, ClosedBetween(s.weekStart, s.now));
    CountAfterReject(rows, gone, before);
  }

  /** Deleting candidates, all or some, changes no protection, for any number of recent matches up to the one used. */
  lemma ProtectionUnchanged(rows: seq<MatchRow>, s: Settings, gone: MatchRow -> bool, n: nat, r: MatchRow)
    requires n <= s.recentMatchesKeep && OnlyCandidates(rows, s, gone)
    ensures IsProtected(Reject(rows, gone), Keeping(s, n), r) <==> IsProtected(rows, Keeping(s, n), r)
  {
    RecencyUnchanged(rows, s, gone, n, r);
    PreviousWeekUnchanged(rows, s, gone);
    PreviousWeekIgnoresKeep(rows, s, n);
    PreviousWeekIgnoresKeep(Reject(rows, gone), s, n);
  }

  lemma PreviousWeekIgnoresKeep(rows: seq<MatchRow>, s: Settings, n: nat)
    ensures ProtectsPreviousWeek(rows, Keeping(s, n)) == ProtectsPreviousWeek(rows, s)
  {
  }

  /** Keeping more recent matches protects at least as much. */
  lemma KeepingMoreProtectsMore(rows: seq<MatchRow>, s: Settings, n: nat, r: MatchRow)
    requires n <= s.recentMatchesKeep && IsProtected(rows, Keeping(s, n), r)
    ensures IsProtected(rows, s, r)
  {
    PreviousWeekIgnoresKeep(rows, s, n);
  }

  lemma ShieldUnchanged(rows: seq<MatchRow>, s: Settings, gone: MatchRow -> bool, n: nat, target: string, t: int)
    requires n <= s.recentMatchesKeep && OnlyCandidates(rows, s, gone)
    ensures ServerTimeIsProtected(Reject(rows, gone), Keeping(s, n), target, t)
      <==> ServerTimeIsProtected(rows, Keeping(s, n), target, t)
  {
    var left, less := Reject(rows, gone), Keeping(s, n);
    RejectKeepsRest(rows, gone);
    if ServerTimeIsProtected(left, less, target, t) {
      var r :| r in left && Shields(left, less, r, target, t);
      ProtectionUnchanged(rows, s, gone, n, r);
      assert Shields(rows, less, r, target, t);
    }
    if ServerTimeIsProtected(rows, less, target, t) {
      var r :| r in rows && Shields(rows, less, r, target, t);
      ProtectionUnchanged(rows, s, gone, n, r);
      KeepingMoreProtectsMore(rows, s, n, r);
      assert Shields(left, less, r, target, t);
    }
  }

  lemma MatchCleanupsCompose(rows: seq<MatchRow>, s: Settings, gone: MatchRow -> bool, n: nat)
    requires n <= s.recentMatchesKeep && OnlyCandidates(rows, s, gone)
    ensures var left := Reject(rows, gone);
      Reject(left, IsMatchCandidate(left, Keeping(s, n))) == Reject(rows, IsMatchCandidate(rows, Keeping(s, n)))
  {
    var left, less := Reject(rows, gone), Keeping(s, n);
    forall r | r in rows ensures IsMatchCandidate(rows, less)(r) == (gone(r) || IsMatchCandidate(left, less)(r)) {
      ProtectionUnchanged(rows, s, gone, n, r);
      if IsProtected(rows, less, r) {
        KeepingMoreProtectsMore(rows, s, n, r);
      }
    }
    RejectTwice(rows, gone, IsMatchCandidate(left, less), IsMatchCandidate(rows, less));
  }

  lemma EventCleanupsCompose(rows: seq<MatchRow>, events: seq<EventRow>, s: Settings, gone: MatchRow -> bool,
                             goneEvents: EventRow -> bool, n: nat)
    requires n <= s.recentMatchesKeep && OnlyCandidates(rows, s, gone)
    requires forall e :: e in events && goneEvents(e) ==> EventExpires(rows, s, e)
    ensures Reject(Reject(events, goneEvents), IsEventCandidate(Reject(rows, gone), Keeping(s, n)))
      == Reject(events, IsEventCandidate(rows, Keeping(s, n)))
  {
    var left, less := Reject(rows, gone), Keeping(s, n);
    forall e | e in events ensures EventExpires(rows, less, e) == (goneEvents(e) || EventExpires(left, less, e)) {
      if e.serverTime.Some? {
        ShieldUnchanged(rows, s, gone, n, e.target, e.serverTime.value);
        KeepingMoreShieldsMore(rows, s, n, e.target, e.serverTime.value);
      }
    }
    RejectTwice(events, goneEvents, IsEventCandidate(left, less), IsEventCandidate(rows, less));
  }

  lemma KeepingMoreShieldsMore(rows: seq<MatchRow>, s: Settings, n: nat, target: string, t: int)
    requires n <= s.recentMatchesKeep
    ensures ServerTimeIsProtected(rows, Keeping(s, n), target, t) ==> ServerTimeIsProtected(rows, s, target, t)
  {
    if ServerTimeIsProtected(rows, Keeping(s, n), target, t) {
      var r :| r in rows && Shields(rows, Keeping(s, n), r, target, t);
      KeepingMoreProtectsMore(rows, s, n, r);
      assert Shields(rows, s, r, target, t);
    }
  }

  /** A larger recent_matches_keep only shrinks what a plan deletes. */
  lemma KeepingMoreDeletesLess(t: Tables, s: Settings, n: nat)
    requires n <= s.recentMatchesKeep
    ensures forall r :: r in t.matches && IsMatchCandidate(t.matches, s)(r) ==>
      IsMatchCandidate(t.matches, Keeping(s, n))(r)
    ensures forall e :: e in t.events && IsEventCandidate(t.matches, s)(e) ==>
      IsEventCandidate(t.matches, Keeping(s, n))(e)
  {
    forall r | r in t.matches && IsMatchCandidate(t.matches, s)(r)
      ensures IsMatchCandidate(t.matches, Keeping(s, n))(r)
    {
      if IsProtected(t.matches, Keeping(s, n), r) {
        KeepingMoreProtectsMore(t.matches, s, n, r);
      }
    }
    forall e | e in t.events && EventExpires(t.matches, s, e) ensures EventExpires(t.matches, Keeping(s, n), e) {
      if e.serverTime.Some? {
        KeepingMoreShieldsMore(t.matches, s, n, e.target, e.serverTime.value);
      }
    }
  }

  predicate StatIn(x: StatRow, r: MatchRow) {
    r.target == x.target && r.matchKey == x.matchKey
  }

  // No match is gone before its stat rows are.
  ghost predicate StatsGoFirst(rows: seq<MatchRow>, stats: seq<StatRow>, gone: MatchRow -> bool,
                               goneStats: StatRow -> bool) {
    forall r, x :: r in rows && gone(r) && x in stats && StatIn(x, r) ==> goneStats(x)
  }

  lemma StatCleanupsCompose(rows: seq<MatchRow>, stats: seq<StatRow>, s: Settings, gone: MatchRow -> bool,
                            goneStats: StatRow -> bool, n: nat)
    requires n <= s.recentMatchesKeep && OnlyCandidates(rows, s, gone) && StatsGoFirst(rows, stats, gone, goneStats)
    requires forall x :: x in stats && goneStats(x) ==> InDoomedMatch(rows, s, x)
    ensures Reject(Reject(stats, goneStats), OfDoomedMatch(Reject(rows, gone), Keeping(s, n)))
      == Reject(stats, OfDoomedMatch(rows, Keeping(s, n)))
  {
    var left, less := Reject(rows, gone), Keeping(s, n);
    RejectKeepsRest(rows, gone);
    forall r | r in rows
      ensures IsMatchCandidate(left, less)(r) == IsMatchCandidate(rows, less)(r)
        && (IsMatchCandidate(rows, s)(r) ==> IsMatchCandidate(rows, less)(r))
    {
      ProtectionUnchanged(rows, s, gone, n, r);
      if IsProtected(rows, less, r) {
        KeepingMoreProtectsMore(rows, s, n, r);
      }
    }
    forall x | x in stats ensures InDoomedMatch(rows, less, x) == (goneStats(x) || InDoomedMatch(left, less, x)) {
      DoomedByPart(rows, left, s, gone, goneStats, n, stats, x);
    }
    RejectTwice(stats, goneStats, OfDoomedMatch(left, less), OfDoomedMatch(rows, less));
  }

  lemma DoomedByPart(rows: seq<MatchRow>, left: seq<MatchRow>, s: Settings, gone: MatchRow -> bool,
                     goneStats: StatRow -> bool, n: nat, stats: seq<StatRow>, x: StatRow)
    requires x in stats && StatsGoFirst(rows, stats, gone, goneStats) && (goneStats(x) ==> InDoomedMatch(rows, s, x))
    requires forall r :: r in left <==> r in rows && !gone(r)
    requires forall r :: r in rows ==>
      IsMatchCandidate(left, Keeping(s, n))(r) == IsMatchCandidate(rows, Keeping(s, n))(r)
    requires forall r :: r in rows && IsMatchCandidate(rows, s)(r) ==> IsMatchCandidate(rows, Keeping(s, n))(r)
    ensures InDoomedMatch(rows, Keeping(s, n), x) == (goneStats(x) || InDoomedMatch(left, Keeping(s, n), x))
  {
    var less := Keeping(s, n);
    if InDoomedMatch(left, less, x) {
      var r :| r in left && IsMatchCandidate(left, less)(r) && StatIn(x, r);
      assert r in rows && IsMatchCandidate(rows, less)(r);
    }
    if goneStats(x) {
      var r :| r in rows && IsMatchCandidate(rows, s)(r) && StatIn(x, r);
      assert IsMatchCandidate(rows, less)(r);
    }
    if InDoomedMatch(rows, less, x) {
      var r :| r in rows && IsMatchCandidate(rows, less)(r) && StatIn(x, r);
      assert gone(r) || (r in left && IsMatchCandidate(left, less)(r));
    }
  }

  // What some of the batches of a cleanup have deleted.
  datatype Gone =
    Gone(matches: MatchRow -> bool, stats: StatRow -> bool, events: EventRow -> bool, snapshots: SnapshotRow -> bool)

  function Without(t: Tables, gone: Gone): Tables {
    Tables(Reject(t.matches, gone.matches), Reject(t.stats, gone.stats), Reject(t.events, gone.events),
           Reject(t.snapshots, gone.snapshots))
  }

  // It is part of the plan, and stat rows go before their match.
  ghost predicate IsPartOfCleanup(t: Tables, s: Settings, gone: Gone) {
    && OnlyCandidates(t.matches, s, gone.matches) && StatsGoFirst(t.matches, t.stats, gone.matches, gone.stats)
    && (forall x :: x in t.stats && gone.stats(x) ==> InDoomedMatch(t.matches, s, x))
    && (forall e :: e in t.events && gone.events(e) ==> EventExpires(t.matches, s, e))
    && (forall r :: r in t.snapshots && gone.snapshots(r) ==> IsSnapshotCandidate(s)(r))
  }

  /** A cleanup that follows any part of an earlier one, keeping no more recent matches, ends as it would have alone. */
  lemma PartThenCleanup(t: Tables, s: Settings, gone: Gone, n: nat)
    requires n <= s.recentMatchesKeep && IsPartOfCleanup(t, s, gone)
    ensures Cleaned(Without(t, gone), Keeping(s, n)) == Cleaned(t, Keeping(s, n))
  {
    MatchCleanupsCompose(t.matches, s, gone.matches, n);
    EventCleanupsCompose(t.matches, t.events, s, gone.matches, gone.events, n);
    StatCleanupsCompose(t.matches, t.stats, s, gone.matches, gone.stats, n);
    RejectTwice(t.snapshots, gone.snapshots, IsSnapshotCandidate(Keeping(s, n)), IsSnapshotCandidate(Keeping(s, n)));
  }

  /** Cleaning up and then cleaning up again with a smaller recent_matches_keep is one cleanup with the smaller one. */
  lemma CleanupsCompose(t: Tables, s: Settings, n: nat)
    requires n <= s.recentMatchesKeep
    ensures Cleaned(Cleaned(t, s), Keeping(s, n)) == Cleaned(t, Keeping(s, n))
  {
    PartThenCleanup(t, s,
                    Gone(IsMatchCandidate(t.matches, s), OfDoomedMatch(t.matches, s), IsEventCandidate(t.matches, s),
                         IsSnapshotCandidate(s)), n);
  }

  /** Planning again at the same instant after applying a plan finds nothing to delete. */
  lemma CleanupIsStable(t: Tables, s: Settings)
    ensures var left := Cleaned(t, s);
      && (forall r :: r in left.matches ==> !IsMatchCandidate(left.matches, s)(r))
      && (forall e :: e in left.events ==> !IsEventCandidate(left.matches, s)(e))
      && (forall r :: r in left.snapshots ==> !IsSnapshotCandidate(s)(r))
      && Cleaned(left, s) == left
  {
    var left := Cleaned(t, s);
    var n := s.recentMatchesKeep;
    assert Keeping(s, n) == s;
    CleanupsCompose(t, s, n);
    NoneLeft(left.matches, IsMatchCandidate(left.matches, s));
    NoneLeft(left.events, IsEventCandidate(left.matches, s));
    NoneLeft(left.snapshots, IsSnapshotCandidate(s));
  }

  lemma NoneLeft<T>(xs: seq<T>, p: T -> bool)
    requires Reject(xs, p) == xs
    ensures forall x :: x in xs ==> !p(x)
  {
    RejectKeepsRest(xs, p);
  }

  // ---------- What a cleanup never loses ----------

  function EventIn(r: MatchRow): EventRow -> bool {
    (e: EventRow) => e.eventType in CRITICAL && e.target == r.target && e.serverTime.Some?
      && r.lower.Some? && r.upper.Some? && r.lower.value <= e.serverTime.value <= r.upper.value
  }

  /** A protected match keeps its row and every critical event of its server-time range. */
  lemma ProtectedMatchKeepsItsEvents(t: Tables, s: Settings, r: MatchRow)
    requires r in t.matches && IsClosed(r) && IsProtected(t.matches, s, r)
    ensures r in Cleaned(t, s).matches
    ensures Reject(Cleaned(t, s).events, Not(EventIn(r))) == Reject(t.events, Not(EventIn(r)))
  {
    SurvivorsAreKept(t.matches, s);
    forall e | e in t.events && EventIn(r)(e) ensures !EventExpires(t.matches, s, e) {
      assert Shields(t.matches, s, r, e.target, e.serverTime.value);
    }
    RejectTwice(t.events, IsEventCandidate(t.matches, s), Not(EventIn(r)), Not(EventIn(r)));
  }

  // ---------- What goes, read off the rows ----------

  predicate Closed(r: MatchRow) {
    r.fromMatchEnd && r.closedAt.Some?
  }

  // A server time of zero counts as a missing one.
  function LastServerTime(r: MatchRow): int {
    if r.upper.Some? && r.upper.value != 0 then r.upper.value else if r.lower.Some? then r.lower.value else 0
  }

  function ClosedLaterThan(r: MatchRow): MatchRow -> bool
    requires Closed(r)
  {
    (m: MatchRow) =>
      && Closed(m) && m.closedAt.value >= r.closedAt.value
      && (m.closedAt.value == r.closedAt.value ==> LastServerTime(m) >= LastServerTime(r))
      && (m.closedAt.value == r.closedAt.value && LastServerTime(m) == LastServerTime(r) ==> m.id > r.id)
  }

  function ClosedFrom(from: int, until: int): MatchRow -> bool {
    (m: MatchRow) => Closed(m) && from <= m.closedAt.value && m.closedAt.value < until
  }

  /**
   A match is deleted exactly when it is closed, enough closed matches are later, and it closed in
   no month or week that is kept.
   */
  lemma MatchIsGoneIff(t: Tables, s: Settings, r: MatchRow)
    requires r in t.matches
    ensures r !in Cleaned(t, s).matches <==>
      && Closed(r) && CountIf(t.matches, ClosedLaterThan(r)) >= s.recentMatchesKeep
      && r.closedAt.value < s.monthStart && r.closedAt.value < s.weekStart
      && !(s.firstWeekOfMonth && r.closedAt.value >= s.previousMonthStart)
      && !(&& r.closedAt.value >= s.previousWeekStart
           && CountIf(t.matches, ClosedFrom(s.weekStart, s.now)) < s.weeklyFallbackMinMatches)
  {
    RejectKeepsRest(t.matches, IsMatchCandidate(t.matches, s));
    if Closed(r) {
      AmongRecentReads(t.matches, s, r);
      PreviousWeekReads(t.matches, s, r);
    }
  }

  lemma AmongRecentReads(rows: seq<MatchRow>, s: Settings, r: MatchRow)
    requires Closed(r)
    ensures AmongRecent(rows, s, r) <==> CountIf(rows, ClosedLaterThan(r)) < s.recentMatchesKeep
  {
    CountIfSame(rows, ClosedMoreRecentThan(r), ClosedLaterThan(r));
  }

  lemma PreviousWeekReads(rows: seq<MatchRow>, s: Settings, r: MatchRow)
    requires r in rows && Closed(r)
    ensures s.previousWeekStart <= r.closedAt.value < s.weekStart ==>
      ProtectsPreviousWeek(rows, s) == (CountIf(rows, ClosedFrom(s.weekStart, s.now)) < s.weeklyFallbackMinMatches)
  {
    CountIfSame(rows, ClosedBetween(s.weekStart, s.now), ClosedFrom(s.weekStart, s.now));
    if s.previousWeekStart <= r.closedAt.value < s.weekStart {
      SomeCounted(rows, ClosedBetween(s.previousWeekStart, s.weekStart), r);
    }
  }

  lemma SomeCounted(rows: seq<MatchRow>, p: MatchRow -> bool, r: MatchRow)
    requires r in rows && p(r)
    ensures CountIf(rows, p) > 0
  {
    CountIfStrictlyFewer(rows, (m: MatchRow) => false, p, r);
  }

  // A closed match that is left covers the server time of the event.
  ghost predicate CoveredByLeft(left: seq<MatchRow>, target: string, time: int) {
    exists m ::
      && m in left && Closed(m) && m.target == target
      && m.lower.Some? && m.upper.Some? && m.lower.value <= time <= m.upper.value
  }

  /** A kill or boundary event is deleted exactly when it is old and no match that is left needs it. */
  lemma EventIsGoneIff(t: Tables, s: Settings, e: EventRow)
    requires e in t.events
    ensures e !in Cleaned(t, s).events <==>
      && e.eventTime.Some?
      && if e.eventType == "kill" || e.eventType == "match_start" || e.eventType == "match_end" then
           && e.eventTime.value < s.criticalCutoff && e.serverTime.Some?
           && !CoveredByLeft(Cleaned(t, s).matches, e.target, e.serverTime.value)
         else e.eventTime.value < s.noncriticalCutoff
  {
    RejectKeepsRest(t.events, IsEventCandidate(t.matches, s));
    if e.serverTime.Some? {
      LeftAreTheProtected(t, s, e.target, e.serverTime.value);
    }
  }

  lemma LeftAreTheProtected(t: Tables, s: Settings, target: string, time: int)
    ensures CoveredByLeft(Cleaned(t, s).matches, target, time) <==> ServerTimeIsProtected(t.matches, s, target, time)
  {
    SurvivorsAreKept(t.matches, s);
    if CoveredByLeft(Cleaned(t, s).matches, target, time) {
      var m :| && m in Cleaned(t, s).matches && Closed(m) && m.target == target
               && m.lower.Some? && m.upper.Some? && m.lower.value <= time <= m.upper.value;
      assert Shields(t.matches, s, m, target, time);
    }
    if m :| m in t.matches && Shields(t.matches, s, m, target, time) {
      assert m in Cleaned(t, s).matches && Closed(m);
    }
  }

  /** A statistic is deleted exactly when its match is, and a snapshot exactly when it is old. */
  lemma StatIsGoneIff(t: Tables, s: Settings, x: StatRow)
    requires x in t.stats
    ensures x !in Cleaned(t, s).stats <==>
      exists r :: r in t.matches && r !in Cleaned(t, s).matches && x.target == r.target && x.matchKey == r.matchKey
  {
    RejectKeepsRest(t.stats, OfDoomedMatch(t.matches, s));
    SurvivorsAreKept(t.matches, s);
  }

  lemma SnapshotIsGoneIff(t: Tables, s: Settings, x: SnapshotRow)
    requires x in t.snapshots
    ensures x !in Cleaned(t, s).snapshots <==> x.capturedAt.Some? && x.capturedAt.value < s.snapshotCutoff
  {
    RejectKeepsRest(t.snapshots, IsSnapshotCandidate(s));
  }

  function Not<T>(p: T -> bool): T -> bool {
    (x: T) => !p(x)
  }

  function StatOf(r: MatchRow): StatRow -> bool {
    (x: StatRow) => x.target == r.target && x.matchKey == r.matchKey
  }

  /** A match keeps all its stat rows or loses them all, according to whether it keeps its own row. */
  lemma StatsFollowTheirMatch(t: Tables, s: Settings, r: MatchRow)
    requires r in t.matches && DistinctKeys(t.matches)
    ensures Reject(Cleaned(t, s).stats, Not(StatOf(r)))
      == if r in Cleaned(t, s).matches then Reject(t.stats, Not(StatOf(r))) else []
  {
    SurvivorsAreKept(t.matches, s);
    var doomed := OfDoomedMatch(t.matches, s);
    forall x | x in t.stats && StatOf(r)(x) ensures doomed(x) <==> IsMatchCandidate(t.matches, s)(r) {
      if doomed(x) {
        var other :| other in t.matches && IsMatchCandidate(t.matches, s)(other) && StatIn(x, other);
        var i :| 0 <= i < |t.matches| && t.matches[i] == r;
        var j :| 0 <= j < |t.matches| && t.matches[j] == other;
        assert i == j;
      }
    }
    if IsMatchCandidate(t.matches, s)(r) {
      var all := (x: StatRow) => true;
      RejectTwice(t.stats, doomed, Not(StatOf(r)), all);
      RejectKeepsRest(t.stats, all);
      CountIfAll(t.stats, all);
    } else {
      RejectTwice(t.stats, doomed, Not(StatOf(r)), Not(StatOf(r)));
    }
  }

}

/** Deletion by id in batches, and deletion of the stat rows of a list of matches. */
module Maintenance {
  import opened Counting
  import opened Rejecting
  import opened Retention

  function IdsOf<T>(rows: seq<T>, id: T -> int): seq<int> {
    seq(|rows|, i requires 0 <= i < |rows| => id(rows[i]))
  }

  function MatchId(r: MatchRow): int { r.id }

  function EventId(e: EventRow): int { e.id }

  function SnapshotId(r: SnapshotRow): int { r.id }

  // DELETE ... WHERE id IN (ids)
  function HasIdAmong<T>(ids: seq<int>, id: T -> int): T -> bool {
    (x: T) => id(x) in ids
  }

  ghost predicate Keyed<T>(rows: seq<T>, id: T -> int) {
    forall i, j :: 0 <= i < j < |rows| ==> id(rows[i]) != id(rows[j])
  }

  // _chunked: where each batch of `size` out of `n` ends, from `from` on.
  function BatchEnds(from: nat, n: nat, size: nat): (ends: seq<nat>)
    requires size > 0 && from <= n
    ensures forall i :: 0 <= i < |ends| ==> from < ends[i] <= n
    decreases n - from
  {
    if from == n then []
    else
      var next := if from + size < n then from + size else n;
      [next] + BatchEnds(next, n, size)
  }

  // The table once the first `m` of the ids are deleted.
  ghost predicate DeletedUpTo<T>(table: seq<T>, id: T -> int, ids: seq<int>, m: nat, left: seq<T>) {
    m <= |ids| && left == Reject(table, HasIdAmong(ids[..m], id))
  }

  // One table after each of the batches that end at `ends`.
  ghost predicate DeletedInBatches<T>(table: seq<T>, id: T -> int, ids: seq<int>, ends: seq<nat>,
      commits: seq<seq<T>>) {
    |commits| == |ends| && forall i :: 0 <= i < |ends| ==> DeletedUpTo(table, id, ids, ends[i], commits[i])
  }

  lemma EndsOneMore(all: seq<nat>, ends: seq<nat>, from: nat, next: nat, n: nat, size: nat)
    requires size > 0 && from < n && next == (if from + size < n then from + size else n)
    requires all == ends + BatchEnds(from, n, size)
    ensures all == (ends + [next]) + BatchEnds(next, n, size)
  {
    assert BatchEnds(from, n, size) == [next] + BatchEnds(next, n, size);
  }

  lemma DeletedOneMore<T>(table: seq<T>, id: T -> int, ids: seq<int>, ends: seq<nat>, commits: seq<seq<T>>, next: nat,
                          left: seq<T>)
    requires DeletedInBatches(table, id, ids, ends, commits) && DeletedUpTo(table, id, ids, next, left)
    ensures DeletedInBatches(table, id, ids, ends + [next], commits + [left])
  {
  }

  // One batch more of a table.
  lemma BatchDeleted<T>(table: seq<T>, id: T -> int, ids: seq<int>, index: nat, next: nat, left: seq<T>)
    requires index <= next <= |ids| && DeletedUpTo(table, id, ids, index, left)
    ensures DeletedUpTo(table, id, ids, next, Reject(left, HasIdAmong(ids[index..next], id)))
    ensures CountIf(left, HasIdAmong(ids[index..next], id)) + |Reject(left, HasIdAmong(ids[index..next], id))| == |left|
  {
    var batch := ids[index..next];
    assert ids[..next] == ids[..index] + batch;
    RejectTwice(table, HasIdAmong(ids[..index], id), HasIdAmong(batch, id), HasIdAmong(ids[..next], id));
    RejectKeepsRest(left, HasIdAmong(batch, id));
  }

  /** _delete_ids_in_batches: whatever the batch size, one set difference; `commits` are the tables after each batch. */
  method DeleteIdsInBatches<T>(table: seq<T>, id: T -> int, ids: seq<int>, batchSize: nat)
    returns (left: seq<T>, deleted: nat, ghost commits: seq<seq<T>>)
    requires batchSize > 0
    ensures left == Reject(table, HasIdAmong(ids, id))
    ensures deleted == CountIf(table, HasIdAmong(ids, id))
    ensures DeletedInBatches(table, id, ids, BatchEnds(0, |ids|, batchSize), commits)
  {
    left, deleted, commits := table, 0, [];
    ghost var all, ends: seq<nat> := BatchEnds(0, |ids|, batchSize), [];
    var index := 0;
    RejectNone(table, HasIdAmong(ids[..0], id));
    while index < |ids|
      invariant 0 <= index <= |ids|
      invariant DeletedUpTo(table, id, ids, index, left) && deleted + |left| == |table|
      invariant DeletedInBatches(table, id, ids, ends, commits) && all == ends + BatchEnds(index, |ids|, batchSize)
      decreases |ids| - index
    {
      var next := if index + batchSize < |ids| then index + batchSize else |ids|;
      var batch := ids[index..next];
      BatchDeleted(table, id, ids, index, next, left);
      EndsOneMore(all, ends, index, next, |ids|, batchSize);
      deleted := deleted + CountIf(left, HasIdAmong(batch, id));
      left := Reject(left, HasIdAmong(batch, id));
      DeletedOneMore(table, id, ids, ends, commits, next, left);
      commits, ends, index := commits + [left], ends + [next], next;
    }
    assert ids[..|ids|] == ids && all == ends;
    RejectKeepsRest(table, HasIdAmong(ids, id));
  }

  // DELETE ... WHERE (target_key = ? AND match_key = ?) OR ...
  function OfMatches(matches: seq<MatchRow>): StatRow -> bool {
    (x: StatRow) => exists m <- matches :: m.target == x.target && m.matchKey == x.matchKey
  }

  lemma OfMatchesConcat(some: seq<MatchRow>, more: seq<MatchRow>, x: StatRow)
    ensures OfMatches(some + more)(x) == (OfMatches(some)(x) || OfMatches(more)(x))
  {
    if OfMatches(some)(x) {
      var m :| m in some && m.target == x.target && m.matchKey == x.matchKey;
      assert m in some + more;
    }
    if OfMatches(more)(x) {
      var m :| m in more && m.target == x.target && m.matchKey == x.matchKey;
      assert m in some + more;
    }
  }

  // The stat rows once those of the first `m` matches are deleted.
  ghost predicate StatsDeletedUpTo(stats: seq<StatRow>, matches: seq<MatchRow>, m: nat, left: seq<StatRow>) {
    m <= |matches| && left == Reject(stats, OfMatches(matches[..m]))
  }

  ghost predicate StatsDeletedInBatches(stats: seq<StatRow>, matches: seq<MatchRow>, ends: seq<nat>,
      commits: seq<seq<StatRow>>) {
    |commits| == |ends| && forall i :: 0 <= i < |ends| ==> StatsDeletedUpTo(stats, matches, ends[i], commits[i])
  }

  // At most 250 matches at a time.
  function StatBatch(batchSize: nat): (size: nat)
    ensures 1 <= size <= 250 && (batchSize == 0 ==> size == 1)
    ensures batchSize >= 1 ==> size <= batchSize && (size == 250 || size == batchSize)
  {
    if batchSize > 250 then 250 else if batchSize > 1 then batchSize else 1
  }

  lemma StatsOneMore(stats: seq<StatRow>, matches: seq<MatchRow>, ends: seq<nat>, commits: seq<seq<StatRow>>,
                     next: nat, left: seq<StatRow>)
    requires StatsDeletedInBatches(stats, matches, ends, commits) && StatsDeletedUpTo(stats, matches, next, left)
    ensures StatsDeletedInBatches(stats, matches, ends + [next], commits + [left])
  {
  }

  lemma StatBatchDeleted(stats: seq<StatRow>, matches: seq<MatchRow>, index: nat, next: nat, left: seq<StatRow>)
    requires index <= next <= |matches| && StatsDeletedUpTo(stats, matches, index, left)
    ensures StatsDeletedUpTo(stats, matches, next, Reject(left, OfMatches(matches[index..next])))
    ensures CountIf(left, OfMatches(matches[index..next])) + |Reject(left, OfMatches(matches[index..next]))| == |left|
  {
    var some, batch := matches[..index], matches[index..next];
    assert matches[..next] == some + batch;
    forall x | x in stats ensures OfMatches(matches[..next])(x) == (OfMatches(some)(x) || OfMatches(batch)(x)) {
      OfMatchesConcat(some, batch, x);
    }
    RejectTwice(stats, OfMatches(some), OfMatches(batch), OfMatches(matches[..next]));
    RejectKeepsRest(left, OfMatches(batch));
  }

  /** _delete_match_player_stats: one set difference, in batches of at most 250 matches. */
  method DeleteMatchPlayerStats(stats: seq<StatRow>, matches: seq<MatchRow>, batchSize: nat)
    returns (left: seq<StatRow>, deleted: nat, ghost commits: seq<seq<StatRow>>)
    ensures left == Reject(stats, OfMatches(matches))
    ensures deleted == CountIf(stats, OfMatches(matches))
    ensures StatsDeletedInBatches(stats, matches, BatchEnds(0, |matches|, StatBatch(batchSize)), commits)
  {
    var size := StatBatch(batchSize);
    left, deleted, commits := stats, 0, [];
    ghost var all, ends: seq<nat> := BatchEnds(0, |matches|, size), [];
    var index := 0;
    RejectNone(stats, OfMatches(matches[..0]));
    while index < |matches|
      invariant 0 <= index <= |matches|
      invariant StatsDeletedUpTo(stats, matches, index, left) && deleted + |left| == |stats|
      invariant StatsDeletedInBatches(stats, matches, ends, commits) && all == ends + BatchEnds(index, |matches|, size)
      decreases |matches| - index
    {
      var next := if index + size < |matches| then index + size else |matches|;
      var batch := matches[index..next];
      StatBatchDeleted(stats, matches, index, next, left);
      EndsOneMore(all, ends, index, next, |matches|, size);
      deleted := deleted + CountIf(left, OfMatches(batch));
      left := Reject(left, OfMatches(batch));
      StatsOneMore(stats, matches, ends, commits, next, left);
      commits, ends, index := commits + [left], ends + [next], next;
    }
    assert matches[..|matches|] == matches && all == ends;
    RejectKeepsRest(stats, OfMatches(matches));
  }

  /** Deleting the ids of chosen rows deletes exactly the chosen rows when ids are keys. */
  lemma DeletingByIdIsExact<T>(table: seq<T>, id: T -> int, stays: T -> bool, goes: T -> bool, chosen: seq<T>)
    requires Keyed(table, id) && (forall x :: x in table ==> goes(x) == !stays(x))
    requires forall x :: x in chosen <==> x in table && goes(x)
    ensures Reject(table, HasIdAmong(IdsOf(chosen, id), id)) == Reject(table, goes)
    ensures CountIf(table, HasIdAmong(IdsOf(chosen, id), id)) == CountIf(table, goes)
  {
    var ids := IdsOf(chosen, id);
    forall x | x in table ensures HasIdAmong(ids, id)(x) == goes(x) {
      if x in chosen {
        var k :| 0 <= k < |chosen| && chosen[k] == x;
        assert ids[k] == id(x);
      }
      if id(x) in ids {
        var k :| 0 <= k < |ids| && ids[k] == id(x);
        assert chosen[k] in chosen;
        var i :| 0 <= i < |table| && table[i] == x;
        var j :| 0 <= j < |table| && table[j] == chosen[k];
        assert i == j;
      }
    }
    RejectSame(table, HasIdAmong(ids, id), goes);
    RejectKeepsRest(table, HasIdAmong(ids, id));
    RejectKeepsRest(table, goes);
  }

  ghost predicate PrimaryKeys(t: Tables) {
    && DistinctIds(t.matches)
    && Keyed(t.events, EventId)
    && Keyed(t.snapshots, SnapshotId)
  }

  lemma ExpiredAreExact(events: seq<EventRow>, snapshots: seq<SnapshotRow>, rows: seq<MatchRow>, s: Settings)
    requires Keyed(events, EventId) && Keyed(snapshots, SnapshotId)
    ensures var chosen := HasIdAmong(IdsOf(Reject(events, StaysEvent(rows, s)), EventId), EventId);
      Reject(events, chosen) == Reject(events, IsEventCandidate(rows, s))
        && CountIf(events, chosen) + |Reject(events, chosen)| == |events|
    ensures var chosen := HasIdAmong(IdsOf(Reject(snapshots, StaysSnapshot(s)), SnapshotId), SnapshotId);
      Reject(snapshots, chosen) == Reject(snapshots, IsSnapshotCandidate(s))
        && CountIf(snapshots, chosen) + |Reject(snapshots, chosen)| == |snapshots|
  {
    RejectKeepsRest(events, StaysEvent(rows, s));
    DeletingByIdIsExact(events, EventId, StaysEvent(rows, s), IsEventCandidate(rows, s),
                        Reject(events, StaysEvent(rows, s)));
    RejectKeepsRest(snapshots, StaysSnapshot(s));
    DeletingByIdIsExact(snapshots, SnapshotId, StaysSnapshot(s), IsSnapshotCandidate(s),
                        Reject(snapshots, StaysSnapshot(s)));
    RejectKeepsRest(events, IsEventCandidate(rows, s));
    RejectKeepsRest(snapshots, IsSnapshotCandidate(s));
  }

  // ---------- A cleanup that stops after any batch ----------

  // What the planning gives, in the order it is deleted.
  datatype Plan = Plan(matches: seq<MatchRow>, events: seq<EventRow>, snapshots: seq<SnapshotRow>)

  ghost predicate IsPlanOf(plan: Plan, t: Tables, s: Settings) {
    && (forall r :: r in plan.matches <==> r in t.matches && IsMatchCandidate(t.matches, s)(r))
    && (forall e :: e in plan.events <==> e in t.events && EventExpires(t.matches, s, e))
    && (forall r :: r in plan.snapshots <==> r in t.snapshots && IsSnapshotCandidate(s)(r))
  }

  // How far the deletions have come: the matches whose stat rows are gone, and the matches, events and snapshots gone.
  datatype Reached = Reached(stats: nat, matches: nat, events: nat, snapshots: nat)

  // A table is begun when the one before it is done.
  predicate InOrder(plan: Plan, at: Reached) {
    && at.stats <= |plan.matches| && at.matches <= |plan.matches| && at.events <= |plan.events|
      && at.snapshots <= |plan.snapshots|
    && (at.matches > 0 ==> at.stats == |plan.matches|)
    && (at.events > 0 ==> at.matches == |plan.matches|)
    && (at.snapshots > 0 ==> at.events == |plan.events|)
  }

  // The tables once the deletions have come so far.
  function Interrupted(t: Tables, plan: Plan, at: Reached): Tables
    requires InOrder(plan, at)
  {
    Without(t, GoneAt(plan, at))
  }

  function GoneAt(plan: Plan, at: Reached): Gone
    requires InOrder(plan, at)
  {
    Gone(HasIdAmong(IdsOf(plan.matches[..at.matches], MatchId), MatchId), OfMatches(plan.matches[..at.stats]),
         HasIdAmong(IdsOf(plan.events[..at.events], EventId), EventId),
           HasIdAmong(IdsOf(plan.snapshots[..at.snapshots], SnapshotId), SnapshotId))
  }

  // In a table with keys, a row whose id is among those of chosen rows is one of them.
  lemma IdIsOfRow<T>(table: seq<T>, id: T -> int, chosen: seq<T>, x: T)
    requires Keyed(table, id) && x in table && HasIdAmong(IdsOf(chosen, id), id)(x)
      && forall y :: y in chosen ==> y in table
    ensures x in chosen
  {
    var k :| 0 <= k < |chosen| && IdsOf(chosen, id)[k] == id(x);
    assert chosen[k] in chosen;
    var i :| 0 <= i < |table| && table[i] == x;
    var j :| 0 <= j < |table| && table[j] == chosen[k];
    assert i == j;
  }

  lemma MatchesGoneArePlanned(t: Tables, s: Settings, plan: Plan, at: Reached)
    requires PrimaryKeys(t) && IsPlanOf(plan, t, s) && InOrder(plan, at)
    ensures OnlyCandidates(t.matches, s, GoneAt(plan, at).matches)
    ensures forall r :: r in t.matches && GoneAt(plan, at).matches(r) ==> at.matches > 0 && r in plan.matches
  {
    var chosen := plan.matches[..at.matches];
    forall r | r in t.matches && GoneAt(plan, at).matches(r) ensures at.matches > 0 && r in plan.matches {
      IdIsOfRow(t.matches, MatchId, chosen, r);
      assert r in chosen;
    }
  }

  lemma StatsGoneArePlanned(t: Tables, s: Settings, plan: Plan, at: Reached)
    requires PrimaryKeys(t) && IsPlanOf(plan, t, s) && InOrder(plan, at)
    ensures StatsGoFirst(t.matches, t.stats, GoneAt(plan, at).matches, GoneAt(plan, at).stats)
    ensures forall x :: x in t.stats && GoneAt(plan, at).stats(x) ==> InDoomedMatch(t.matches, s, x)
  {
    var gone := GoneAt(plan, at);
    MatchesGoneArePlanned(t, s, plan, at);
    forall r, x | r in t.matches && gone.matches(r) && x in t.stats && StatIn(x, r) ensures gone.stats(x) {
      assert plan.matches[..at.stats] == plan.matches;
    }
    forall x | x in t.stats && gone.stats(x) ensures InDoomedMatch(t.matches, s, x) {
      var m :| m in plan.matches[..at.stats] && m.target == x.target && m.matchKey == x.matchKey;
      assert m in plan.matches && StatIn(x, m);
    }
  }

  lemma RestGoneIsPlanned(t: Tables, s: Settings, plan: Plan, at: Reached)
    requires PrimaryKeys(t) && IsPlanOf(plan, t, s) && InOrder(plan, at)
    ensures forall e :: e in t.events && GoneAt(plan, at).events(e) ==> EventExpires(t.matches, s, e)
    ensures forall r :: r in t.snapshots && GoneAt(plan, at).snapshots(r) ==> IsSnapshotCandidate(s)(r)
  {
    forall e | e in t.events && GoneAt(plan, at).events(e) ensures EventExpires(t.matches, s, e) {
      IdIsOfRow(t.events, EventId, plan.events[..at.events], e);
      assert e in plan.events;
    }
    forall r | r in t.snapshots && GoneAt(plan, at).snapshots(r) ensures IsSnapshotCandidate(s)(r) {
      IdIsOfRow(t.snapshots, SnapshotId, plan.snapshots[..at.snapshots], r);
      assert r in plan.snapshots;
    }
  }

  // The tables are those of a cleanup that has come somewhere through its plan.
  ghost predicate IsInterruption(t: Tables, s: Settings, plan: Plan, now: Tables) {
    IsPlanOf(plan, t, s) && exists at :: InOrder(plan, at) && now == Interrupted(t, plan, at)
  }

  lemma NothingGone<T>(table: seq<T>, id: T -> int, chosen: seq<T>)
    ensures Reject(table, HasIdAmong(IdsOf(chosen[..0], id), id)) == table
  {
    RejectNone(table, HasIdAmong(IdsOf(chosen[..0], id), id));
  }

  lemma IdsOfPrefix<T>(chosen: seq<T>, id: T -> int, m: nat)
    requires m <= |chosen|
    ensures IdsOf(chosen, id)[..m] == IdsOf(chosen[..m], id) && |IdsOf(chosen, id)| == |chosen|
  {
  }

  // While the stat rows go.
  lemma StatsStage(t: Tables, s: Settings, plan: Plan, m: nat, left: seq<StatRow>)
    requires IsPlanOf(plan, t, s) && StatsDeletedUpTo(t.stats, plan.matches, m, left)
    ensures IsInterruption(t, s, plan, t.(stats := left))
  {
    NothingGone(t.matches, MatchId, plan.matches);
    NothingGone(t.events, EventId, plan.events);
    NothingGone(t.snapshots, SnapshotId, plan.snapshots);
    assert InOrder(plan, Reached(m, 0, 0, 0)) && t.(stats := left) == Interrupted(t, plan, Reached(m, 0, 0, 0));
  }

  // While the matches go; their stat rows are gone.
  lemma MatchesStage(t: Tables, s: Settings, plan: Plan, m: nat, left: seq<MatchRow>, stats: seq<StatRow>)
    requires IsPlanOf(plan, t, s) && DeletedUpTo(t.matches, MatchId, IdsOf(plan.matches, MatchId), m, left)
    requires stats == Reject(t.stats, OfMatches(plan.matches))
    ensures IsInterruption(t, s, plan, t.(stats := stats, matches := left))
  {
    var all := |plan.matches|;
    assert plan.matches[..all] == plan.matches;
    IdsOfPrefix(plan.matches, MatchId, m);
    NothingGone(t.events, EventId, plan.events);
    NothingGone(t.snapshots, SnapshotId, plan.snapshots);
    assert InOrder(plan, Reached(all, m, 0, 0))
      && t.(stats := stats, matches := left) == Interrupted(t, plan, Reached(all, m, 0, 0));
  }

  // Once the matches and their stat rows are gone, and so many events and snapshots.
  lemma LastStages(t: Tables, s: Settings, plan: Plan, m: nat, k: nat, events: seq<EventRow>,
                   snapshots: seq<SnapshotRow>)
    requires IsPlanOf(plan, t, s) && DeletedUpTo(t.events, EventId, IdsOf(plan.events, EventId), m, events)
    requires DeletedUpTo(t.snapshots, SnapshotId, IdsOf(plan.snapshots, SnapshotId), k, snapshots)
    requires (k > 0 ==> m == |plan.events|)
    ensures IsInterruption(t, s, plan, Tables(Reject(t.matches, HasIdAmong(IdsOf(plan.matches, MatchId), MatchId)),
                                              Reject(t.stats, OfMatches(plan.matches)), events, snapshots))
  {
    var all := |plan.matches|;
    assert plan.matches[..all] == plan.matches;
    IdsOfPrefix(plan.matches, MatchId, all);
    IdsOfPrefix(plan.events, EventId, m);
    IdsOfPrefix(plan.snapshots, SnapshotId, k);
    assert InOrder(plan, Reached(all, all, m, k));
    assert Tables(Reject(t.matches, HasIdAmong(IdsOf(plan.matches, MatchId), MatchId)),
                  Reject(t.stats, OfMatches(plan.matches)), events, snapshots)
      == Interrupted(t, plan, Reached(all, all, m, k));
  }

  /** A cleanup that stops after any batch and is run again at the same instant ends as if it had not stopped. */
  lemma InterruptedCleanupCompletes(t: Tables, s: Settings, plan: Plan, at: Reached)
    requires PrimaryKeys(t) && IsPlanOf(plan, t, s) && InOrder(plan, at)
    ensures Cleaned(Interrupted(t, plan, at), s) == Cleaned(t, s)
  {
    MatchesGoneArePlanned(t, s, plan, at);
    StatsGoneArePlanned(t, s, plan, at);
    RestGoneIsPlanned(t, s, plan, at);
    assert Keeping(s, s.recentMatchesKeep) == s;
    PartThenCleanup(t, s, GoneAt(plan, at), s.recentMatchesKeep);
  }

  datatype Deleted = Deleted(stats: int, matches: int, events: int, snapshots: int)

  /** The four tables a cleanup works on, each in the order of its ids. */
  class Database {
    var matches: seq<MatchRow>
    var stats: seq<StatRow>
    var events: seq<EventRow>
    var snapshots: seq<SnapshotRow>

    ghost function Contents(): Tables
      reads this
    {
      Tables(matches, stats, events, snapshots)
    }

    method DeletePlannedStatsAndMatches(candidates: seq<MatchRow>, s: Settings, ghost plan: Plan)
      returns (deletedStats: nat, deletedMatches: nat, ghost commits: seq<Tables>)
      requires DistinctIds(matches) && s.batchSize > 0
      requires IsPlanOf(plan, Contents(), s) && plan.matches == candidates
      modifies this`matches, this`stats
      ensures matches == Reject(old(matches), IsMatchCandidate(old(matches), s))
      ensures stats == Reject(old(stats), OfDoomedMatch(old(matches), s))
      ensures matches == Reject(old(matches), HasIdAmong(IdsOf(candidates, MatchId), MatchId))
        && stats == Reject(old(stats), OfMatches(candidates))
      ensures deletedStats + |stats| == |old(stats)| && deletedMatches + |matches| == |old(matches)|
      ensures |commits| == |BatchEnds(0, |candidates|, StatBatch(s.batchSize))|
        + |BatchEnds(0, |candidates|, s.batchSize)|
      ensures forall i :: 0 <= i < |commits| ==> IsInterruption(old(Contents()), s, plan, commits[i])
    {
      ghost var before := Contents();
      CandidatesAreDoomed(before, s, candidates);
      RejectSame(stats, OfMatches(candidates), OfDoomedMatch(matches, s));
      RejectKeepsRest(stats, OfMatches(candidates));
      DeletingByIdIsExact(matches, MatchId, Not(IsMatchCandidate(matches, s)), IsMatchCandidate(matches, s),
                          candidates);
      RejectKeepsRest(matches, IsMatchCandidate(matches, s));
      ghost var statCommits, matchCommits;
      stats, deletedStats, statCommits := DeleteMatchPlayerStats(stats, candidates, s.batchSize);
      matches, deletedMatches, matchCommits :=
        DeleteIdsInBatches(matches, MatchId, IdsOf(candidates, MatchId), s.batchSize);
      commits := StatsAndMatchesCommits(before, s, plan, statCommits, matchCommits);
    }

    method DeletePlannedEventsAndSnapshots(oldEvents: seq<EventRow>, oldSnapshots: seq<SnapshotRow>,
        ghost rows: seq<MatchRow>, s: Settings,
                                           ghost before: Tables, ghost plan: Plan)
      returns (deletedEvents: nat, deletedSnapshots: nat, ghost commits: seq<Tables>)
      requires Keyed(events, EventId) && Keyed(snapshots, SnapshotId) && s.batchSize > 0
      requires oldEvents == Reject(events, StaysEvent(rows, s)) && oldSnapshots == Reject(snapshots, StaysSnapshot(s))
      requires IsPlanOf(plan, before, s) && plan.events == oldEvents && plan.snapshots == oldSnapshots
      requires Contents() == AfterMatches(before, plan)
      modifies this`events, this`snapshots
      ensures events == Reject(old(events), IsEventCandidate(rows, s))
        && snapshots == Reject(old(snapshots), IsSnapshotCandidate(s))
      ensures deletedEvents + |events| == |old(events)| && deletedSnapshots + |snapshots| == |old(snapshots)|
      ensures |commits| == |BatchEnds(0, |oldEvents|, s.batchSize)| + |BatchEnds(0, |oldSnapshots|, s.batchSize)|
      ensures forall i :: 0 <= i < |commits| ==> IsInterruption(before, s, plan, commits[i])
    {
      ExpiredAreExact(events, snapshots, rows, s);
      ghost var eventCommits, snapshotCommits;
      events, deletedEvents, eventCommits :=
        DeleteIdsInBatches(events, EventId, IdsOf(oldEvents, EventId), s.batchSize);
      snapshots, deletedSnapshots, snapshotCommits :=
        DeleteIdsInBatches(snapshots, SnapshotId, IdsOf(oldSnapshots, SnapshotId), s.batchSize);
      commits := EventsAndSnapshotsCommits(before, s, plan, eventCommits, events, snapshotCommits);
    }

    method DeletePlanned(candidates: seq<MatchRow>, oldEvents: seq<EventRow>, oldSnapshots: seq<SnapshotRow>,
                         s: Settings, ghost plan: Plan)
      returns (deleted: Deleted, ghost commits: seq<Tables>)
      requires PrimaryKeys(Contents()) && s.batchSize > 0
      requires IsPlanOf(plan, Contents(), s) && plan == Plan(candidates, oldEvents, oldSnapshots)
      requires oldEvents == Reject(events, StaysEvent(matches, s))
      requires oldSnapshots == Reject(snapshots, StaysSnapshot(s))
      modifies this
      ensures Contents() == Cleaned(old(Contents()), s)
      ensures deleted == Deleted(|old(stats)| - |stats|, |old(matches)| - |matches|, |old(events)| - |events|,
                                 |old(snapshots)| - |snapshots|)
      ensures |commits| == BatchesOf(plan, s)
      ensures forall i :: 0 <= i < |commits| ==> IsInterruption(old(Contents()), s, plan, commits[i])
    {
      var goneStats, goneMatches, goneEvents, goneSnapshots;
      ghost var before, firstCommits, lastCommits := Contents(), [], [];
      goneStats, goneMatches, firstCommits := DeletePlannedStatsAndMatches(candidates, s, plan);
      goneEvents, goneSnapshots, lastCommits :=
        DeletePlannedEventsAndSnapshots(oldEvents, oldSnapshots, before.matches, s, before, plan);
      deleted := Deleted(goneStats, goneMatches, goneEvents, goneSnapshots);
      commits := firstCommits + lastCommits;
    }

    /**
     _run_cleanup: a dry run changes nothing, an applied one deletes exactly the plan and counts the rows. The tables
     after each of its batches are those of an interrupted cleanup, which running it again completes.
     */
    method RunCleanup(s: Settings, apply: bool) returns (deleted: Deleted, ghost plan: Plan, ghost commits: seq<Tables>)
      requires PrimaryKeys(Contents()) && s.batchSize > 0
      modifies this
      ensures Contents() == if apply then Cleaned(old(Contents()), s) else old(Contents())
      ensures deleted == Deleted(|old(stats)| - |stats|, |old(matches)| - |matches|, |old(events)| - |events|,
                                 |old(snapshots)| - |snapshots|)
      ensures IsPlanOf(plan, old(Contents()), s) && |commits| == if apply then BatchesOf(plan, s) else 0
      ensures forall i :: 0 <= i < |commits| ==>
        IsInterruption(old(Contents()), s, plan, commits[i]) && Cleaned(commits[i], s) == Cleaned(old(Contents()), s)
    {
      ghost var before := Contents();
      var oldSnapshots := PlanSnapshotCleanup(snapshots, s);
      var candidates, ranges := PlanMatchCleanup(matches, s);
      var oldEvents := PlanAdminLogCleanup(events, s, ranges, matches);
      deleted, commits, plan := Deleted(0, 0, 0, 0), [], Plan(candidates, oldEvents, oldSnapshots);
      PlannedAreListed(before, s, plan);
      if apply {
        deleted, commits := DeletePlanned(candidates, oldEvents, oldSnapshots, s, plan);
        InterruptionsComplete(before, s, plan, commits);
      }
    }
  }

  ghost function AfterMatches(t: Tables, plan: Plan): Tables {
    t.(matches := Reject(t.matches, HasIdAmong(IdsOf(plan.matches, MatchId), MatchId)),
       stats := Reject(t.stats, OfMatches(plan.matches)))
  }

  // One commit per batch of the four tables.
  function BatchesOf(plan: Plan, s: Settings): nat
    requires s.batchSize > 0
  {
    |BatchEnds(0, |plan.matches|, StatBatch(s.batchSize))| + |BatchEnds(0, |plan.matches|, s.batchSize)|
    + |BatchEnds(0, |plan.events|, s.batchSize)| + |BatchEnds(0, |plan.snapshots|, s.batchSize)|
  }

  lemma CandidatesAreDoomed(t: Tables, s: Settings, candidates: seq<MatchRow>)
    requires forall r :: r in candidates <==> r in t.matches && IsMatchCandidate(t.matches, s)(r)
    ensures forall x :: x in t.stats ==> OfMatches(candidates)(x) == OfDoomedMatch(t.matches, s)(x)
  {
    forall x | x in t.stats ensures OfMatches(candidates)(x) == OfDoomedMatch(t.matches, s)(x) {
      if OfMatches(candidates)(x) {
        var m :| m in candidates && m.target == x.target && m.matchKey == x.matchKey;
        assert m in t.matches && IsMatchCandidate(t.matches, s)(m);
      }
      if InDoomedMatch(t.matches, s, x) {
        var m :| m in t.matches && IsMatchCandidate(t.matches, s)(m) && StatIn(x, m);
        assert m in candidates;
      }
    }
  }

  lemma PlannedAreListed(t: Tables, s: Settings, plan: Plan)
    requires forall r :: r in plan.matches <==> r in t.matches && IsMatchCandidate(t.matches, s)(r)
    requires plan.events == Reject(t.events, StaysEvent(t.matches, s))
    requires plan.snapshots == Reject(t.snapshots, StaysSnapshot(s))
    ensures IsPlanOf(plan, t, s)
  {
    RejectKeepsRest(t.events, StaysEvent(t.matches, s));
    RejectKeepsRest(t.snapshots, StaysSnapshot(s));
  }

  // The tables after each batch of the first two deletions.
  lemma StatsAndMatchesCommits(t: Tables, s: Settings, plan: Plan, statCommits: seq<seq<StatRow>>,
                               matchCommits: seq<seq<MatchRow>>)
    returns (commits: seq<Tables>)
    requires IsPlanOf(plan, t, s) && s.batchSize > 0
    requires StatsDeletedInBatches(t.stats, plan.matches, BatchEnds(0, |plan.matches|, StatBatch(s.batchSize)),
                                   statCommits)
    requires DeletedInBatches(t.matches, MatchId, IdsOf(plan.matches, MatchId),
                              BatchEnds(0, |plan.matches|, s.batchSize), matchCommits)
    ensures |commits| == |statCommits| + |matchCommits|
    ensures forall i :: 0 <= i < |commits| ==> IsInterruption(t, s, plan, commits[i])
  {
    var stats := Reject(t.stats, OfMatches(plan.matches));
    var first := seq(|statCommits|, i requires 0 <= i < |statCommits| => t.(stats := statCommits[i]));
    var second := seq(|matchCommits|,
                      i requires 0 <= i < |matchCommits| => t.(stats := stats, matches := matchCommits[i]));
    forall i | 0 <= i < |first| ensures IsInterruption(t, s, plan, first[i]) {
      var ends := BatchEnds(0, |plan.matches|, StatBatch(s.batchSize));
      assert StatsDeletedUpTo(t.stats, plan.matches, ends[i], statCommits[i]);
      StatsStage(t, s, plan, ends[i], statCommits[i]);
    }
    forall i | 0 <= i < |second| ensures IsInterruption(t, s, plan, second[i]) {
      var ends := BatchEnds(0, |plan.matches|, s.batchSize);
      assert DeletedUpTo(t.matches, MatchId, IdsOf(plan.matches, MatchId), ends[i], matchCommits[i]);
      MatchesStage(t, s, plan, ends[i], matchCommits[i], stats);
    }
    commits := first + second;
  }

  // The tables after each batch of the last two deletions.
  lemma EventsAndSnapshotsCommits(t: Tables, s: Settings, plan: Plan, eventCommits: seq<seq<EventRow>>,
                                  events: seq<EventRow>,
                                  snapshotCommits: seq<seq<SnapshotRow>>)
    returns (commits: seq<Tables>)
    requires IsPlanOf(plan, t, s) && s.batchSize > 0
    requires DeletedInBatches(t.events, EventId, IdsOf(plan.events, EventId), BatchEnds(0, |plan.events|, s.batchSize),
                              eventCommits)
    requires events == Reject(t.events, HasIdAmong(IdsOf(plan.events, EventId), EventId))
    requires DeletedInBatches(t.snapshots, SnapshotId, IdsOf(plan.snapshots, SnapshotId),
                              BatchEnds(0, |plan.snapshots|, s.batchSize), snapshotCommits)
    ensures |commits| == |eventCommits| + |snapshotCommits|
    ensures forall i :: 0 <= i < |commits| ==> IsInterruption(t, s, plan, commits[i])
  {
    var left := AfterMatches(t, plan);
    var first := seq(|eventCommits|, i requires 0 <= i < |eventCommits| => left.(events := eventCommits[i]));
    var second := seq(|snapshotCommits|,
                      i requires 0 <= i < |snapshotCommits| => left.(events := events,
                        snapshots := snapshotCommits[i]));
    forall i | 0 <= i < |first| ensures IsInterruption(t, s, plan, first[i]) {
      EventCommit(t, s, plan, BatchEnds(0, |plan.events|, s.batchSize)[i], eventCommits[i]);
    }
    forall i | 0 <= i < |second| ensures IsInterruption(t, s, plan, second[i]) {
      SnapshotCommit(t, s, plan, events, BatchEnds(0, |plan.snapshots|, s.batchSize)[i], snapshotCommits[i]);
    }
    commits := first + second;
  }

  lemma EventCommit(t: Tables, s: Settings, plan: Plan, m: nat, events: seq<EventRow>)
    requires IsPlanOf(plan, t, s) && DeletedUpTo(t.events, EventId, IdsOf(plan.events, EventId), m, events)
    ensures IsInterruption(t, s, plan, AfterMatches(t, plan).(events := events))
  {
    NothingGone(t.snapshots, SnapshotId, plan.snapshots);
    IdsOfPrefix(plan.snapshots, SnapshotId, 0);
    IdsOfPrefix(plan.events, EventId, |plan.events|);
    LastStages(t, s, plan, m, 0, events, t.snapshots);
  }

  lemma SnapshotCommit(t: Tables, s: Settings, plan: Plan, events: seq<EventRow>, k: nat, snapshots: seq<SnapshotRow>)
    requires IsPlanOf(plan, t, s) && events == Reject(t.events, HasIdAmong(IdsOf(plan.events, EventId), EventId))
    requires DeletedUpTo(t.snapshots, SnapshotId, IdsOf(plan.snapshots, SnapshotId), k, snapshots)
    ensures IsInterruption(t, s, plan, AfterMatches(t, plan).(events := events, snapshots := snapshots))
  {
    var all := |plan.events|;
    assert IdsOf(plan.events, EventId)[..all] == IdsOf(plan.events, EventId);
    LastStages(t, s, plan, all, k, events, snapshots);
  }

  lemma InterruptionsComplete(t: Tables, s: Settings, plan: Plan, commits: seq<Tables>)
    requires PrimaryKeys(t) && forall i :: 0 <= i < |commits| ==> IsInterruption(t, s, plan, commits[i])
    ensures forall i :: 0 <= i < |commits| ==> Cleaned(commits[i], s) == Cleaned(t, s)
  {
    forall i | 0 <= i < |commits| ensures Cleaned(commits[i], s) == Cleaned(t, s) {
      assert IsInterruption(t, s, plan, commits[i]);
      var at :| InOrder(plan, at) && commits[i] == Interrupted(t, plan, at);
      InterruptedCleanupCompletes(t, s, plan, at);
    }
  }
}
