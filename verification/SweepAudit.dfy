/**
 The one-pass audit of a target's matches (scan_target_events): prefix totals are recorded at
 the sorted bound points, and an active set with an expiry heap counts the overlap, while the
 events stream by once. The specification is the naive query of AdminLogEvents.
 */
module SweepAudit {
  import opened Options
  import opened Counting
  import opened Sorting
  import opened AdminLogEvents

  datatype Match = Match(key: string, bounds: Bounds)

  datatype Mark = Mark(events: nat, kills: nat)

  datatype Ref = Ref(id: int, time: int)

  datatype Metric = Metric(selectedEvents: nat, selectedKills: nat, first: Option<Ref>, last: Option<Ref>)

  // The source keeps no kill total for events covered exactly once.
  datatype Tally = Tally(events0: nat, events1: nat, eventsMany: nat, kills0: nat, killsMany: nat)

  datatype Example = Example(eventId: int, time: int, covering: set<nat>)

  datatype Assignment =
    Assignment(tally: Tally, maximum: nat, example: Option<Example>, streamed: nat, killsStreamed: nat)

  // ---------- Naive specification ----------

  function BoundedMatches(matches: seq<Match>): seq<Match> {
    if matches == [] then []
    else
      var m := matches[|matches| - 1];
      BoundedMatches(matches[..|matches| - 1]) + (if HasBound(m.bounds) then [m] else [])
  }

  function FirstRef(es: seq<Event>): Option<Ref> {
    if es == [] then None else Some(Ref(es[0].id, es[0].time))
  }

  function LastRef(es: seq<Event>): Option<Ref> {
    if es == [] then None else Some(Ref(es[|es| - 1].id, es[|es| - 1].time))
  }

  // The first reference ignores the upper bound and the last one ignores the lower bound.
  function NaiveMetric(es: seq<Event>, b: Bounds): Metric {
    Metric(
      |Select(es, b)|,
      Kills(Select(es, b)),
      FirstRef(Select(es, Bounds(b.lower, None))),
      LastRef(Select(es, Bounds(None, b.upper))))
  }

  function Covers(t: int): Match -> bool {
    (m: Match) => Within(t, m.bounds)
  }

  function Multiplicity(ms: seq<Match>, t: int): nat {
    CountIf(ms, Covers(t))
  }

  ghost function ActiveAt(ms: seq<Match>, t: int): set<nat> {
    set i: nat | i < |ms| && Within(t, ms[i].bounds)
  }

  // Share 0: uncovered, 1: covered once, 2: covered more than once.
  function Share(n: nat): nat {
    if n < 2 then n else 2
  }

  function InShare(ms: seq<Match>, share: nat): Event -> bool {
    (e: Event) => Share(Multiplicity(ms, e.time)) == share
  }

  function KillInShare(ms: seq<Match>, share: nat): Event -> bool {
    (e: Event) => e.kind.Kill? && Share(Multiplicity(ms, e.time)) == share
  }

  function NaiveTally(es: seq<Event>, ms: seq<Match>): Tally {
    Tally(
      CountIf(es, InShare(ms, 0)), CountIf(es, InShare(ms, 1)), CountIf(es, InShare(ms, 2)),
      CountIf(es, KillInShare(ms, 0)), CountIf(es, KillInShare(ms, 2)))
  }

  // `maximum` is the largest multiplicity and `example` describes the first event reaching it.
  ghost predicate IsMaximum(es: seq<Event>, ms: seq<Match>, maximum: nat, example: Option<Example>) {
    && (forall i :: 0 <= i < |es| ==> Multiplicity(ms, es[i].time) <= maximum)
    && (if maximum == 0 then example.None? else
        exists i :: FirstReaching(es, ms, maximum, i)
          && example == Some(Example(es[i].id, es[i].time, ActiveAt(ms, es[i].time))))
  }

  ghost predicate FirstReaching(es: seq<Event>, ms: seq<Match>, maximum: nat, i: int) {
    && 0 <= i < |es|
    && Multiplicity(ms, es[i].time) == maximum
    && (forall j :: 0 <= j < i ==> Multiplicity(ms, es[j].time) < maximum)
  }

  // ---------- Bound points ----------

  predicate IntLe(a: int, b: int) {
    a <= b
  }

  // The bounds in use, each once; a match without the bound contributes none.
  function Distinct(bounds: seq<Option<int>>): seq<int> {
    if bounds == [] then []
    else
      var front, last := Distinct(bounds[..|bounds| - 1]), bounds[|bounds| - 1];
      if last.Some? && last.value !in front then front + [last.value] else front
  }

  function SortedPoints(bounds: seq<Option<int>>): seq<int> {
    SortBy(IntLe, Distinct(bounds))
  }

  lemma {:induction false} DistinctKeepsAll(bounds: seq<Option<int>>, i: nat)
    requires i < |bounds|
    ensures bounds[i].Some? ==> bounds[i].value in Distinct(bounds)
  {
    if i < |bounds| - 1 {
      DistinctKeepsAll(bounds[..|bounds| - 1], i);
    }
  }

  lemma SortedPointsAreAllBounds(bounds: seq<Option<int>>)
    ensures Sorted(IntLe, SortedPoints(bounds))
    ensures forall i :: 0 <= i < |bounds| && bounds[i].Some? ==> bounds[i].value in SortedPoints(bounds)
  {
    SortBySorts(IntLe, Distinct(bounds));
    SortByPermutes(IntLe, Distinct(bounds));
    forall i | 0 <= i < |bounds| && bounds[i].Some? ensures bounds[i].value in SortedPoints(bounds) {
      DistinctKeepsAll(bounds, i);
      assert bounds[i].value in multiset(SortedPoints(bounds));
    }
  }

  ghost predicate BeforeRecorded(es: seq<Event>, before: map<int, Mark>, firstAfter: map<int, Option<Ref>>, p: int) {
    && p in before && p in firstAfter
    && CutBefore(es, before[p].events, p)
    && before[p].kills == Kills(es[..before[p].events])
    && firstAfter[p] == FirstRef(es[before[p].events..])
  }

  ghost predicate ThroughRecorded(es: seq<Event>, through: map<int, Mark>, lastThrough: map<int, Option<Ref>>, p: int) {
    && p in through && p in lastThrough
    && CutThrough(es, through[p].events, p)
    && through[p].kills == Kills(es[..through[p].events])
    && lastThrough[p] == LastRef(es[..through[p].events])
  }

  ghost predicate IsMark(es: seq<Event>, mark: Mark) {
    mark.events <= |es| && mark.kills == Kills(es[..mark.events])
  }

  /** Closes the lower points up to `now` (all of them after the stream has ended). */
  method RecordLower(ghost es: seq<Event>, points: seq<int>, from: nat, mark: Mark, first: Option<Ref>,
                     now: Option<int>,
                     before0: map<int, Mark>, firstAfter0: map<int, Option<Ref>>)
    returns (index: nat, before: map<int, Mark>, firstAfter: map<int, Option<Ref>>)
    requires IsMark(es, mark) && first == FirstRef(es[mark.events..])
    requires Sorted(IntLe, points) && from <= |points|
    requires forall j :: 0 <= j < from ==> BeforeRecorded(es, before0, firstAfter0, points[j])
    requires forall i, j :: 0 <= i < mark.events && from <= j < |points| ==> es[i].time < points[j]
    requires if now.Some? then forall i :: mark.events <= i < |es| ==> now.value <= es[i].time else mark.events == |es|
    ensures from <= index <= |points|
    ensures forall j :: 0 <= j < index ==> BeforeRecorded(es, before, firstAfter, points[j])
    ensures forall j :: index <= j < |points| ==> now.Some? && now.value < points[j]
  {
    index, before, firstAfter := from, before0, firstAfter0;
    while index < |points| && (now.None? || points[index] <= now.value)
      invariant from <= index <= |points|
      invariant forall j :: 0 <= j < index ==> BeforeRecorded(es, before, firstAfter, points[j])
    {
      var point := points[index];
      before, firstAfter := before[point := mark], firstAfter[point := first];
      assert BeforeRecorded(es, before, firstAfter, point);
      index := index + 1;
    }
  }

  /** Closes the upper points up to `now` (all of them after the stream has ended). */
  method RecordUpper(ghost es: seq<Event>, points: seq<int>, from: nat, mark: Mark, last: Option<Ref>, now: Option<int>,
                     through0: map<int, Mark>, lastThrough0: map<int, Option<Ref>>)
    returns (index: nat, through: map<int, Mark>, lastThrough: map<int, Option<Ref>>)
    requires IsMark(es, mark) && last == LastRef(es[..mark.events])
    requires Sorted(IntLe, points) && from <= |points|
    requires forall j :: 0 <= j < from ==> ThroughRecorded(es, through0, lastThrough0, points[j])
    requires forall i, j :: 0 <= i < mark.events && from <= j < |points| ==> es[i].time <= points[j]
    requires if now.Some? then forall i :: mark.events <= i < |es| ==> now.value < es[i].time else mark.events == |es|
    ensures from <= index <= |points|
    ensures forall j :: 0 <= j < index ==> ThroughRecorded(es, through, lastThrough, points[j])
    ensures forall j :: index <= j < |points| ==> now.Some? && now.value < points[j]
  {
    index, through, lastThrough := from, through0, lastThrough0;
    while index < |points| && (now.None? || points[index] <= now.value)
      invariant from <= index <= |points|
      invariant forall j :: 0 <= j < index ==> ThroughRecorded(es, through, lastThrough, points[j])
    {
      var point := points[index];
      through, lastThrough := through[point := mark], lastThrough[point := last];
      assert ThroughRecorded(es, through, lastThrough, point);
      index := index + 1;
    }
  }

  // ---------- Active ranges ----------

  // A range with a missing bound at the matching infinity, and the match it belongs to.
  datatype Entry = Entry(bounds: Bounds, index: nat)

  predicate Started(b: Bounds, t: int) {
    b.lower.Some? ==> b.lower.value <= t
  }

  predicate LowerLess(a: Option<int>, b: Option<int>) {
    b.Some? && (a.Some? ==> a.value < b.value)
  }

  predicate UpperLess(a: Option<int>, b: Option<int>) {
    a.Some? && (b.Some? ==> a.value < b.value)
  }

  predicate EntryLe(a: Entry, b: Entry) {
    || LowerLess(a.bounds.lower, b.bounds.lower)
    || (a.bounds.lower == b.bounds.lower
        && (UpperLess(a.bounds.upper, b.bounds.upper)
            || (a.bounds.upper == b.bounds.upper && a.index <= b.index)))
  }

  function UnsortedEntries(ms: seq<Match>): seq<Entry> {
    seq(|ms|, i requires 0 <= i < |ms| => Entry(ms[i].bounds, i))
  }

  function Entries(ms: seq<Match>): seq<Entry> {
    SortBy(EntryLe, UnsortedEntries(ms))
  }

  ghost predicate ListsRanges(ms: seq<Match>, entries: seq<Entry>) {
    && (forall e :: e in entries <==> e.index < |ms| && e.bounds == ms[e.index].bounds)
    && (forall j, k, t :: 0 <= j <= k < |entries| && Started(entries[k].bounds, t) ==> Started(entries[j].bounds, t))
  }

  lemma EntryLeIsTotalPreorder()
    ensures TotalPreorder(EntryLe)
  {
  }

  lemma EntriesListRanges(ms: seq<Match>)
    ensures ListsRanges(ms, Entries(ms))
  {
    var unsorted, entries := UnsortedEntries(ms), Entries(ms);
    EntryLeIsTotalPreorder();
    SortByPermutes(EntryLe, unsorted);
    SortBySorts(EntryLe, unsorted);
    forall e ensures e in entries <==> e.index < |ms| && e.bounds == ms[e.index].bounds {
      assert e in multiset(entries) <==> e in multiset(unsorted);
      assert e.index < |ms| ==> unsorted[e.index] == Entry(ms[e.index].bounds, e.index);
    }
    forall j, k, t | 0 <= j <= k < |entries| && Started(entries[k].bounds, t)
      ensures Started(entries[j].bounds, t)
    {
      assert j < k ==> EntryLe(entries[j], entries[k]);
    }
  }

  // An expiry heap, held as its ascending contents: heap[0] is what heappop removes.
  datatype Expiry = Expiry(upper: int, index: nat)

  predicate ExpiryLe(a: Expiry, b: Expiry) {
    a.upper < b.upper || (a.upper == b.upper && a.index <= b.index)
  }

  ghost predicate HeapFor(ms: seq<Match>, active: set<nat>, heap: seq<Expiry>) {
    && Sorted(ExpiryLe, heap)
    && (forall i :: i in active ==> i < |ms|)
    && (forall x :: x in heap ==> x.index < |ms| && ms[x.index].bounds.upper == Some(x.upper))
    && (forall i :: i in active && ms[i].bounds.upper.Some? ==> Expiry(ms[i].bounds.upper.value, i) in heap)
  }

  lemma HeapPush(ms: seq<Match>, active: set<nat>, heap: seq<Expiry>, i: nat)
    requires HeapFor(ms, active, heap) && i < |ms| && ms[i].bounds.upper.Some?
    ensures HeapFor(ms, active + {i}, Insert(ExpiryLe, heap, Expiry(ms[i].bounds.upper.value, i)))
  {
    var x := Expiry(ms[i].bounds.upper.value, i);
    var pushed := Insert(ExpiryLe, heap, x);
    InsertSorts(ExpiryLe, heap, x);
    InsertPermutes(ExpiryLe, heap, x);
    forall y ensures y in pushed <==> y in heap || y == x {
      assert y in multiset(pushed) <==> y in multiset(heap) + multiset{x};
    }
  }

  /** Activates every range that has started by `t`. */
  method ActivateStarted(ms: seq<Match>, entries: seq<Entry>, from: nat, t: int, active0: set<nat>, heap0: seq<Expiry>)
    returns (index: nat, active: set<nat>, heap: seq<Expiry>)
    requires ListsRanges(ms, entries) && from <= |entries| && HeapFor(ms, active0, heap0)
    ensures from <= index <= |entries| && HeapFor(ms, active, heap)
    ensures active == active0 + set j | from <= j < index :: entries[j].index
    ensures forall j :: from <= j < index ==> Started(entries[j].bounds, t)
    ensures forall j :: index <= j < |entries| ==> !Started(entries[j].bounds, t)
  {
    index, active, heap := from, active0, heap0;
    while index < |entries| && Started(entries[index].bounds, t)
      invariant from <= index <= |entries| && HeapFor(ms, active, heap)
      invariant active == active0 + set j | from <= j < index :: entries[j].index
      invariant forall j :: from <= j < index ==> Started(entries[j].bounds, t)
    {
      var entry := entries[index];
      ghost var previous := active;
      active := active + {entry.index};
      if entry.bounds.upper.Some? {
        HeapPush(ms, previous, heap, entry.index);
        heap := Insert(ExpiryLe, heap, Expiry(entry.bounds.upper.value, entry.index));
      }
      index := index + 1;
    }
  }

  /** Pops every range whose upper bound lies before `t`. */
  method ExpireEnded(ms: seq<Match>, t: int, active0: set<nat>, heap0: seq<Expiry>)
    returns (active: set<nat>, heap: seq<Expiry>)
    requires HeapFor(ms, active0, heap0)
    ensures HeapFor(ms, active, heap)
    ensures active == set i | i in active0 && (ms[i].bounds.upper.Some? ==> t <= ms[i].bounds.upper.value)
  {
    active, heap := active0, heap0;
    while heap != [] && heap[0].upper < t
      invariant HeapFor(ms, active, heap) && active <= active0
      invariant forall i :: i in active0 - active ==> ms[i].bounds.upper.Some? && ms[i].bounds.upper.value < t
      decreases |heap|
    {
      var popped := heap[0];
      active := active - {popped.index};
      heap := heap[1..];
    }
  }

  // ---------- Overlap classes ----------

  lemma {:induction false} ActiveCount(ms: seq<Match>, t: int)
    ensures |ActiveAt(ms, t)| == Multiplicity(ms, t)
  {
    if ms == [] {
      assert ActiveAt(ms, t) == {};
    } else {
      var front := ms[..|ms| - 1];
      ActiveCount(front, t);
      var here := if Within(t, ms[|ms| - 1].bounds) then {|ms| - 1} else {};
      assert ActiveAt(ms, t) == ActiveAt(front, t) + here;
    }
  }

  lemma {:induction false} KillInShareOfGroup(group: seq<Event>, ms: seq<Match>, share: nat, t: int)
    requires forall e :: e in group ==> e.time == t
    ensures CountIf(group, KillInShare(ms, share)) == if Share(Multiplicity(ms, t)) == share then Kills(group) else 0
  {
    if group != [] {
      KillInShareOfGroup(group[..|group| - 1], ms, share, t);
      assert group[|group| - 1] in group;
    }
  }

  lemma ShareOfGroup(group: seq<Event>, ms: seq<Match>, share: nat, t: int)
    requires forall e :: e in group ==> e.time == t
    ensures CountIf(group, InShare(ms, share)) == if Share(Multiplicity(ms, t)) == share then |group| else 0
  {
    if Share(Multiplicity(ms, t)) == share {
      CountIfAll(group, InShare(ms, share));
    } else {
      CountIfNone(group, InShare(ms, share));
    }
  }

  function AddToTally(tally: Tally, multiplicity: nat, events: nat, kills: nat): Tally {
    if multiplicity == 0 then tally.(events0 := tally.events0 + events, kills0 := tally.kills0 + kills)
    else if multiplicity == 1 then tally.(events1 := tally.events1 + events)
    else tally.(eventsMany := tally.eventsMany + events, killsMany := tally.killsMany + kills)
  }

  lemma TallyOfGroup(es: seq<Event>, group: seq<Event>, ms: seq<Match>, t: int)
    requires forall e :: e in group ==> e.time == t
    ensures NaiveTally(es + group, ms) == AddToTally(NaiveTally(es, ms), Multiplicity(ms, t), |group|, Kills(group))
  {
    forall share: nat
      ensures CountIf(es + group, InShare(ms, share))
           == CountIf(es, InShare(ms, share)) + (if Share(Multiplicity(ms, t)) == share then |group| else 0)
      ensures CountIf(es + group, KillInShare(ms, share))
           == CountIf(es, KillInShare(ms, share)) + (if Share(Multiplicity(ms, t)) == share then Kills(group) else 0)
    {
      CountIfConcat(es, group, InShare(ms, share));
      CountIfConcat(es, group, KillInShare(ms, share));
      ShareOfGroup(group, ms, share, t);
      KillInShareOfGroup(group, ms, share, t);
    }
  }

  lemma MaximumOfGroup(es: seq<Event>, group: seq<Event>, ms: seq<Match>, t: int, maximum: nat,
                       example: Option<Example>)
    requires IsMaximum(es, ms, maximum, example)
    requires group != [] && forall e :: e in group ==> e.time == t
    ensures var m := Multiplicity(ms, t);
      if m > maximum then IsMaximum(es + group, ms, m, Some(Example(group[0].id, t, ActiveAt(ms, t))))
      else IsMaximum(es + group, ms, maximum, example)
  {
    var m, all := Multiplicity(ms, t), es + group;
    forall i | 0 <= i < |all| ensures Multiplicity(ms, all[i].time) <= if m > maximum then m else maximum {
      assert i >= |es| ==> all[i] == group[i - |es|];
    }
    if m > maximum {
      assert all[|es|] == group[0];
      assert FirstReaching(all, ms, m, |es|);
    } else if maximum > 0 {
      var i :| FirstReaching(es, ms, maximum, i)
        && example == Some(Example(es[i].id, es[i].time, ActiveAt(ms, es[i].time)));
      assert all[i] == es[i];
      assert FirstReaching(all, ms, maximum, i);
    }
  }

  // ---------- The sweep ----------

  function Lowers(ms: seq<Match>): seq<Option<int>> {
    seq(|ms|, i requires 0 <= i < |ms| => ms[i].bounds.lower)
  }

  function Uppers(ms: seq<Match>): seq<Option<int>> {
    seq(|ms|, i requires 0 <= i < |ms| => ms[i].bounds.upper)
  }

  /** Reads the run of events that share the time of the next one. */
  method ReadGroup(es: seq<Event>, from: nat) returns (to: nat, kills: nat)
    requires TimeSorted(es) && from < |es|
    ensures from < to <= |es|
    ensures forall i :: from <= i < to ==> es[i].time == es[from].time
    ensures forall i :: to <= i < |es| ==> es[from].time < es[i].time
    ensures kills == Kills(es[from..to])
  {
    to, kills := from, 0;
    while to < |es| && es[to].time == es[from].time
      invariant from <= to <= |es|
      invariant forall i :: from <= i < to ==> es[i].time == es[from].time
      invariant kills == Kills(es[from..to])
    {
      assert es[from..to + 1][..to - from] == es[from..to];
      kills := kills + if es[to].kind.Kill? then 1 else 0;
      to := to + 1;
    }
    assert from < to;
  }

  // What the active set and the heap hold once all events up to `p` have streamed by.
  ghost predicate ActiveUpTo(es: seq<Event>, ms: seq<Match>, entries: seq<Entry>, p: nat, index: nat, active: set<nat>,
                             heap: seq<Expiry>)
    requires p <= |es| && index <= |entries|
  {
    && HeapFor(ms, active, heap)
    && (p == 0 ==> index == 0 && active == {})
    && (p > 0 ==>
        && active == ActiveAt(ms, es[p - 1].time)
        && (forall j :: 0 <= j < index ==> Started(entries[j].bounds, es[p - 1].time))
        && (forall j :: index <= j < |entries| ==> !Started(entries[j].bounds, es[p - 1].time)))
  }

  /** Moves the active set to time `t`; afterwards it is exactly the set of ranges containing `t`. */
  method AdvanceActive(ghost es: seq<Event>, ms: seq<Match>, entries: seq<Entry>, ghost p: nat, ghost q: nat, t: int,
                       index0: nat, active0: set<nat>, heap0: seq<Expiry>)
    returns (index: nat, active: set<nat>, heap: seq<Expiry>)
    requires ListsRanges(ms, entries) && p < q <= |es| && index0 <= |entries|
    requires es[q - 1].time == t && (p > 0 ==> es[p - 1].time < t)
    requires ActiveUpTo(es, ms, entries, p, index0, active0, heap0)
    ensures index <= |entries| && active == ActiveAt(ms, t)
    ensures ActiveUpTo(es, ms, entries, q, index, active, heap)
  {
    index, active, heap := ActivateStarted(ms, entries, index0, t, active0, heap0);
    forall i | i in ActiveAt(ms, t) ensures i in active {
      assert Entry(ms[i].bounds, i) in entries;
      var j :| 0 <= j < |entries| && entries[j] == Entry(ms[i].bounds, i);
      if j < index0 {
        assert i in active0;
      }
    }
    forall i | i in active ensures Started(ms[i].bounds, t) {
      if i !in active0 {
        var j :| index0 <= j < index && entries[j].index == i;
        assert entries[j] in entries;
      }
    }
    active, heap := ExpireEnded(ms, t, active, heap);
    assert active == ActiveAt(ms, t);
    forall j | 0 <= j < index ensures Started(entries[j].bounds, t) {
      if j < index0 {
        assert Started(entries[j].bounds, es[p - 1].time);
      }
    }
  }

  lemma SelectFrom(es: seq<Event>, lo: nat, lower: Option<int>)
    requires if lower.Some? then CutBefore(es, lo, lower.value) else lo == 0
    ensures lo <= |es| && Select(es, Bounds(lower, None)) == es[lo..]
  {
    SelectIsSlice(es, lo, |es|, Bounds(lower, None));
  }

  lemma SelectThrough(es: seq<Event>, hi: nat, upper: Option<int>)
    requires if upper.Some? then CutThrough(es, hi, upper.value) else hi == |es|
    ensures hi <= |es| && Select(es, Bounds(None, upper)) == es[..hi]
  {
    SelectIsSlice(es, 0, hi, Bounds(None, upper));
  }

  lemma PrefixDifferences(es: seq<Event>, lo: nat, hi: nat, b: Bounds)
    requires Cuts(es, lo, hi, b)
    ensures lo <= |es| && hi <= |es|
    ensures |Select(es, b)| == if lo <= hi then hi - lo else 0
    ensures Kills(Select(es, b)) == if Kills(es[..lo]) <= Kills(es[..hi]) then Kills(es[..hi]) - Kills(es[..lo]) else 0
  {
    SelectIsSlice(es, lo, hi, b);
    if lo <= hi {
      KillsOfPrefix(es, lo, hi);
    } else {
      KillsOfPrefix(es, hi, lo);
    }
  }

  function Minus(a: nat, b: nat): nat {
    if b <= a then a - b else 0
  }

  // Two marks at the cuts of the bounds give the whole metric.
  lemma MetricOfMarks(es: seq<Event>, lower: Mark, upper: Mark, b: Bounds)
    requires Cuts(es, lower.events, upper.events, b) && IsMark(es, lower) && IsMark(es, upper)
    ensures NaiveMetric(es, b) == Metric(Minus(upper.events, lower.events), Minus(upper.kills, lower.kills),
                                         FirstRef(es[lower.events..]), LastRef(es[..upper.events]))
  {
    RefsOfCuts(es, lower.events, upper.events, b);
    PrefixDifferences(es, lower.events, upper.events, b);
  }

  lemma RefsOfCuts(es: seq<Event>, lo: nat, hi: nat, b: Bounds)
    requires Cuts(es, lo, hi, b)
    ensures lo <= |es| && hi <= |es|
    ensures NaiveMetric(es, b).first == FirstRef(es[lo..]) && NaiveMetric(es, b).last == LastRef(es[..hi])
  {
    SelectFrom(es, lo, b.lower);
    SelectThrough(es, hi, b.upper);
  }

  method ReadMetric(ghost es: seq<Event>, b: Bounds, total: Mark, first: Option<Ref>, last: Option<Ref>,
                    before: map<int, Mark>, firstAfter: map<int, Option<Ref>>,
                    through: map<int, Mark>, lastThrough: map<int, Option<Ref>>)
    returns (metric: Metric)
    requires total == Mark(|es|, Kills(es)) && first == FirstRef(es) && last == LastRef(es)
    requires b.lower.Some? ==> BeforeRecorded(es, before, firstAfter, b.lower.value)
    requires b.upper.Some? ==> ThroughRecorded(es, through, lastThrough, b.upper.value)
    ensures metric == NaiveMetric(es, b)
  {
    var lowerMark := if b.lower.Some? then before[b.lower.value] else Mark(0, 0);
    var upperMark := if b.upper.Some? then through[b.upper.value] else total;
    var firstSelected := if b.lower.Some? then firstAfter[b.lower.value] else first;
    var lastSelected := if b.upper.Some? then lastThrough[b.upper.value] else last;
    metric := Metric(Minus(upperMark.events, lowerMark.events), Minus(upperMark.kills, lowerMark.kills), firstSelected,
                     lastSelected);
    assert es[..|es|] == es && es[0..] == es && es[..0] == [];
    MetricOfMarks(es, lowerMark, upperMark, b);
  }

  // A later row with the same key overwrites the metrics of an earlier one.
  ghost predicate LastWithKey(ms: seq<Match>, i: int) {
    0 <= i < |ms| && forall j :: i < j < |ms| ==> ms[j].key != ms[i].key
  }

  ghost predicate MetricsFor(es: seq<Event>, ms: seq<Match>, metrics: map<string, Metric>) {
    && (forall k :: k in metrics ==> exists i :: 0 <= i < |ms| && ms[i].key == k)
    && (forall i :: LastWithKey(ms, i) ==> ms[i].key in metrics && metrics[ms[i].key] == NaiveMetric(es, ms[i].bounds))
  }

  lemma MetricsExtend(es: seq<Event>, ms: seq<Match>, n: nat, metrics: map<string, Metric>, metric: Metric)
    requires n < |ms| && MetricsFor(es, ms[..n], metrics) && metric == NaiveMetric(es, ms[n].bounds)
    ensures MetricsFor(es, ms[..n + 1], metrics[ms[n].key := metric])
  {
    var ms', metrics' := ms[..n + 1], metrics[ms[n].key := metric];
    forall k | k in metrics' ensures exists i :: 0 <= i < |ms'| && ms'[i].key == k {
      if k in metrics {
        var i :| 0 <= i < n && ms[..n][i].key == k;
        assert ms'[i].key == k;
      } else {
        assert ms'[n].key == k;
      }
    }
    forall i | LastWithKey(ms', i)
      ensures ms'[i].key in metrics' && metrics'[ms'[i].key] == NaiveMetric(es, ms'[i].bounds)
    {
      if i < n {
        assert ms'[n].key != ms'[i].key;
        assert LastWithKey(ms[..n], i) by {
          forall j | i < j < n ensures ms[..n][j].key != ms[..n][i].key {
            assert ms'[j].key != ms'[i].key;
          }
        }
      }
    }
  }

  // ---------- The two halves of the pass ----------

  // What the bound points have recorded, and the running totals and references.
  datatype Recorded = Recorded(
    lowerIndex: nat, before: map<int, Mark>, firstAfter: map<int, Option<Ref>>,
    upperIndex: nat, through: map<int, Mark>, lastThrough: map<int, Option<Ref>>,
    total: Mark, first: Option<Ref>, last: Option<Ref>)

  ghost predicate RecordedUpTo(es: seq<Event>, lowerPoints: seq<int>, upperPoints: seq<int>, p: nat, r: Recorded) {
    && p <= |es| && r.lowerIndex <= |lowerPoints| && r.upperIndex <= |upperPoints|
    && r.total == Mark(p, Kills(es[..p]))
    && r.first == FirstRef(es[..p]) && r.last == LastRef(es[..p])
    && (forall j :: 0 <= j < r.lowerIndex ==> BeforeRecorded(es, r.before, r.firstAfter, lowerPoints[j]))
    && (forall j :: r.lowerIndex <= j < |lowerPoints| && p > 0 ==> es[p - 1].time < lowerPoints[j])
    && (forall j :: 0 <= j < r.upperIndex ==> ThroughRecorded(es, r.through, r.lastThrough, upperPoints[j]))
    && (forall j :: r.upperIndex <= j < |upperPoints| && p > 0 ==> es[p - 1].time < upperPoints[j])
  }

  ghost predicate IsGroup(es: seq<Event>, p: nat, q: nat) {
    && TimeSorted(es) && p < q <= |es|
    && (forall i :: p <= i < q ==> es[i].time == es[p].time)
    && (forall i :: q <= i < |es| ==> es[p].time < es[i].time)
    && (p > 0 ==> es[p - 1].time < es[p].time)
  }

  method RecordGroup(es: seq<Event>, lowerPoints: seq<int>, upperPoints: seq<int>, p: nat, q: nat, kills: nat,
                     r0: Recorded)
    returns (r: Recorded)
    requires IsGroup(es, p, q) && kills == Kills(es[p..q])
    requires Sorted(IntLe, lowerPoints) && Sorted(IntLe, upperPoints)
    requires RecordedUpTo(es, lowerPoints, upperPoints, p, r0)
    ensures RecordedUpTo(es, lowerPoints, upperPoints, q, r)
  {
    var t := es[p].time;
    KillsOfPrefix(es, p, q);
    var here := Some(Ref(es[p].id, t));
    assert here == FirstRef(es[p..]);
    var lowerIndex, before, firstAfter :=
      RecordLower(es, lowerPoints, r0.lowerIndex, r0.total, here, Some(t), r0.before, r0.firstAfter);
    // Upper points strictly before t, that is, at or before t - 1.
    var upperIndex, through, lastThrough :=
      RecordUpper(es, upperPoints, r0.upperIndex, r0.total, r0.last, Some(t - 1), r0.through, r0.lastThrough);
    var total := Mark(r0.total.events + (q - p), r0.total.kills + kills);
    var first := if r0.first.None? then here else r0.first;
    var last := Some(Ref(es[q - 1].id, t));
    upperIndex, through, lastThrough :=
      RecordUpper(es, upperPoints, upperIndex, total, last, Some(t), through, lastThrough);
    r := Recorded(lowerIndex, before, firstAfter, upperIndex, through, lastThrough, total, first, last);
  }

  method RecordRest(es: seq<Event>, lowerPoints: seq<int>, upperPoints: seq<int>, r0: Recorded) returns (r: Recorded)
    requires TimeSorted(es) && Sorted(IntLe, lowerPoints) && Sorted(IntLe, upperPoints)
    requires RecordedUpTo(es, lowerPoints, upperPoints, |es|, r0)
    ensures r.total == Mark(|es|, Kills(es)) && r.first == FirstRef(es) && r.last == LastRef(es)
    ensures forall point :: point in lowerPoints ==> BeforeRecorded(es, r.before, r.firstAfter, point)
    ensures forall point :: point in upperPoints ==> ThroughRecorded(es, r.through, r.lastThrough, point)
  {
    assert es[..|es|] == es;
    var lowerIndex, before, firstAfter :=
      RecordLower(es, lowerPoints, r0.lowerIndex, r0.total, None, None, r0.before, r0.firstAfter);
    var upperIndex, through, lastThrough :=
      RecordUpper(es, upperPoints, r0.upperIndex, r0.total, r0.last, None, r0.through, r0.lastThrough);
    r := Recorded(lowerIndex, before, firstAfter, upperIndex, through, lastThrough, r0.total, r0.first, r0.last);
  }

  datatype Overlap = Overlap(
    rangeIndex: nat, active: set<nat>, heap: seq<Expiry>,
    tally: Tally, maximum: nat, example: Option<Example>)

  ghost predicate OverlapUpTo(es: seq<Event>, ms: seq<Match>, entries: seq<Entry>, p: nat, o: Overlap) {
    && p <= |es| && o.rangeIndex <= |entries|
    && ActiveUpTo(es, ms, entries, p, o.rangeIndex, o.active, o.heap)
    && o.tally == NaiveTally(es[..p], ms)
    && IsMaximum(es[..p], ms, o.maximum, o.example)
  }

  lemma GroupIsCounted(es: seq<Event>, ms: seq<Match>, p: nat, q: nat, kills: nat, maximum: nat,
                       example: Option<Example>)
    requires IsGroup(es, p, q) && kills == Kills(es[p..q]) && IsMaximum(es[..p], ms, maximum, example)
    ensures var t := es[p].time;
      var m := Multiplicity(ms, t);
      && NaiveTally(es[..q], ms) == AddToTally(NaiveTally(es[..p], ms), m, q - p, kills)
      && if m > maximum then IsMaximum(es[..q], ms, m, Some(Example(es[p].id, t, ActiveAt(ms, t))))
         else IsMaximum(es[..q], ms, maximum, example)
  {
    assert es[..q] == es[..p] + es[p..q];
    TallyOfGroup(es[..p], es[p..q], ms, es[p].time);
    MaximumOfGroup(es[..p], es[p..q], ms, es[p].time, maximum, example);
  }

  method CountGroup(es: seq<Event>, ms: seq<Match>, entries: seq<Entry>, p: nat, q: nat, kills: nat, o0: Overlap)
    returns (o: Overlap)
    requires IsGroup(es, p, q) && kills == Kills(es[p..q]) && ListsRanges(ms, entries)
    requires OverlapUpTo(es, ms, entries, p, o0)
    ensures OverlapUpTo(es, ms, entries, q, o)
  {
    var t := es[p].time;
    var rangeIndex, active, heap := AdvanceActive(es, ms, entries, p, q, t, o0.rangeIndex, o0.active, o0.heap);
    var multiplicity := |active|;
    ActiveCount(ms, t);
    GroupIsCounted(es, ms, p, q, kills, o0.maximum, o0.example);
    var maximum, example := o0.maximum, o0.example;
    if multiplicity > maximum {
      maximum, example := multiplicity, Some(Example(es[p].id, t, active));
    }
    o := Overlap(rangeIndex, active, heap, AddToTally(o0.tally, multiplicity, q - p, kills), maximum, example);
  }

  /** The whole audit of one target: every match's query from a single pass over the events. */
  method ScanTargetEvents(es: seq<Event>, matches: seq<Match>)
    returns (metrics: map<string, Metric>, assignment: Assignment)
    requires TimeSorted(es)
    ensures MetricsFor(es, BoundedMatches(matches), metrics)
    ensures assignment.tally == NaiveTally(es, BoundedMatches(matches))
    ensures IsMaximum(es, BoundedMatches(matches), assignment.maximum, assignment.example)
    ensures assignment.streamed == |es| && assignment.killsStreamed == Kills(es)
    ensures ReportsEachMatch(es, matches, metrics) && CountsEachEvent(es, matches, assignment)
  {
    var ms := BoundedMatches(matches);
    var lowerPoints, upperPoints := SortedPoints(Lowers(ms)), SortedPoints(Uppers(ms));
    SortedPointsAreAllBounds(Lowers(ms));
    SortedPointsAreAllBounds(Uppers(ms));
    var entries := Entries(ms);
    EntriesListRanges(ms);

    var r := Recorded(0, map[], map[], 0, map[], map[], Mark(0, 0), None, None);
    var o := Overlap(0, {}, [], Tally(0, 0, 0, 0, 0), 0, None);
    var p: nat := 0;
    while p < |es|
      invariant 0 < p < |es| ==> es[p - 1].time < es[p].time
      invariant RecordedUpTo(es, lowerPoints, upperPoints, p, r)
      invariant OverlapUpTo(es, ms, entries, p, o)
    {
      var q, kills := ReadGroup(es, p);
      r := RecordGroup(es, lowerPoints, upperPoints, p, q, kills, r);
      o := CountGroup(es, ms, entries, p, q, kills, o);
      p := q;
    }
    assert es[..|es|] == es;
    r := RecordRest(es, lowerPoints, upperPoints, r);
    metrics := ReadMetrics(es, ms, r);
    assignment := Assignment(o.tally, o.maximum, o.example, r.total.events, r.total.kills);
    KeptMatchesAreReported(es, matches, metrics);
    KeptMatchesCount(es, matches, assignment);
  }

  method ReadMetrics(ghost es: seq<Event>, ms: seq<Match>, r: Recorded) returns (metrics: map<string, Metric>)
    requires r.total == Mark(|es|, Kills(es)) && r.first == FirstRef(es) && r.last == LastRef(es)
    requires forall point :: point in SortedPoints(Lowers(ms)) ==> BeforeRecorded(es, r.before, r.firstAfter, point)
    requires forall point :: point in SortedPoints(Uppers(ms)) ==> ThroughRecorded(es, r.through, r.lastThrough, point)
    ensures MetricsFor(es, ms, metrics)
  {
    SortedPointsAreAllBounds(Lowers(ms));
    SortedPointsAreAllBounds(Uppers(ms));
    metrics := map[];
    for n := 0 to |ms|
      invariant MetricsFor(es, ms[..n], metrics)
    {
      assert Lowers(ms)[n] == ms[n].bounds.lower && Uppers(ms)[n] == ms[n].bounds.upper;
      var metric := ReadMetric(es, ms[n].bounds, r.total, r.first, r.last, r.before, r.firstAfter, r.through,
                               r.lastThrough);
      MetricsExtend(es, ms, n, metrics, metric);
      metrics := metrics[ms[n].key := metric];
    }
    assert ms[..|ms|] == ms;
  }

  // ---------- The results over all the matches given ----------

  // One bound is enough for a match to contain times.
  predicate Contains(m: Match, t: int) {
    && (m.bounds.lower.Some? || m.bounds.upper.Some?)
    && (m.bounds.lower.Some? ==> m.bounds.lower.value <= t) && (m.bounds.upper.Some? ==> t <= m.bounds.upper.value)
  }

  function Containing(matches: seq<Match>, t: int): nat {
    CountIf(matches, (m: Match) => Contains(m, t))
  }

  ghost predicate LastBounded(matches: seq<Match>, i: int) {
    && 0 <= i < |matches| && (matches[i].bounds.lower.Some? || matches[i].bounds.upper.Some?)
    && forall j :: i < j < |matches| && (matches[j].bounds.lower.Some? || matches[j].bounds.upper.Some?) ==>
      matches[j].key != matches[i].key
  }

  // The last match of a key that has a bound is reported under the key, and nothing else is.
  ghost predicate ReportsEachMatch(es: seq<Event>, matches: seq<Match>, metrics: map<string, Metric>) {
    && (forall i :: LastBounded(matches, i) ==>
        matches[i].key in metrics && metrics[matches[i].key] == NaiveMetric(es, matches[i].bounds))
    && (forall k :: k in metrics ==> exists i :: LastBounded(matches, i) && matches[i].key == k)
  }

  ghost predicate CountsEachEvent(es: seq<Event>, matches: seq<Match>, a: Assignment) {
    && a.tally.events0 == CountIf(es, (e: Event) => Containing(matches, e.time) == 0)
    && a.tally.events1 == CountIf(es, (e: Event) => Containing(matches, e.time) == 1)
    && a.tally.eventsMany == CountIf(es, (e: Event) => Containing(matches, e.time) > 1)
    && a.tally.kills0 == CountIf(es, (e: Event) => e.kind.Kill? && Containing(matches, e.time) == 0)
    && a.tally.killsMany == CountIf(es, (e: Event) => e.kind.Kill? && Containing(matches, e.time) > 1)
    && (forall i :: 0 <= i < |es| ==> Containing(matches, es[i].time) <= a.maximum)
    && (a.maximum == 0 <==> a.example.None?)
    && (a.example.Some? ==> exists i :: IsFirstOfMost(es, matches, a.maximum, a.example.value, i))
  }

  // Event `i` is the first to reach the maximum, and the example lists the keys of the matches around it.
  ghost predicate IsFirstOfMost(es: seq<Event>, matches: seq<Match>, maximum: nat, example: Example, i: int) {
    && 0 <= i < |es| && example.eventId == es[i].id && example.time == es[i].time
    && Containing(matches, es[i].time) == maximum
    && (forall j :: 0 <= j < i ==> Containing(matches, es[j].time) < maximum)
    && (set j | j in example.covering && j < |BoundedMatches(matches)| :: BoundedMatches(matches)[j].key)
      == (set m | m in matches && Contains(m, es[i].time) :: m.key)
  }

  lemma {:induction false} KeptAreTheBounded(matches: seq<Match>, m: Match)
    ensures m in BoundedMatches(matches) <==> m in matches && (m.bounds.lower.Some? || m.bounds.upper.Some?)
  {
    if matches != [] {
      KeptAreTheBounded(matches[..|matches| - 1], m);
      assert matches == matches[..|matches| - 1] + [matches[|matches| - 1]];
    }
  }

  lemma {:induction false} KeptContain(matches: seq<Match>, t: int)
    ensures Multiplicity(BoundedMatches(matches), t) == Containing(matches, t)
  {
    if matches != [] {
      var front, last := matches[..|matches| - 1], matches[|matches| - 1];
      KeptContain(front, t);
      CountIfConcat(BoundedMatches(front), if HasBound(last.bounds) then [last] else [], Covers(t));
      CountIfOne(last, Covers(t));
    }
  }

  lemma {:induction false} LastBoundedIsKept(matches: seq<Match>, i: int) returns (j: int)
    requires LastBounded(matches, i)
    ensures LastWithKey(BoundedMatches(matches), j) && BoundedMatches(matches)[j] == matches[i]
  {
    var front, last := matches[..|matches| - 1], matches[|matches| - 1];
    if i == |front| {
      j := |BoundedMatches(front)|;
    } else {
      assert LastBounded(front, i);
      j := LastBoundedIsKept(front, i);
      assert HasBound(last.bounds) ==> last.key != matches[i].key;
    }
  }

  lemma {:induction false} KeptHasLast(matches: seq<Match>, k: string) returns (i: int)
    requires exists m :: m in BoundedMatches(matches) && m.key == k
    ensures LastBounded(matches, i) && matches[i].key == k
  {
    var front, last := matches[..|matches| - 1], matches[|matches| - 1];
    if HasBound(last.bounds) && last.key == k {
      i := |front|;
    } else {
      i := KeptHasLast(front, k);
    }
  }

  lemma KeptMatchesAreReported(es: seq<Event>, matches: seq<Match>, metrics: map<string, Metric>)
    requires MetricsFor(es, BoundedMatches(matches), metrics)
    ensures ReportsEachMatch(es, matches, metrics)
  {
    forall i | LastBounded(matches, i)
      ensures matches[i].key in metrics && metrics[matches[i].key] == NaiveMetric(es, matches[i].bounds)
    {
      var j := LastBoundedIsKept(matches, i);
    }
    forall k | k in metrics ensures exists i :: LastBounded(matches, i) && matches[i].key == k {
      var j :| 0 <= j < |BoundedMatches(matches)| && BoundedMatches(matches)[j].key == k;
      assert BoundedMatches(matches)[j] in BoundedMatches(matches);
      var i := KeptHasLast(matches, k);
    }
  }

  lemma KeptMatchesCount(es: seq<Event>, matches: seq<Match>, a: Assignment)
    requires a.tally == NaiveTally(es, BoundedMatches(matches))
    requires IsMaximum(es, BoundedMatches(matches), a.maximum, a.example)
    ensures CountsEachEvent(es, matches, a)
  {
    forall t ensures Multiplicity(BoundedMatches(matches), t) == Containing(matches, t) {
      KeptContain(matches, t);
    }
    var ms := BoundedMatches(matches);
    CountIfSame(es, InShare(ms, 0), (e: Event) => Containing(matches, e.time) == 0);
    CountIfSame(es, InShare(ms, 1), (e: Event) => Containing(matches, e.time) == 1);
    CountIfSame(es, InShare(ms, 2), (e: Event) => Containing(matches, e.time) > 1);
    CountIfSame(es, KillInShare(ms, 0), (e: Event) => e.kind.Kill? && Containing(matches, e.time) == 0);
    CountIfSame(es, KillInShare(ms, 2), (e: Event) => e.kind.Kill? && Containing(matches, e.time) > 1);
    if a.example.Some? {
      var i :| FirstReaching(es, ms, a.maximum, i)
        && a.example == Some(Example(es[i].id, es[i].time, ActiveAt(ms, es[i].time)));
      ActiveKeys(matches, es[i].time);
      assert IsFirstOfMost(es, matches, a.maximum, a.example.value, i);
    }
  }

  lemma ActiveKeys(matches: seq<Match>, t: int)
    ensures (set j | j in ActiveAt(BoundedMatches(matches), t) && j < |BoundedMatches(matches)| ::
        BoundedMatches(matches)[j].key)
      == (set m | m in matches && Contains(m, t) :: m.key)
  {
    var ms := BoundedMatches(matches);
    var listed := set j | j in ActiveAt(ms, t) && j < |ms| :: ms[j].key;
    var around := set m | m in matches && Contains(m, t) :: m.key;
    forall k | k in listed ensures k in around {
      var j :| j in ActiveAt(ms, t) && j < |ms| && ms[j].key == k;
      assert ms[j] in ms;
      KeptAreTheBounded(matches, ms[j]);
    }
    forall k | k in around ensures k in listed {
      var m :| m in matches && Contains(m, t) && m.key == k;
      KeptAreTheBounded(matches, m);
      var j: nat :| j < |ms| && ms[j] == m;
      assert j in ActiveAt(ms, t);
    }
  }

  // ---------- What the results mean ----------

  /** Every streamed event falls into exactly one share. */
  lemma {:induction false} SharesPartitionEvents(es: seq<Event>, ms: seq<Match>)
    ensures var t := NaiveTally(es, ms); t.events0 + t.events1 + t.eventsMany == |es|
  {
    if es != [] {
      SharesPartitionEvents(es[..|es| - 1], ms);
    }
  }

  function SelectedTotal(es: seq<Event>, ms: seq<Match>): nat {
    if ms == [] then 0
    else SelectedTotal(es, ms[..|ms| - 1]) + |Select(es, ms[|ms| - 1].bounds)|
  }

  function SelectedKillTotal(es: seq<Event>, ms: seq<Match>): nat {
    if ms == [] then 0
    else SelectedKillTotal(es, ms[..|ms| - 1]) + Kills(Select(es, ms[|ms| - 1].bounds))
  }

  function MultiplicityTotal(es: seq<Event>, ms: seq<Match>): nat {
    if es == [] then 0
    else MultiplicityTotal(es[..|es| - 1], ms) + Multiplicity(ms, es[|es| - 1].time)
  }

  function KillMultiplicityTotal(es: seq<Event>, ms: seq<Match>): nat {
    if es == [] then 0
    else KillMultiplicityTotal(es[..|es| - 1], ms) +
         (if es[|es| - 1].kind.Kill? then Multiplicity(ms, es[|es| - 1].time) else 0)
  }

  lemma {:induction false} SelectedTotalsOfOneMoreEvent(es: seq<Event>, e: Event, ms: seq<Match>)
    ensures SelectedTotal(es + [e], ms) == SelectedTotal(es, ms) + Multiplicity(ms, e.time)
    ensures SelectedKillTotal(es + [e], ms)
         == SelectedKillTotal(es, ms) + (if e.kind.Kill? then Multiplicity(ms, e.time) else 0)
  {
    if ms != [] {
      var b := ms[|ms| - 1].bounds;
      SelectedTotalsOfOneMoreEvent(es, e, ms[..|ms| - 1]);
      assert (es + [e])[..|es|] == es;
      var picked := if Within(e.time, b) then [e] else [];
      assert Select(es + [e], b) == Select(es, b) + picked;
      CountIfConcat(Select(es, b), picked, IsKill());
    }
  }

  lemma {:induction false} NothingSelectedFromNothing(ms: seq<Match>)
    ensures SelectedTotal([], ms) == 0 && SelectedKillTotal([], ms) == 0
  {
    if ms != [] {
      NothingSelectedFromNothing(ms[..|ms| - 1]);
    }
  }

  /**
   The per-match query counts and the per-event overlap counts add up to the same total, for
   all events and for kills alone.
   */
  lemma {:induction false} SelectionsEqualMultiplicities(es: seq<Event>, ms: seq<Match>)
    ensures SelectedTotal(es, ms) == MultiplicityTotal(es, ms)
    ensures SelectedKillTotal(es, ms) == KillMultiplicityTotal(es, ms)
  {
    if es == [] {
      NothingSelectedFromNothing(ms);
    } else {
      var front, e := es[..|es| - 1], es[|es| - 1];
      SelectionsEqualMultiplicities(front, ms);
      SelectedTotalsOfOneMoreEvent(front, e, ms);
      assert es == front + [e];
    }
  }

  lemma CutsExist(es: seq<Event>, b: Bounds) returns (lo: nat, hi: nat)
    requires TimeSorted(es)
    ensures Cuts(es, lo, hi, b)
  {
    lo := 0;
    while lo < |es| && b.lower.Some? && es[lo].time < b.lower.value
      invariant lo <= |es| && (b.lower.None? ==> lo == 0)
      invariant b.lower.Some? ==> forall i :: 0 <= i < lo ==> es[i].time < b.lower.value
    {
      lo := lo + 1;
    }
    hi := |es|;
    while hi > 0 && b.upper.Some? && b.upper.value < es[hi - 1].time
      invariant hi <= |es| && (b.upper.None? ==> hi == |es|)
      invariant b.upper.Some? ==> forall i :: hi <= i < |es| ==> b.upper.value < es[i].time
    {
      hi := hi - 1;
    }
  }

  lemma EdgesOfCuts(es: seq<Event>, lo: nat, hi: nat, b: Bounds)
    requires TimeSorted(es) && Cuts(es, lo, hi, b)
    ensures lo <= |es| && hi <= |es|
    ensures lo < hi <==> lo < |es| && Within(es[lo].time, b)
    ensures lo < hi <==> 0 < hi && Within(es[hi - 1].time, b)
  {
    if lo < hi {
      assert es[lo].time <= es[hi - 1].time;
    }
  }

  // The selection and the two one-sided selections as slices of the events.
  lemma MetricOfCuts(es: seq<Event>, lo: nat, hi: nat, b: Bounds)
    requires Cuts(es, lo, hi, b)
    ensures lo <= |es| && hi <= |es|
    ensures var m := NaiveMetric(es, b);
      && Select(es, b) == (if lo <= hi then es[lo..hi] else []) && m.selectedEvents == (if lo <= hi then hi - lo else 0)
      && m.first == (if lo < |es| then Some(Ref(es[lo].id, es[lo].time)) else None)
      && m.last == (if hi > 0 then Some(Ref(es[hi - 1].id, es[hi - 1].time)) else None)
  {
    SelectIsSlice(es, lo, hi, b);
    RefsOfCuts(es, lo, hi, b);
    RefsOfSlices(es, lo, hi);
  }

  lemma RefsOfSlices(es: seq<Event>, lo: nat, hi: nat)
    requires lo <= |es| && hi <= |es|
    ensures FirstRef(es[lo..]) == if lo < |es| then Some(Ref(es[lo].id, es[lo].time)) else None
    ensures LastRef(es[..hi]) == if hi > 0 then Some(Ref(es[hi - 1].id, es[hi - 1].time)) else None
  {
  }

  /**
   A reference lies inside the bounds exactly when something is selected, and then both are those of the
   selection.
   */
  lemma ReferencesOfSelection(es: seq<Event>, b: Bounds)
    requires TimeSorted(es)
    ensures var m := NaiveMetric(es, b);
      && (m.selectedEvents > 0 ==> m.first == FirstRef(Select(es, b)) && m.last == LastRef(Select(es, b)))
      && (m.selectedEvents > 0 <==> m.first.Some? && Within(m.first.value.time, b))
      && (m.selectedEvents > 0 <==> m.last.Some? && Within(m.last.value.time, b))
  {
    var lo, hi := CutsExist(es, b);
    MetricOfCuts(es, lo, hi, b);
    EdgesOfCuts(es, lo, hi, b);
  }

  // No event lies at or after the lower bound; without a bound there is no event at all.
  ghost predicate AllBefore(es: seq<Event>, lower: Option<int>) {
    forall e :: e in es ==> lower.Some? && e.time < lower.value
  }

  ghost predicate AllAfter(es: seq<Event>, upper: Option<int>) {
    forall e :: e in es ==> upper.Some? && upper.value < e.time
  }

  lemma NoReferenceIff(es: seq<Event>, b: Bounds)
    ensures NaiveMetric(es, b).first == None <==> AllBefore(es, b.lower)
    ensures NaiveMetric(es, b).last == None <==> AllAfter(es, b.upper)
  {
    var from, through := Bounds(b.lower, None), Bounds(None, b.upper);
    forall e ensures e in Select(es, from) <==> e in es && Within(e.time, from) {
      SelectKeepsExactly(es, from, e);
    }
    forall e ensures e in Select(es, through) <==> e in es && Within(e.time, through) {
      SelectKeepsExactly(es, through, e);
    }
    assert Select(es, from) != [] ==> Select(es, from)[0] in Select(es, from);
    assert Select(es, through) != [] ==> Select(es, through)[0] in Select(es, through);
  }

  /**
   The two references are those of the match's own selection exactly when it selected something, or when
   every event lies both before its lower and after its upper bound.
   */
  lemma ReferencesAreExactIff(es: seq<Event>, b: Bounds)
    requires TimeSorted(es)
    ensures var m := NaiveMetric(es, b);
      (m.first == FirstRef(Select(es, b)) && m.last == LastRef(Select(es, b)))
      <==> (m.selectedEvents > 0 || (AllBefore(es, b.lower) && AllAfter(es, b.upper)))
  {
    ReferencesOfSelection(es, b);
    NoReferenceIff(es, b);
  }

  /** With nothing selected the reported first event can lie outside the match: the bounds must be checked. */
  lemma EmptySelectionReportsStrayEvent(payload: Payload)
    ensures var m := NaiveMetric([Event(7, 50, Kill, payload)], Bounds(Some(10), Some(20)));
      m.selectedEvents == 0 && m.first == Some(Ref(7, 50))
  {
    var e := Event(7, 50, Kill, payload);
    SelectNone([e], Bounds(Some(10), Some(20)));
    SelectAll([e], Bounds(Some(10), None));
  }

  /** An inverted match (upper below lower) selects nothing and is never active. */
  lemma InvertedRangesSelectNothing(es: seq<Event>, b: Bounds)
    requires b.lower.Some? && b.upper.Some? && b.upper.value < b.lower.value
    ensures Select(es, b) == [] && forall t: int :: !Within(t, b)
  {
    SelectNone(es, b);
  }
}
