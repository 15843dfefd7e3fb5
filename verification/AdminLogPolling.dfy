/**
 Overlapping AdminLog polls (rcon_current_match_worker) and the insert-if-absent that makes them safe
 (rcon_admin_log_storage).
 */
module AdminLogPolling {
  import opened Options

  // A fetched line; `canonical` is its message without what changes from poll to poll.
  datatype Entry = Entry(time: int, serverTime: Option<int>, canonical: string)

  // A stored event with what identifies it.
  datatype Row = Row(target: string, serverTime: Option<int>, canonical: string, time: int)

  datatype Fetch = Fetched(entries: seq<Entry>) | FetchFails

  datatype Counts = Counts(seen: int, inserted: int, duplicates: int)

  predicate Matches(r: Row, target: string, e: Entry) {
    r.target == target && r.serverTime == e.serverTime && r.canonical == e.canonical
  }

  predicate IsStored(rows: seq<Row>, target: string, e: Entry) {
    exists r <- rows :: Matches(r, target, e)
  }

  ghost predicate EachOnce(rows: seq<Row>) {
    forall i, j :: 0 <= i < j < |rows| ==>
      !(rows[i].target == rows[j].target && rows[i].serverTime == rows[j].serverTime
        && rows[i].canonical == rows[j].canonical)
  }

  ghost predicate HoldsKey(entries: seq<Entry>, e: Entry) {
    exists x :: x in entries && x.serverTime == e.serverTime && x.canonical == e.canonical
  }

  function RowOf(target: string, e: Entry): Row {
    Row(target, e.serverTime, e.canonical, e.time)
  }

  function Insert(rows: seq<Row>, target: string, e: Entry): seq<Row> {
    if IsStored(rows, target, e) then rows else rows + [RowOf(target, e)]
  }

  function Persisted(rows: seq<Row>, target: string, entries: seq<Entry>): seq<Row> {
    if entries == [] then rows
      else Insert(Persisted(rows, target, entries[..|entries| - 1]), target, entries[|entries| - 1])
  }

  // ---------- One batch ----------

  lemma {:induction false} PersistedKeepsRows(rows: seq<Row>, target: string, entries: seq<Entry>)
    ensures |rows| <= |Persisted(rows, target, entries)| && Persisted(rows, target, entries)[..|rows|] == rows
    ensures EachOnce(rows) ==> EachOnce(Persisted(rows, target, entries))
  {
    if entries != [] {
      PersistedKeepsRows(rows, target, entries[..|entries| - 1]);
      InsertKeepsEachOnce(Persisted(rows, target, entries[..|entries| - 1]), target, entries[|entries| - 1]);
    }
  }

  lemma InsertKeepsEachOnce(rows: seq<Row>, target: string, e: Entry)
    ensures EachOnce(rows) ==> EachOnce(Insert(rows, target, e))
  {
    if !IsStored(rows, target, e) {
      forall i | 0 <= i < |rows| ensures !Matches(rows[i], target, e) {
        assert rows[i] in rows;
      }
    }
  }

  /** A key is stored after a batch exactly when it was before or the batch holds it. */
  lemma {:induction false} PersistedStores(rows: seq<Row>, target: string, entries: seq<Entry>, t: string, e: Entry)
    ensures IsStored(Persisted(rows, target, entries), t, e) <==>
      IsStored(rows, t, e) || (t == target && HoldsKey(entries, e))
  {
    if entries != [] {
      var front, last := entries[..|entries| - 1], entries[|entries| - 1];
      PersistedStores(rows, target, front, t, e);
      PersistedStores(rows, target, front, target, last);
      var before := Persisted(rows, target, front);
      assert forall x :: x in entries <==> x in front || x == last;
      InsertStores(before, target, last, t, e);
    }
  }

  /** What a batch adds are rows of its target as they were first fetched, and only of entries not yet stored. */
  lemma {:induction false} AddedRowsAreFetched(rows: seq<Row>, target: string, entries: seq<Entry>, r: Row)
    requires r in Persisted(rows, target, entries) && r !in rows
    ensures exists i ::
      IsFirstFetched(entries, i) && r == Row(target, entries[i].serverTime, entries[i].canonical, entries[i].time)
    ensures forall x :: x in rows ==>
      !(x.target == r.target && x.serverTime == r.serverTime && x.canonical == r.canonical)
  {
    var front, last := entries[..|entries| - 1], entries[|entries| - 1];
    var before := Persisted(rows, target, front);
    if r in before {
      AddedRowsAreFetched(rows, target, front, r);
      var i :| IsFirstFetched(front, i) && r == Row(target, front[i].serverTime, front[i].canonical, front[i].time);
      assert IsFirstFetched(entries, i) && entries[i] == front[i];
    } else {
      PersistedStores(rows, target, front, target, last);
      assert !IsStored(before, target, last) && r == Row(target, last.serverTime, last.canonical, last.time);
      assert IsFirstFetched(entries, |front|) by {
        assert forall j :: 0 <= j < |front| ==> entries[j] == front[j] && front[j] in front;
      }
      assert forall x :: x in rows ==> !Matches(x, target, last);
    }
  }

  // No earlier entry of the batch has the server time and message of the `i`-th.
  ghost predicate IsFirstFetched(entries: seq<Entry>, i: int) {
    && 0 <= i < |entries|
    && forall j :: 0 <= j < i ==>
      entries[j].serverTime != entries[i].serverTime || entries[j].canonical != entries[i].canonical
  }

  lemma InsertStores(rows: seq<Row>, target: string, last: Entry, t: string, e: Entry)
    ensures IsStored(Insert(rows, target, last), t, e) <==>
      IsStored(rows, t, e) || (t == target && last.serverTime == e.serverTime && last.canonical == e.canonical)
  {
    if IsStored(rows, t, e) {
      var r :| r in rows && Matches(r, t, e);
      assert r in Insert(rows, target, last);
    }
    if t == target && last.serverTime == e.serverTime && last.canonical == e.canonical {
      if IsStored(rows, target, last) {
        var r :| r in rows && Matches(r, target, last);
        assert Matches(r, t, e);
      } else {
        assert RowOf(target, last) in Insert(rows, target, last);
      }
    }
  }

  /** However a feed is cut into batches, the same rows are stored in the same order. */
  lemma {:induction false} BatchesJoin(rows: seq<Row>, target: string, a: seq<Entry>, b: seq<Entry>)
    ensures Persisted(Persisted(rows, target, a), target, b) == Persisted(rows, target, a + b)
  {
    if b == [] {
      assert a + b == a;
    } else {
      BatchesJoin(rows, target, a, b[..|b| - 1]);
      assert (a + b)[..|a + b| - 1] == a + b[..|b| - 1];
    }
  }

  lemma {:induction false} KnownEntriesChangeNothing(rows: seq<Row>, target: string, entries: seq<Entry>)
    requires forall e :: e in entries ==> IsStored(rows, target, e)
    ensures Persisted(rows, target, entries) == rows
  {
    if entries != [] {
      KnownEntriesChangeNothing(rows, target, entries[..|entries| - 1]);
      assert entries[|entries| - 1] in entries;
    }
  }

  // ---------- The worker ----------

  datatype Item = Item(target: string, counts: Counts)

  datatype Status = Fine | Partial | Failed

  datatype Report =
    Report(status: Status, items: seq<Item>, errors: seq<string>, totals: Counts, targetsSeen: nat, failedTargets: nat)

  datatype Refresh = Refused | Refreshed(report: Report)

  // The rows after one refresh; a target that fails stores nothing.
  function AfterTarget(rows: seq<Row>, target: string, fetch: Fetch): seq<Row> {
    if fetch.Fetched? && target != "" then Persisted(rows, target, fetch.entries) else rows
  }

  // What a refresh has counted so far.
  datatype Tally = Tally(items: seq<Item>, errors: seq<string>, totals: Counts)

  function TallyWith(t: Tally, rows: seq<Row>, target: string, fetch: Fetch): Tally {
    if fetch.Fetched? && target != "" then
      var seen, inserted := |fetch.entries|, |Persisted(rows, target, fetch.entries)| - |rows|;
      Tally(t.items + [Item(target, Counts(seen, inserted, seen - inserted))], t.errors,
            Counts(t.totals.seen + seen, t.totals.inserted + inserted, t.totals.duplicates + (seen - inserted)))
    else t.(errors := t.errors + [target])
  }

  function TallyAfter(rows: seq<Row>, targets: seq<string>, fetch: string -> Fetch): Tally {
    if targets == [] then Tally([], [], Counts(0, 0, 0))
    else
      var front, last := targets[..|targets| - 1], targets[|targets| - 1];
      TallyWith(TallyAfter(rows, front, fetch), AfterTargets(rows, front, fetch), last, fetch(last))
  }

  function AfterTargets(rows: seq<Row>, targets: seq<string>, fetch: string -> Fetch): seq<Row> {
    if targets == [] then rows
    else AfterTarget(AfterTargets(rows, targets[..|targets| - 1], fetch), targets[|targets| - 1],
                     fetch(targets[|targets| - 1]))
  }

  /** The event table. */
  class EventStore {
    var rows: seq<Row>

    constructor ()
      ensures rows == []
    {
      rows := [];
    }

    /** persist_rcon_admin_log_entries: every entry seen is either inserted or a duplicate. */
    method PersistEntries(target: string, entries: seq<Entry>) returns (counts: Option<Counts>)
      modifies this
      ensures counts.None? <==> target == ""
      ensures rows == if target == "" then old(rows) else Persisted(old(rows), target, entries)
      ensures counts.Some? ==>
        counts.value == Counts(|entries|, |rows| - |old(rows)|, |entries| - (|rows| - |old(rows)|))
    {
      if target == "" {
        return None;
      }
      var inserted, duplicates := 0, 0;
      for i := 0 to |entries|
        invariant rows == Persisted(old(rows), target, entries[..i])
        invariant inserted == |rows| - |old(rows)| && inserted + duplicates == i
      {
        assert entries[..i + 1][..i] == entries[..i];
        if IsStored(rows, target, entries[i]) {
          duplicates := duplicates + 1;
        } else {
          rows := rows + [RowOf(target, entries[i])];
          inserted := inserted + 1;
        }
      }
      assert entries[..|entries|] == entries;
      return Some(Counts(|entries|, inserted, duplicates));
    }

    // One target: fetched, stored and counted, or failed.
    method RefreshTarget(target: string, fetched: Fetch, t0: Tally) returns (t: Tally)
      modifies this
      ensures rows == AfterTarget(old(rows), target, fetched)
      ensures t == TallyWith(t0, old(rows), target, fetched)
    {
      t := t0;
      var counts: Option<Counts> := None;
      if fetched.Fetched? {
        counts := PersistEntries(target, fetched.entries);
      }
      if counts.Some? {
        var c := counts.value;
        t := Tally(t.items + [Item(target, c)], t.errors,
                   Counts(t.totals.seen + c.seen, t.totals.inserted + c.inserted, t.totals.duplicates + c.duplicates));
      } else {
        t := t.(errors := t.errors + [target]);
      }
    }

    /**
     run_current_match_adminlog_refresh_once: one failing target neither stops the others nor is lost from the
     totals.
     */
    method RefreshOnce(targets: seq<string>, lookback: int, fetch: string -> Fetch) returns (r: Refresh)
      modifies this
      ensures r.Refused? <==> lookback <= 0 || targets == []
      ensures rows == if r.Refused? then old(rows) else AfterTargets(old(rows), targets, fetch)
      ensures r.Refreshed? ==> Accounted(r.report, targets, fetch, |rows| - |old(rows)|)
    {
      if lookback <= 0 || targets == [] {
        return Refused;
      }
      var t := Tally([], [], Counts(0, 0, 0));
      for i := 0 to |targets|
        invariant rows == AfterTargets(old(rows), targets[..i], fetch)
        invariant t == TallyAfter(old(rows), targets[..i], fetch)
      {
        TargetsOneMore(old(rows), targets, i, fetch);
        t := RefreshTarget(targets[i], fetch(targets[i]), t);
      }
      assert targets[..|targets|] == targets;
      TallyIsAccounted(old(rows), targets, fetch);
      var status := if t.errors == [] then Fine else if t.items != [] then Partial else Failed;
      r := Refreshed(Report(status, t.items, t.errors, t.totals, |targets|, |t.errors|));
    }

    /**
     run_current_match_adminlog_refresh_loop, with a cap on its runs or none: one refresh after another, whatever
     fails in each, until the cap or the operator's interrupt, before which `fetches` says what the servers answer.
     */
    method RefreshLoop(targets: seq<string>, lookback: int, interval: int, fetches: seq<string -> Fetch>,
                       maxRuns: Option<int>)
      returns (runCount: nat, refused: bool)
      modifies this
      ensures refused <==>
        || interval <= 0 || (maxRuns.Some? && maxRuns.value <= 0)
        || (fetches != [] && (lookback <= 0 || targets == []))
      ensures refused ==> rows == old(rows)
      ensures !refused ==> runCount == (if maxRuns.Some? && maxRuns.value < |fetches| then maxRuns.value else |fetches|)
      ensures !refused ==> rows == AfterCycles(old(rows), targets, fetches[..runCount])
    {
      runCount := 0;
      if interval <= 0 || (maxRuns.Some? && maxRuns.value <= 0) {
        return 0, true;
      }
      while runCount < |fetches| && (maxRuns.None? || runCount < maxRuns.value)
        invariant runCount <= |fetches| && (maxRuns.Some? ==> runCount <= maxRuns.value)
        invariant rows == AfterCycles(old(rows), targets, fetches[..runCount])
        invariant runCount > 0 ==> lookback > 0 && targets != []
      {
        assert fetches[..runCount + 1][..runCount] == fetches[..runCount];
        var r := RefreshOnce(targets, lookback, fetches[runCount]);
        runCount := runCount + 1;
        if r.Refused? {
          return runCount, true;
        }
      }
      refused := false;
    }
  }

  function AfterCycles(rows: seq<Row>, targets: seq<string>, cycles: seq<string -> Fetch>): seq<Row> {
    if cycles == [] then rows
      else AfterTargets(AfterCycles(rows, targets, cycles[..|cycles| - 1]), targets, cycles[|cycles| - 1])
  }

  lemma TargetsOneMore(rows: seq<Row>, targets: seq<string>, i: nat, fetch: string -> Fetch)
    requires i < |targets|
    ensures AfterTargets(rows, targets[..i + 1], fetch)
      == AfterTarget(AfterTargets(rows, targets[..i], fetch), targets[i], fetch(targets[i]))
    ensures TallyAfter(rows, targets[..i + 1], fetch)
      == TallyWith(TallyAfter(rows, targets[..i], fetch), AfterTargets(rows, targets[..i], fetch), targets[i],
                   fetch(targets[i]))
  {
    assert targets[..i + 1][..i] == targets[..i];
  }

  lemma ItemsOneMore(items: seq<Item>, item: Item)
    ensures SumInserted(items + [item]) == SumInserted(items) + item.counts.inserted
  {
    assert (items + [item])[..|items|] == items;
  }

  function SumInserted(items: seq<Item>): int {
    if items == [] then 0 else SumInserted(items[..|items| - 1]) + items[|items| - 1].counts.inserted
  }

  predicate Answers(target: string, fetch: string -> Fetch) {
    fetch(target).Fetched? && target != ""
  }

  function Answering(targets: seq<string>, fetch: string -> Fetch): seq<string> {
    if targets == [] then []
    else
      var last := targets[|targets| - 1];
      Answering(targets[..|targets| - 1], fetch) + (if Answers(last, fetch) then [last] else [])
  }

  function Failing(targets: seq<string>, fetch: string -> Fetch): seq<string> {
    if targets == [] then []
    else
      var last := targets[|targets| - 1];
      Failing(targets[..|targets| - 1], fetch) + (if Answers(last, fetch) then [] else [last])
  }

  // The number of entries that the targets that answer returned.
  function FetchedFrom(targets: seq<string>, fetch: string -> Fetch): nat {
    if targets == [] then 0
    else
      var last := targets[|targets| - 1];
      FetchedFrom(targets[..|targets| - 1], fetch) + (if Answers(last, fetch) then |fetch(last).entries| else 0)
  }

  // An item of a target accounts for every entry fetched from it.
  predicate IsItemOf(item: Item, target: string, fetch: string -> Fetch) {
    && item.target == target && fetch(target).Fetched? && item.counts.seen == |fetch(target).entries|
    && item.counts.inserted + item.counts.duplicates == item.counts.seen
  }

  ghost predicate ItemsOf(items: seq<Item>, targets: seq<string>, fetch: string -> Fetch) {
    |items| == |targets| && forall i :: 0 <= i < |items| ==> IsItemOf(items[i], targets[i], fetch)
  }

  lemma FetchesOneMore(front: seq<string>, t: string, fetch: string -> Fetch)
    ensures Answering(front + [t], fetch)
      == (if Answers(t, fetch) then Answering(front, fetch) + [t] else Answering(front, fetch))
    ensures Failing(front + [t], fetch)
      == (if Answers(t, fetch) then Failing(front, fetch) else Failing(front, fetch) + [t])
    ensures FetchedFrom(front + [t], fetch)
      == FetchedFrom(front, fetch) + (if Answers(t, fetch) then |fetch(t).entries| else 0)
  {
    assert (front + [t])[..|front|] == front;
    assert Answering(front, fetch) + [] == Answering(front, fetch);
    assert Failing(front, fetch) + [] == Failing(front, fetch);
  }

  lemma ItemAdded(items: seq<Item>, targets: seq<string>, fetch: string -> Fetch, item: Item)
    requires ItemsOf(items, targets, fetch) && IsItemOf(item, item.target, fetch)
    ensures ItemsOf(items + [item], targets + [item.target], fetch)
  {
  }

  // The items, errors and totals once these targets have been refreshed.
  ghost predicate Tallied(targets: seq<string>, fetch: string -> Fetch, t: Tally) {
    && |t.items| + |t.errors| == |targets| && ItemsOf(t.items, Answering(targets, fetch), fetch)
    && t.errors == Failing(targets, fetch)
    && t.totals.seen == FetchedFrom(targets, fetch) == t.totals.inserted + t.totals.duplicates
    && t.totals.inserted == SumInserted(t.items)
  }

  lemma TalliedOneMore(front: seq<string>, last: string, fetch: string -> Fetch, t: Tally, rows: seq<Row>)
    requires Tallied(front, fetch, t)
    ensures Tallied(front + [last], fetch, TallyWith(t, rows, last, fetch(last)))
  {
    if Answers(last, fetch) {
      TalliedAnswer(front, last, fetch, t, |Persisted(rows, last, fetch(last).entries)| - |rows|);
    } else {
      TalliedFailure(front, last, fetch, t);
    }
  }

  lemma TalliedFailure(front: seq<string>, last: string, fetch: string -> Fetch, t: Tally)
    requires Tallied(front, fetch, t) && !Answers(last, fetch)
    ensures Tallied(front + [last], fetch, t.(errors := t.errors + [last]))
  {
    FetchesOneMore(front, last, fetch);
  }

  lemma TalliedAnswer(front: seq<string>, last: string, fetch: string -> Fetch, t: Tally, inserted: int)
    requires Tallied(front, fetch, t) && Answers(last, fetch)
    ensures var seen := |fetch(last).entries|;
      Tallied(front + [last], fetch,
              Tally(t.items + [Item(last, Counts(seen, inserted, seen - inserted))], t.errors,
                    Counts(t.totals.seen + seen, t.totals.inserted + inserted,
                           t.totals.duplicates + (seen - inserted))))
  {
    var seen := |fetch(last).entries|;
    var item := Item(last, Counts(seen, inserted, seen - inserted));
    FetchesOneMore(front, last, fetch);
    ItemsOneMore(t.items, item);
    ItemAdded(t.items, Answering(front, fetch), fetch, item);
  }

  lemma {:induction false} TallyIsAccounted(rows: seq<Row>, targets: seq<string>, fetch: string -> Fetch)
    ensures Tallied(targets, fetch, TallyAfter(rows, targets, fetch))
    ensures TallyAfter(rows, targets, fetch).totals.inserted == |AfterTargets(rows, targets, fetch)| - |rows|
  {
    if targets != [] {
      var front, last := targets[..|targets| - 1], targets[|targets| - 1];
      TallyIsAccounted(rows, front, fetch);
      TalliedOneMore(front, last, fetch, TallyAfter(rows, front, fetch), AfterTargets(rows, front, fetch));
      assert targets == front + [last];
    }
  }

  /** Every target is an item or an error, and no target answers and fails. */
  lemma {:induction false} EachTargetIsAccounted(targets: seq<string>, fetch: string -> Fetch, t: string)
    ensures t in Answering(targets, fetch) <==> t in targets && t != "" && fetch(t).Fetched?
    ensures t in Failing(targets, fetch) <==> t in targets && (t == "" || fetch(t).FetchFails?)
    ensures |Answering(targets, fetch)| + |Failing(targets, fetch)| == |targets|
  {
    if targets != [] {
      var front, last := targets[..|targets| - 1], targets[|targets| - 1];
      EachTargetIsAccounted(front, fetch, t);
      assert targets == front + [last];
    }
  }

  // Every target is an item or an error; the totals add up, and the status says which targets failed.
  ghost predicate Accounted(r: Report, targets: seq<string>, fetch: string -> Fetch, added: int) {
    && r.targetsSeen == |targets| && r.failedTargets == |r.errors| && r.totals.inserted == added
    && Tallied(targets, fetch, Tally(r.items, r.errors, r.totals))
    && (r.status == Fine <==> r.errors == [])
    && (r.status == Failed <==> r.items == [] && r.errors != [])
  }

  // ---------- Everything fetched is stored, once ----------

  // A cycle fetched an entry with the key of `e` from the target `t`.
  ghost predicate FetchedIn(targets: seq<string>, fetch: string -> Fetch, t: string, e: Entry) {
    t in targets && t != "" && fetch(t).Fetched? && HoldsKey(fetch(t).entries, e)
  }

  lemma {:induction false} CycleStores(rows: seq<Row>, targets: seq<string>, fetch: string -> Fetch, t: string,
      e: Entry)
    ensures IsStored(AfterTargets(rows, targets, fetch), t, e)
      <==> IsStored(rows, t, e) || FetchedIn(targets, fetch, t, e)
    ensures EachOnce(rows) ==> EachOnce(AfterTargets(rows, targets, fetch))
  {
    if targets != [] {
      var front, last := targets[..|targets| - 1], targets[|targets| - 1];
      var before := AfterTargets(rows, front, fetch);
      CycleStores(rows, front, fetch, t, e);
      assert t in targets <==> t in front || t == last;
      if fetch(last).Fetched? && last != "" {
        PersistedStores(before, last, fetch(last).entries, t, e);
        PersistedKeepsRows(before, last, fetch(last).entries);
      }
    }
  }

  /** Over any cycles, whichever targets fail, an event is stored once, and exactly when some cycle fetched it. */
  lemma {:induction false} CyclesStore(targets: seq<string>, cycles: seq<string -> Fetch>, t: string, e: Entry)
    ensures EachOnce(AfterCycles([], targets, cycles))
    ensures IsStored(AfterCycles([], targets, cycles), t, e)
      <==> exists i :: 0 <= i < |cycles| && FetchedIn(targets, cycles[i], t, e)
  {
    if cycles != [] {
      var front := cycles[..|cycles| - 1];
      CyclesStore(targets, front, t, e);
      CycleStores(AfterCycles([], targets, front), targets, cycles[|cycles| - 1], t, e);
      assert forall i :: 0 <= i < |front| ==> front[i] == cycles[i];
    }
  }

  // ---------- Overlapping polls of one log ----------

  ghost predicate InTimeOrder(log: seq<Entry>) {
    forall i, j :: 0 <= i < j < |log| ==> log[i].time <= log[j].time
  }

  // What a fetch of the log covers.
  function Window(log: seq<Entry>, from: int, until: int): seq<Entry> {
    if log == [] then []
    else
      var last := log[|log| - 1];
      Window(log[..|log| - 1], from, until) + (if from <= last.time <= until then [last] else [])
  }

  function AfterPolls(log: seq<Entry>, target: string, lookback: int, polls: seq<int>): seq<Row> {
    if polls == [] then []
    else
      var now := polls[|polls| - 1];
      Persisted(AfterPolls(log, target, lookback, polls[..|polls| - 1]), target, Window(log, now - lookback, now))
  }

  lemma {:induction false} WindowHolds(log: seq<Entry>, from: int, until: int, e: Entry)
    ensures e in Window(log, from, until) <==> e in log && from <= e.time <= until
  {
    if log != [] {
      WindowHolds(log[..|log| - 1], from, until, e);
      assert log == log[..|log| - 1] + [log[|log| - 1]];
    }
  }

  lemma {:induction false} EmptyWindow(log: seq<Entry>, from: int, until: int)
    requires forall e :: e in log ==> e.time < from
    ensures Window(log, from, until) == []
  {
    if log != [] {
      assert log[|log| - 1] in log;
      EmptyWindow(log[..|log| - 1], from, until);
    }
  }

  lemma WindowOneMore(front: seq<Entry>, last: Entry, from: int, until: int)
    ensures Window(front + [last], from, until)
      == Window(front, from, until) + (if from <= last.time <= until then [last] else [])
  {
    assert (front + [last])[..|front|] == front;
  }

  lemma AllBefore(front: seq<Entry>, last: Entry, mid: int)
    requires InTimeOrder(front + [last]) && last.time <= mid
    ensures forall e :: e in front ==> e.time <= mid
  {
    forall e | e in front ensures e.time <= mid {
      var i :| 0 <= i < |front| && front[i] == e;
      assert (front + [last])[i].time <= (front + [last])[|front|].time;
    }
  }

  lemma AppendToSplit(whole: seq<Entry>, earlier: seq<Entry>, later: seq<Entry>, x: seq<Entry>, early: bool)
    requires whole == earlier + later && (early ==> later == [])
    ensures whole + x == (if early then (earlier + x) + later else earlier + (later + x))
  {
  }

  lemma CutOneMore(front: seq<Entry>, last: Entry, from: int, mid: int, until: int)
    requires InTimeOrder(front + [last]) && from <= mid + 1 && mid <= until
    requires Window(front, from, until) == Window(front, from, mid) + Window(front, mid + 1, until)
    ensures Window(front + [last], from, until)
      == Window(front + [last], from, mid) + Window(front + [last], mid + 1, until)
  {
    var whole, earlier, later := Window(front, from, until), Window(front, from, mid), Window(front, mid + 1, until);
    if last.time <= mid {
      AllBefore(front, last, mid);
      EmptyWindow(front, mid + 1, until);
    }
    var x := if from <= last.time <= until then [last] else [];
    AppendToSplit(whole, earlier, later, x, last.time <= mid);
    CutWindows(front, last, from, mid, until, x);
  }

  lemma CutWindows(front: seq<Entry>, last: Entry, from: int, mid: int, until: int, x: seq<Entry>)
    requires from <= mid + 1 && mid <= until && x == if from <= last.time <= until then [last] else []
    ensures Window(front + [last], from, until) == Window(front, from, until) + x
    ensures Window(front + [last], from, mid)
      == (if last.time <= mid then Window(front, from, mid) + x else Window(front, from, mid))
    ensures Window(front + [last], mid + 1, until)
      == (if last.time <= mid then Window(front, mid + 1, until) else Window(front, mid + 1, until) + x)
  {
    WindowOneMore(front, last, from, until);
    WindowOneMore(front, last, from, mid);
    WindowOneMore(front, last, mid + 1, until);
  }

  // In a log in time order a window is cut at any instant.
  lemma {:induction false} WindowSplits(log: seq<Entry>, from: int, mid: int, until: int)
    requires InTimeOrder(log) && from <= mid + 1 && mid <= until
    ensures Window(log, from, until) == Window(log, from, mid) + Window(log, mid + 1, until)
  {
    if log != [] {
      var front, last := log[..|log| - 1], log[|log| - 1];
      assert log == front + [last];
      WindowSplits(front, from, mid, until);
      CutOneMore(front, last, from, mid, until);
    }
  }

  // Polls in time order, each window starting at most one second after the poll before it; times are whole seconds.
  ghost predicate Overlapping(polls: seq<int>, lookback: int) {
    forall i :: 0 < i < |polls| ==> polls[i - 1] <= polls[i] <= polls[i - 1] + lookback + 1
  }

  lemma PollsOneMore(log: seq<Entry>, target: string, lookback: int, front: seq<int>, now: int)
    ensures AfterPolls(log, target, lookback, front + [now])
         == Persisted(AfterPolls(log, target, lookback, front), target, Window(log, now - lookback, now))
  {
    assert (front + [now])[..|front|] == front;
  }

  // The rows are those of one fetch from the first poll's lookback on.
  ghost predicate AsOneFetch(log: seq<Entry>, target: string, lookback: int, polls: seq<int>, rows: seq<Row>)
    requires polls != []
  {
    StoresWindow(log, target, polls[0] - lookback, polls[|polls| - 1], rows)
  }

  ghost predicate StoresWindow(log: seq<Entry>, target: string, from: int, until: int, rows: seq<Row>) {
    rows == Persisted([], target, Window(log, from, until))
  }

  lemma StoredWithNextPoll(log: seq<Entry>, target: string, start: int, before: int, from: int, now: int,
                           rows: seq<Row>)
    requires InTimeOrder(log) && start <= from <= before + 1 && before <= now
    requires StoresWindow(log, target, start, before, rows)
    ensures StoresWindow(log, target, start, now, Persisted(rows, target, Window(log, from, now)))
  {
    NextPoll(log, target, start, before, from, now);
  }

  lemma OnePollMore(log: seq<Entry>, target: string, lookback: int, front: seq<int>, now: int, rows: seq<Row>)
    requires InTimeOrder(log) && lookback > 0 && front != []
      && front[0] <= front[|front| - 1] <= now <= front[|front| - 1] + lookback + 1
    requires AsOneFetch(log, target, lookback, front, rows)
    ensures AsOneFetch(log, target, lookback, front + [now], Persisted(rows, target, Window(log, now - lookback, now)))
  {
    var start, before := front[0] - lookback, front[|front| - 1];
    StoredWithNextPoll(log, target, start, before, now - lookback, now, rows);
    assert (front + [now])[0] - lookback == start && (front + [now])[|front + [now]| - 1] == now;
  }

  lemma {:induction false} PollsInOrder(polls: seq<int>, lookback: int)
    requires polls != [] && Overlapping(polls, lookback)
    ensures polls[0] <= polls[|polls| - 1]
  {
    if |polls| > 1 {
      PollsInOrder(polls[..|polls| - 1], lookback);
    }
  }

  lemma FirstPoll(log: seq<Entry>, target: string, lookback: int, now: int)
    ensures AsOneFetch(log, target, lookback, [now], AfterPolls(log, target, lookback, [now]))
  {
    PollsOneMore(log, target, lookback, [], now);
    assert [] + [now] == [now];
  }

  lemma NextPollMore(log: seq<Entry>, target: string, lookback: int, front: seq<int>, now: int)
    requires InTimeOrder(log) && lookback > 0 && front != []
      && front[0] <= front[|front| - 1] <= now <= front[|front| - 1] + lookback + 1
    requires AsOneFetch(log, target, lookback, front, AfterPolls(log, target, lookback, front))
    ensures AsOneFetch(log, target, lookback, front + [now], AfterPolls(log, target, lookback, front + [now]))
  {
    PollsOneMore(log, target, lookback, front, now);
    OnePollMore(log, target, lookback, front, now, AfterPolls(log, target, lookback, front));
  }

  /**
   Polls at most a lookback and one second apart store exactly what one fetch of the whole time would, in the
   same order.
   */
  lemma {:induction false} OverlappingPollsAreOneFetch(log: seq<Entry>, target: string, lookback: int, polls: seq<int>)
    requires InTimeOrder(log) && lookback > 0 && polls != [] && Overlapping(polls, lookback)
    ensures AsOneFetch(log, target, lookback, polls, AfterPolls(log, target, lookback, polls))
    decreases |polls|
  {
    var now := polls[|polls| - 1];
    if |polls| == 1 {
      FirstPoll(log, target, lookback, now);
      assert polls == [now];
    } else {
      var front := polls[..|polls| - 1];
      OverlappingPollsAreOneFetch(log, target, lookback, front);
      PollsInOrder(front, lookback);
      NextPollMore(log, target, lookback, front, now);
      assert polls == front + [now];
    }
  }

  lemma NextPoll(log: seq<Entry>, target: string, start: int, before: int, from: int, now: int)
    requires InTimeOrder(log) && start <= from <= before + 1 && before <= now
    ensures Persisted(Persisted([], target, Window(log, start, before)), target, Window(log, from, now))
         == Persisted([], target, Window(log, start, now))
  {
    var rows := Persisted([], target, Window(log, start, before));
    var again, later := Window(log, from, before), Window(log, before + 1, now);
    WindowSplits(log, from, before, now);
    WindowSplits(log, start, before, now);
    BatchesJoin(rows, target, again, later);
    BatchesJoin([], target, Window(log, start, before), later);
    forall e | e in again ensures IsStored(rows, target, e) {
      WindowHolds(log, from, before, e);
      WindowHolds(log, start, before, e);
      PersistedStores([], target, Window(log, start, before), target, e);
    }
    KnownEntriesChangeNothing(rows, target, again);
  }

  ghost predicate Covered(polls: seq<int>, lookback: int, time: int) {
    exists i :: 0 <= i < |polls| && polls[i] - lookback <= time <= polls[i]
  }

  // Some entry of the log with the key of `e` is covered by a poll.
  ghost predicate KeyCovered(log: seq<Entry>, polls: seq<int>, lookback: int, e: Entry) {
    exists x ::
      x in log && x.serverTime == e.serverTime && x.canonical == e.canonical && Covered(polls, lookback, x.time)
  }

  lemma KeyCoveredOneMore(log: seq<Entry>, polls: seq<int>, now: int, lookback: int, e: Entry)
    ensures KeyCovered(log, polls + [now], lookback, e) <==>
      KeyCovered(log, polls, lookback, e) || HoldsKey(Window(log, now - lookback, now), e)
  {
    forall x ensures x in Window(log, now - lookback, now) <==> x in log && now - lookback <= x.time <= now {
      WindowHolds(log, now - lookback, now, x);
    }
    forall x | x in log
      ensures Covered(polls + [now], lookback, x.time)
        <==> Covered(polls, lookback, x.time) || now - lookback <= x.time <= now
    {
      CoveredOneMore(polls, now, lookback, x.time);
    }
  }

  /**
   In whatever order and at whatever distance polls are made, an event is stored exactly when a poll covers an
   entry of its key.
   */
  lemma {:induction false} StoredIffCovered(log: seq<Entry>, target: string, lookback: int, polls: seq<int>, e: Entry)
    ensures EachOnce(AfterPolls(log, target, lookback, polls))
    ensures IsStored(AfterPolls(log, target, lookback, polls), target, e) <==> KeyCovered(log, polls, lookback, e)
  {
    if polls != [] {
      var front, now := polls[..|polls| - 1], polls[|polls| - 1];
      assert polls == front + [now];
      var before := AfterPolls(log, target, lookback, front);
      StoredIffCovered(log, target, lookback, front, e);
      PollsOneMore(log, target, lookback, front, now);
      PersistedKeepsRows(before, target, Window(log, now - lookback, now));
      PersistedStores(before, target, Window(log, now - lookback, now), target, e);
      KeyCoveredOneMore(log, front, now, lookback, e);
    }
  }

  lemma CoveredOneMore(polls: seq<int>, now: int, lookback: int, time: int)
    ensures Covered(polls + [now], lookback, time) <==> Covered(polls, lookback, time) || now - lookback <= time <= now
  {
    var more := polls + [now];
    if Covered(polls, lookback, time) {
      var i :| 0 <= i < |polls| && polls[i] - lookback <= time <= polls[i];
      assert more[i] - lookback <= time <= more[i];
    }
    if now - lookback <= time <= now {
      assert more[|polls|] - lookback <= time <= more[|polls|];
    }
  }

  /**
   Two polls lose no whole second between them exactly when the second comes at most a lookback and one second
   after the first.
   */
  lemma NoGapIff(first: int, second: int, lookback: int)
    requires first <= second && lookback > 0
    ensures (forall t :: first - lookback <= t <= second ==> Covered([first, second], lookback, t))
      <==> second <= first + lookback + 1
  {
    forall t
      ensures Covered([first, second], lookback, t)
        <==> first - lookback <= t <= first || second - lookback <= t <= second
    {
      assert [first] + [second] == [first, second] && [] + [first] == [first];
      CoveredOneMore([first], second, lookback, t);
      CoveredOneMore([], first, lookback, t);
    }
    if second > first + lookback + 1 {
      assert !Covered([first, second], lookback, first + 1);
    }
  }
}
