/**
 The audit's re-derivation of matches (derive_admin_matches) with its sequence counters: that it agrees
 with the materializer, and exactly when the counters of a server agree with its rows.
 */
module BoundaryAudit {
  import opened Options
  import opened Counting
  import opened Sorting
  import opened TextOrder
  import opened BoundaryPairing

  // ---------- The order both derivations read the rows in ----------

  function NullRank(time: Option<int>, nullsLast: bool): int {
    if nullsLast then (if time.None? then 1 else 0) else (if time.None? then 0 else 1)
  }

  function TimeOrZero(time: Option<int>): int {
    if time.None? then 0 else time.value
  }

  predicate BoundaryLe(a: Boundary, b: Boundary, nullsLast: bool) {
    if a.target != b.target then TextLe(a.target, b.target)
    else if NullRank(a.time, nullsLast) != NullRank(b.time, nullsLast) then
      NullRank(a.time, nullsLast) < NullRank(b.time, nullsLast)
    else if TimeOrZero(a.time) != TimeOrZero(b.time) then TimeOrZero(a.time) < TimeOrZero(b.time)
    else a.id <= b.id
  }

  function BoundaryOrder(nullsLast: bool): (Boundary, Boundary) -> bool {
    (a: Boundary, b: Boundary) => BoundaryLe(a, b, nullsLast)
  }

  lemma BoundaryLeTransitive(a: Boundary, b: Boundary, c: Boundary, nullsLast: bool)
    requires BoundaryLe(a, b, nullsLast) && BoundaryLe(b, c, nullsLast)
    ensures BoundaryLe(a, c, nullsLast)
  {
    if a.target != b.target && b.target != c.target {
      TextLeTransitive(a.target, b.target, c.target);
      if a.target == c.target {
        TextLeAntisymmetric(a.target, b.target);
      }
    }
  }

  lemma BoundaryOrderIsTotalPreorder(nullsLast: bool)
    ensures TotalPreorder(BoundaryOrder(nullsLast))
  {
    forall a, b ensures BoundaryOrder(nullsLast)(a, b) || BoundaryOrder(nullsLast)(b, a) {
      TextLeTotal(a.target, b.target);
    }
    forall a, b, c | BoundaryOrder(nullsLast)(a, b) && BoundaryOrder(nullsLast)(b, c)
      ensures BoundaryOrder(nullsLast)(a, c)
    {
      BoundaryLeTransitive(a, b, c, nullsLast);
    }
  }

  ghost predicate DistinctIds(rows: seq<Boundary>) {
    forall i, j :: 0 <= i < j < |rows| ==> rows[i].id != rows[j].id
  }

  lemma BoundaryOrderSeparatesIds(rows: seq<Boundary>, nullsLast: bool)
    requires DistinctIds(rows)
    ensures AntisymmetricOn(BoundaryOrder(nullsLast), rows)
  {
    forall i, j | 0 <= i < |rows| && 0 <= j < |rows|
      && BoundaryLe(rows[i], rows[j], nullsLast) && BoundaryLe(rows[j], rows[i], nullsLast)
      ensures rows[i] == rows[j]
    {
      assert i < j ==> rows[i].id != rows[j].id;
      assert j < i ==> rows[j].id != rows[i].id;
      if rows[i].target != rows[j].target {
        TextLeAntisymmetric(rows[i].target, rows[j].target);
      }
    }
  }

  // `a` may be read before `b`: by target, then by time with the rows without one first or last, then by id.
  predicate MayPrecede(a: Boundary, b: Boundary, nullsLast: bool) {
    && (a.target != b.target ==> TextLe(a.target, b.target))
    && (a.target == b.target && a.time.Some? && b.time.None? ==> nullsLast)
    && (a.target == b.target && a.time.None? && b.time.Some? ==> !nullsLast)
    && (a.target == b.target && a.time.Some? && b.time.Some? ==>
        a.time.value < b.time.value || (a.time.value == b.time.value && a.id <= b.id))
    && (a.target == b.target && a.time.None? && b.time.None? ==> a.id <= b.id)
  }

  /** The rows are read target by target in ascending time, and none is lost or read twice. */
  lemma RowsAreReadInOrder(rows: seq<Boundary>, nullsLast: bool, i: int, j: int)
    requires 0 <= i < j < |SortBy(BoundaryOrder(nullsLast), rows)|
    ensures multiset(SortBy(BoundaryOrder(nullsLast), rows)) == multiset(rows)
    ensures MayPrecede(SortBy(BoundaryOrder(nullsLast), rows)[i], SortBy(BoundaryOrder(nullsLast), rows)[j], nullsLast)
  {
    BoundaryOrderIsTotalPreorder(nullsLast);
    SortByPermutes(BoundaryOrder(nullsLast), rows);
    SortBySorts(BoundaryOrder(nullsLast), rows);
    var ordered := SortBy(BoundaryOrder(nullsLast), rows);
    assert BoundaryOrder(nullsLast)(ordered[i], ordered[j]);
  }

  // ---------- The open starts are already in target order ----------

  predicate TargetLe(a: Boundary, b: Boundary) {
    TextLe(a.target, b.target)
  }

  ghost predicate TargetsAscend(rows: seq<Boundary>) {
    Sorted(TargetLe, rows)
  }

  lemma {:induction false} SortOfSorted<T>(le: (T, T) -> bool, xs: seq<T>)
    requires Sorted(le, xs)
    ensures SortBy(le, xs) == xs
  {
    if xs != [] {
      SortOfSorted(le, xs[..|xs| - 1]);
    }
  }

  lemma {:induction false} OpenStartsAscend(rows: seq<Boundary>)
    requires TargetsAscend(rows)
    ensures TargetsAscend(Run(rows).open)
    ensures forall b :: b in Run(rows).open ==> b in rows
  {
    if rows != [] {
      var front, row := rows[..|rows| - 1], rows[|rows| - 1];
      OpenStartsAscend(front);
      RunKeepsInvariant(front);
      RowsBelowLast(rows, front, row);
      OpenAscendsAfter(Run(front), row);
    }
  }

  lemma OpenAscendsAfter(s: State, row: Boundary)
    requires StateInvariant(s) && TargetsAscend(s.open) && forall b :: b in s.open ==> TargetLe(b, row)
    ensures TargetsAscend(Step(s, row).open) && forall b :: b in Step(s, row).open ==> b in s.open || b == row
  {
    WithoutKeepsOthers(s.open, row.target);
    WithoutAscends(s.open, row.target);
    var rest := Without(s.open, row.target);
    forall i | 0 <= i < |rest| ensures TargetLe(rest[i], row) {
      assert rest[i] in rest;
    }
  }

  lemma RowsBelowLast(rows: seq<Boundary>, front: seq<Boundary>, last: Boundary)
    requires TargetsAscend(rows) && rows == front + [last]
    ensures forall b :: b in front ==> TargetLe(b, last)
  {
    forall b | b in front ensures TargetLe(b, last) {
      var i :| 0 <= i < |front| && front[i] == b;
      assert rows[i] == b && rows[|front|] == last;
    }
  }

  lemma {:induction false} WithoutAscends(open: seq<Boundary>, target: string)
    requires TargetsAscend(open)
    ensures TargetsAscend(Without(open, target))
    ensures forall b :: b in Without(open, target) ==> b in open
  {
    if open != [] {
      var front, last := open[..|open| - 1], open[|open| - 1];
      WithoutAscends(front, target);
      forall b | b in front ensures TargetLe(b, last) {
        var i :| 0 <= i < |front| && front[i] == b;
        assert TargetLe(open[i], open[|open| - 1]);
      }
    }
  }

  lemma BoundaryOrderAscendsTargets(rows: seq<Boundary>, nullsLast: bool)
    requires Sorted(BoundaryOrder(nullsLast), rows)
    ensures TargetsAscend(rows)
  {
    forall i, j | 0 <= i < j < |rows| ensures TargetLe(rows[i], rows[j]) {
      assert BoundaryOrder(nullsLast)(rows[i], rows[j]);
      TextLeTotal(rows[i].target, rows[j].target);
    }
  }

  // ---------- The audit's derivation ----------

  // normal_start_end, consecutive_start, orphan_end and final_open_start of one server.
  datatype Counts = Counts(normal: nat, consecutive: nat, orphan: nat, finalOpen: nat)

  // The target resolver: a server slug from a row's target key and external server id.
  type Resolver = (string, string) -> Option<string>

  function SlugOf(resolve: Resolver, row: Boundary): Option<string> {
    resolve(row.target, row.server)
  }

  predicate IsSelected(resolve: Resolver, selected: set<string>, row: Boundary) {
    SlugOf(resolve, row).Some? && SlugOf(resolve, row).value in selected
  }

  function Chosen(rows: seq<Boundary>, resolve: Resolver, selected: set<string>): seq<Boundary> {
    if rows == [] then []
    else
      var front, last := Chosen(rows[..|rows| - 1], resolve, selected), rows[|rows| - 1];
      if IsSelected(resolve, selected, last) then front + [last] else front
  }

  /** The rows read are those that resolve to a selected server. */
  lemma {:induction false} ChosenAreTheSelected(rows: seq<Boundary>, resolve: Resolver, selected: set<string>,
                                                b: Boundary)
    ensures b in Chosen(rows, resolve, selected) <==>
      b in rows && exists slug :: slug in selected && resolve(b.target, b.server) == Some(slug)
  {
    if rows != [] {
      var front, last := rows[..|rows| - 1], rows[|rows| - 1];
      ChosenAreTheSelected(front, resolve, selected, b);
      assert rows == front + [last];
    }
  }

  // What each counter of server `slug` should say, counted from the rows and the final matches.
  function IsNormal(resolve: Resolver, slug: string): Derived -> bool {
    (m: Derived) => m.start.Some? && m.end.Some? && SlugOf(resolve, m.end.value) == Some(slug)
  }

  function IsOrphan(resolve: Resolver, slug: string): Derived -> bool {
    (m: Derived) => m.start.None? && m.end.Some? && SlugOf(resolve, m.end.value) == Some(slug)
  }

  function HasSlug(resolve: Resolver, slug: string): Boundary -> bool {
    (b: Boundary) => SlugOf(resolve, b) == Some(slug)
  }

  function IsStartOf(resolve: Resolver, slug: string): Boundary -> bool {
    (b: Boundary) => b.edge == Start && SlugOf(resolve, b) == Some(slug)
  }

  function IsEndOf(resolve: Resolver, slug: string): Boundary -> bool {
    (b: Boundary) => b.edge == End && SlugOf(resolve, b) == Some(slug)
  }

  // Starts of `slug` that find an earlier start of their target still open.
  function ConsecutiveStarts(rows: seq<Boundary>, resolve: Resolver, slug: string): nat {
    if rows == [] then 0
    else
      var front, row := rows[..|rows| - 1], rows[|rows| - 1];
      ConsecutiveStarts(front, resolve, slug) +
      if row.edge == Start && OpenFor(Run(front).open, row.target).Some? && SlugOf(resolve, row) == Some(slug)
      then 1
        else 0
  }

  function CountsFor(rows: seq<Boundary>, resolve: Resolver, slug: string): Counts {
    Counts(
      CountIf(Run(rows).matches, IsNormal(resolve, slug)),
      ConsecutiveStarts(rows, resolve, slug),
      CountIf(Run(rows).matches, IsOrphan(resolve, slug)),
      CountIf(Run(rows).open, HasSlug(resolve, slug)))
  }

  ghost predicate HoldsFor(selected: set<string>, summaries: map<string, Counts>, counts: string -> Counts) {
    summaries.Keys == selected && forall slug :: slug in selected ==> summaries[slug] == counts(slug)
  }

  lemma HoldsAfterUpdate(selected: set<string>, summaries: map<string, Counts>, before: string -> Counts,
                         after: string -> Counts, slug: string)
    requires HoldsFor(selected, summaries, before) && slug in selected
    requires forall other :: other in selected && other != slug ==> after(other) == before(other)
    ensures HoldsFor(selected, summaries[slug := after(slug)], after)
  {
  }

  function ClosedCounts(rows: seq<Boundary>, resolve: Resolver): string -> Counts {
    slug => CountsFor(rows, resolve, slug).(finalOpen := 0)
  }

  ghost predicate Summarizes(summaries: map<string, Counts>, rows: seq<Boundary>, resolve: Resolver,
                             selected: set<string>) {
    HoldsFor(selected, summaries, ClosedCounts(rows, resolve))
  }

  lemma CountsAfterRow(front: seq<Boundary>, row: Boundary, resolve: Resolver, slug: string)
    ensures var open := OpenFor(Run(front).open, row.target);
      var before, after, own :=
        CountsFor(front, resolve, slug), CountsFor(front + [row], resolve, slug), SlugOf(resolve, row) == Some(slug);
      && after.normal == before.normal + (if own && row.edge == End && open.Some? then 1 else 0)
      && after.orphan == before.orphan + (if own && row.edge == End && open.None? then 1 else 0)
      && after.consecutive == before.consecutive + (if own && row.edge == Start && open.Some? then 1 else 0)
  {
    var rows := front + [row];
    assert rows[..|rows| - 1] == front;
    var added := Closed(OpenFor(Run(front).open, row.target), row);
    assert Run(rows).matches == Run(front).matches + added;
    CountIfConcat(Run(front).matches, added, IsNormal(resolve, slug));
    CountIfConcat(Run(front).matches, added, IsOrphan(resolve, slug));
    assert added != [] ==> added[..0] == [] && added == [added[0]];
  }

  function Recount(c: Counts, edge: Edge, openBefore: bool): Counts {
    match (edge, openBefore)
    case (Start, true) => c.(consecutive := c.consecutive + 1)
    case (Start, false) => c
    case (End, true) => c.(normal := c.normal + 1)
    case (End, false) => c.(orphan := c.orphan + 1)
  }

  lemma SummaryAfterRow(front: seq<Boundary>, row: Boundary, resolve: Resolver, slug: string)
    ensures var before := CountsFor(front, resolve, slug).(finalOpen := 0);
      CountsFor(front + [row], resolve, slug).(finalOpen := 0)
      == if SlugOf(resolve, row) == Some(slug) then Recount(before, row.edge,
        OpenFor(Run(front).open, row.target).Some?) else before
  {
    CountsAfterRow(front, row, resolve, slug);
    var before, after := CountsFor(front, resolve, slug), CountsFor(front + [row], resolve, slug);
    RecountIsExact(before, after, SlugOf(resolve, row) == Some(slug), row.edge,
                   OpenFor(Run(front).open, row.target).Some?);
  }

  lemma RecountIsExact(before: Counts, after: Counts, own: bool, edge: Edge, openBefore: bool)
    requires after.normal == before.normal + (if own && edge == End && openBefore then 1 else 0)
    requires after.orphan == before.orphan + (if own && edge == End && !openBefore then 1 else 0)
    requires after.consecutive == before.consecutive + (if own && edge == Start && openBefore then 1 else 0)
    ensures after.(finalOpen := 0)
      == if own then Recount(before.(finalOpen := 0), edge, openBefore) else before.(finalOpen := 0)
  {
  }

  lemma SummarizesAfterRow(summaries: map<string, Counts>, front: seq<Boundary>, row: Boundary, resolve: Resolver,
                           selected: set<string>)
    requires Summarizes(summaries, front, resolve, selected) && IsSelected(resolve, selected, row)
    ensures var slug := SlugOf(resolve, row).value;
      Summarizes(summaries[slug := Recount(summaries[slug], row.edge, OpenFor(Run(front).open, row.target).Some?)],
                 front + [row], resolve, selected)
  {
    var slug, openBefore := SlugOf(resolve, row).value, OpenFor(Run(front).open, row.target).Some?;
    var before, after := ClosedCounts(front, resolve), ClosedCounts(front + [row], resolve);
    forall other
      ensures after(other) == if other == slug then Recount(before(other), row.edge, openBefore) else before(other) {
      SummaryAfterRow(front, row, resolve, other);
    }
    HoldsAfterUpdate(selected, summaries, before, after, slug);
  }

  /** The audit's loop; `rows` may arrive in any order. */
  method DeriveAdminMatches(rows: seq<Boundary>, resolve: Resolver, selected: set<string>, nullsLast: bool)
    returns (matches: seq<Derived>, summaries: map<string, Counts>)
    ensures var chosen := Chosen(SortBy(BoundaryOrder(nullsLast), rows), resolve, selected);
      && matches == Derive(chosen)
      && summaries == map slug | slug in selected :: CountsFor(chosen, resolve, slug)
  {
    var ordered := SortBy(BoundaryOrder(nullsLast), rows);
    ghost var chosen := Chosen(ordered, resolve, selected);
    matches := [];
    var open: seq<Boundary> := [];
    ghost var read: seq<Boundary> := [];
    summaries := map slug | slug in selected :: Counts(0, 0, 0, 0);
    for i := 0 to |ordered|
      invariant read == Chosen(ordered[..i], resolve, selected)
      invariant State(open, matches) == Run(read) && Summarizes(summaries, read, resolve, selected)
    {
      ChosenPush(ordered, i, resolve, selected);
      if IsSelected(resolve, selected, ordered[i]) {
        open, matches, summaries := ReadBoundary(read, ordered[i], open, matches, summaries, resolve, selected);
        read := read + [ordered[i]];
      }
    }
    assert ordered[..|ordered|] == ordered;
    OpenStartsAreOrdered(rows, resolve, selected, nullsLast);
    matches, summaries := CloseOpenStarts(chosen, open, matches, summaries, resolve, selected);
    SummaryIsExact(summaries, chosen, resolve, selected);
  }

  lemma ChosenPush(rows: seq<Boundary>, i: nat, resolve: Resolver, selected: set<string>)
    requires i < |rows|
    ensures Chosen(rows[..i + 1], resolve, selected)
         == Chosen(rows[..i], resolve, selected) + if IsSelected(resolve, selected, rows[i]) then [rows[i]] else []
  {
    assert rows[..i + 1][..i] == rows[..i];
  }

  lemma OpenStartsAreOrdered(rows: seq<Boundary>, resolve: Resolver, selected: set<string>, nullsLast: bool)
    ensures var open := Run(Chosen(SortBy(BoundaryOrder(nullsLast), rows), resolve, selected)).open;
      TargetsAscend(open) && forall b :: b in open ==> IsSelected(resolve, selected, b)
  {
    var ordered := SortBy(BoundaryOrder(nullsLast), rows);
    BoundaryOrderIsTotalPreorder(nullsLast);
    SortBySorts(BoundaryOrder(nullsLast), rows);
    BoundaryOrderAscendsTargets(ordered, nullsLast);
    ChosenKeepsOrder(ordered, resolve, selected);
    OpenStartsAscend(Chosen(ordered, resolve, selected));
  }

  method ReadBoundary(ghost front: seq<Boundary>, row: Boundary, open0: seq<Boundary>, matches0: seq<Derived>,
                      summaries0: map<string, Counts>, resolve: Resolver, selected: set<string>)
    returns (open: seq<Boundary>, matches: seq<Derived>, summaries: map<string, Counts>)
    requires State(open0, matches0) == Run(front) && Summarizes(summaries0, front, resolve, selected)
    requires IsSelected(resolve, selected, row)
    ensures State(open, matches) == Run(front + [row]) && Summarizes(summaries, front + [row], resolve, selected)
  {
    RunPush(front, row);
    SummarizesAfterRow(summaries0, front, row, resolve, selected);
    open, matches, summaries := ApplyBoundary(row, SlugOf(resolve, row).value, open0, matches0, summaries0);
  }

  method ApplyBoundary(row: Boundary, slug: string, open0: seq<Boundary>, matches0: seq<Derived>,
                       summaries0: map<string, Counts>)
    returns (open: seq<Boundary>, matches: seq<Derived>, summaries: map<string, Counts>)
    requires slug in summaries0
    ensures State(open, matches) == Step(State(open0, matches0), row)
    ensures summaries == summaries0[slug := Recount(summaries0[slug], row.edge, OpenFor(open0, row.target).Some?)]
  {
    StepByCase(State(open0, matches0), row);
    open, matches, summaries := open0, matches0, summaries0;
    var previous := OpenFor(open, row.target);
    if row.edge == Start {
      if previous.Some? {
        summaries := summaries[slug := summaries[slug].(consecutive := summaries[slug].consecutive + 1)];
        open := Without(open, row.target);
        matches := matches + [Derived(previous, None)];
      } else {
        assert summaries[slug := summaries[slug]] == summaries;
      }
      open := open + [row];
      return;
    }
    open := Without(open, row.target);
    if previous.None? {
      summaries := summaries[slug := summaries[slug].(orphan := summaries[slug].orphan + 1)];
    } else {
      summaries := summaries[slug := summaries[slug].(normal := summaries[slug].normal + 1)];
    }
    matches := matches + [Derived(previous, Some(row))];
  }

  lemma {:induction false} ChosenKeepsOrder(rows: seq<Boundary>, resolve: Resolver, selected: set<string>)
    ensures TargetsAscend(rows) ==> TargetsAscend(Chosen(rows, resolve, selected))
    ensures forall b :: b in Chosen(rows, resolve, selected) ==> b in rows && IsSelected(resolve, selected, b)
  {
    if rows != [] {
      var front, last := rows[..|rows| - 1], rows[|rows| - 1];
      ChosenKeepsOrder(front, resolve, selected);
      if TargetsAscend(rows) {
        forall b | b in front ensures TargetLe(b, last) {
          var i :| 0 <= i < |front| && front[i] == b;
          assert TargetLe(rows[i], rows[|rows| - 1]);
        }
      }
    }
  }

  /** The last step closes the open starts sorted by target. */
  method CloseOpenStarts(ghost rows: seq<Boundary>, open: seq<Boundary>, matches0: seq<Derived>,
                         summaries0: map<string, Counts>,
                         resolve: Resolver, selected: set<string>)
    returns (matches: seq<Derived>, summaries: map<string, Counts>)
    requires TargetsAscend(open) && forall b :: b in open ==> IsSelected(resolve, selected, b)
    requires SummarizesWithOpen(summaries0, rows, [], resolve, selected)
    ensures matches == matches0 + LoneStarts(open)
    ensures SummarizesWithOpen(summaries, rows, open, resolve, selected)
  {
    SortOfSorted(TargetLe, open);
    matches, summaries := CloseInOrder(rows, SortBy(TargetLe, open), matches0, summaries0, resolve, selected);
  }

  method CloseInOrder(ghost rows: seq<Boundary>, sorted: seq<Boundary>, matches0: seq<Derived>,
                      summaries0: map<string, Counts>,
                      resolve: Resolver, selected: set<string>)
    returns (matches: seq<Derived>, summaries: map<string, Counts>)
    requires forall b :: b in sorted ==> IsSelected(resolve, selected, b)
    requires SummarizesWithOpen(summaries0, rows, [], resolve, selected)
    ensures matches == matches0 + LoneStarts(sorted)
    ensures SummarizesWithOpen(summaries, rows, sorted, resolve, selected)
  {
    matches, summaries := matches0, summaries0;
    for i := 0 to |sorted|
      invariant matches == matches0 + LoneStarts(sorted[..i])
      invariant SummarizesWithOpen(summaries, rows, sorted[..i], resolve, selected)
    {
      LoneStartsAppend(sorted[..i], sorted[i]);
      assert sorted[..i + 1] == sorted[..i] + [sorted[i]];
      matches := matches + [Derived(Some(sorted[i]), None)];
      summaries := CountOpenStart(rows, sorted[..i], sorted[i], summaries, resolve, selected);
    }
    assert sorted[..|sorted|] == sorted;
  }

  method CountOpenStart(ghost rows: seq<Boundary>, ghost closed: seq<Boundary>, start: Boundary,
                        summaries0: map<string, Counts>,
                        resolve: Resolver, selected: set<string>)
    returns (summaries: map<string, Counts>)
    requires SummarizesWithOpen(summaries0, rows, closed, resolve, selected) && IsSelected(resolve, selected, start)
    ensures SummarizesWithOpen(summaries, rows, closed + [start], resolve, selected)
  {
    SummarizesAfterClose(summaries0, rows, closed, start, resolve, selected);
    var slug := SlugOf(resolve, start).value;
    summaries := summaries0[slug := summaries0[slug].(finalOpen := summaries0[slug].finalOpen + 1)];
  }

  lemma LoneStartsAppend(open: seq<Boundary>, b: Boundary)
    ensures LoneStarts(open + [b]) == LoneStarts(open) + [Derived(Some(b), None)]
  {
  }

  lemma SummaryIsExact(summaries: map<string, Counts>, rows: seq<Boundary>, resolve: Resolver, selected: set<string>)
    requires SummarizesWithOpen(summaries, rows, Run(rows).open, resolve, selected)
    ensures summaries == map slug | slug in selected :: CountsFor(rows, resolve, slug)
  {
  }

  ghost predicate SummarizesWithOpen(summaries: map<string, Counts>, rows: seq<Boundary>, closed: seq<Boundary>,
      resolve: Resolver, selected: set<string>) {
    HoldsFor(selected, summaries, CountsWith(rows, closed, resolve))
  }

  function CountsWith(rows: seq<Boundary>, closed: seq<Boundary>, resolve: Resolver): string -> Counts {
    slug => CountsFor(rows, resolve, slug).(finalOpen := CountIf(closed, HasSlug(resolve, slug)))
  }

  lemma SummarizesAfterClose(summaries: map<string, Counts>, rows: seq<Boundary>, closed: seq<Boundary>, b: Boundary,
                             resolve: Resolver, selected: set<string>)
    requires SummarizesWithOpen(summaries, rows, closed, resolve, selected) && IsSelected(resolve, selected, b)
    ensures var slug := SlugOf(resolve, b).value;
      SummarizesWithOpen(summaries[slug := summaries[slug].(finalOpen := summaries[slug].finalOpen + 1)], rows,
                         closed + [b], resolve, selected)
  {
    var slug := SlugOf(resolve, b).value;
    var before, after := CountsWith(rows, closed, resolve), CountsWith(rows, closed + [b], resolve);
    forall other
      ensures after(other) == before(other).(finalOpen := before(other).finalOpen + if other == slug then 1 else 0) {
      CountIfPush(closed, b, HasSlug(resolve, other));
    }
    HoldsAfterUpdate(selected, summaries, before, after, slug);
  }

  // ---------- Agreement with the materializer ----------

  lemma {:induction false} ChosenIsEverything(rows: seq<Boundary>, resolve: Resolver, selected: set<string>)
    requires forall b :: b in rows ==> IsSelected(resolve, selected, b)
    ensures Chosen(rows, resolve, selected) == rows
  {
    if rows != [] {
      var front, last := rows[..|rows| - 1], rows[|rows| - 1];
      ChosenIsEverything(front, resolve, selected);
      assert last in rows && Chosen(rows, resolve, selected) == front + [last];
      assert front + [last] == rows;
    }
  }

  /**
   The audit and the materializer derive the same matches in the same order: `stored` is the
   table in the order the materializer reads it, `rows` the same rows as the audit received them.
   */
  lemma AuditAgreesWithMaterializer(stored: seq<Boundary>, rows: seq<Boundary>, resolve: Resolver,
                                    selected: set<string>, nullsLast: bool)
    requires multiset(rows) == multiset(stored) && DistinctIds(stored)
    requires Sorted(BoundaryOrder(nullsLast), stored)
    requires forall b :: b in stored ==> IsSelected(resolve, selected, b)
    ensures Derive(Chosen(SortBy(BoundaryOrder(nullsLast), rows), resolve, selected)) == Derive(stored)
  {
    BoundaryOrderIsTotalPreorder(nullsLast);
    BoundaryOrderSeparatesIds(stored, nullsLast);
    SortIsTheSorted(BoundaryOrder(nullsLast), rows, stored);
    ChosenIsEverything(stored, resolve, selected);
  }

  // ---------- The counters balance ----------

  /** Ends of a server always balance: every end closed a start or was an orphan. */
  lemma {:induction false} EndsBalance(rows: seq<Boundary>, resolve: Resolver, slug: string)
    ensures var c := CountsFor(rows, resolve, slug);
      CountIf(rows, IsEndOf(resolve, slug)) == c.normal + c.orphan
    decreases |rows|
  {
    if rows != [] {
      var front, row := SplitLast(rows);
      EndsBalance(front, resolve, slug);
      EndsBalanceAfterRow(front, row, resolve, slug);
    }
  }

  lemma EndsBalanceAfterRow(front: seq<Boundary>, row: Boundary, resolve: Resolver, slug: string)
    requires var c := CountsFor(front, resolve, slug); CountIf(front, IsEndOf(resolve, slug)) == c.normal + c.orphan
    ensures var c := CountsFor(front + [row], resolve, slug);
      CountIf(front + [row], IsEndOf(resolve, slug)) == c.normal + c.orphan
  {
    CountsAfterRow(front, row, resolve, slug);
    CountIfPush(front, row, IsEndOf(resolve, slug));
  }

  lemma CountOpenAfterRow(front: seq<Boundary>, row: Boundary, resolve: Resolver, slug: string)
    requires StateInvariant(Run(front))
    ensures var p := HasSlug(resolve, slug);
      CountIf(Run(front + [row]).open, p) + CountIf(AsRows(OpenFor(Run(front).open, row.target)), p)
      == CountIf(Run(front).open, p) + if row.edge == Start && p(row) then 1 else 0
  {
    var rows, p, open := front + [row], HasSlug(resolve, slug), Run(front).open;
    assert rows[..|rows| - 1] == front;
    CountWithout(open, row.target, p);
    CountIfConcat(Without(open, row.target), [row], p);
    assert [row][..0] == [];
  }

  lemma {:induction false} CountWithout(open: seq<Boundary>, target: string, p: Boundary -> bool)
    requires forall i, j :: 0 <= i < j < |open| ==> open[i].target != open[j].target
    ensures CountIf(Without(open, target), p) + CountIf(AsRows(OpenFor(open, target)), p) == CountIf(open, p)
  {
    if open != [] {
      var front, last := open[..|open| - 1], open[|open| - 1];
      CountIfOne(last, p);
      if last.target == target {
        OnlyTheLast(open);
        KeepsAllOthers(front, target);
        assert Without(open, target) == front;
      } else {
        CountWithout(front, target, p);
        CountIfConcat(Without(front, target), [last], p);
        assert Without(open, target) == Without(front, target) + [last];
      }
    }
  }

  // The row of `target` that the rows end with.
  function LastOf(rows: seq<Boundary>, target: string): Option<Boundary> {
    if rows == [] then None
    else if rows[|rows| - 1].target == target then Some(rows[|rows| - 1])
    else LastOf(rows[..|rows| - 1], target)
  }

  // The start that the next row of `target` would directly follow.
  function StartBefore(rows: seq<Boundary>, target: string): Option<Boundary> {
    var last := LastOf(rows, target);
    if last.Some? && last.value.edge == Start then last else None
  }

  /** A start is open exactly while it is the latest row of its target. */
  lemma {:induction false} OpenIsStartBefore(rows: seq<Boundary>, target: string)
    ensures OpenFor(Run(rows).open, target) == StartBefore(rows, target)
  {
    if rows != [] {
      var front, row := rows[..|rows| - 1], rows[|rows| - 1];
      OpenIsStartBefore(front, target);
      OpenViewedByTarget(Run(front), row, target);
    }
  }

  function Takes(start: Option<Boundary>, row: Boundary, resolve: Resolver, slug: string): nat {
    if start.Some? && SlugOf(resolve, start.value) != Some(slug) && SlugOf(resolve, row) == Some(slug) then 1 else 0
  }

  function Gives(start: Option<Boundary>, row: Boundary, resolve: Resolver, slug: string): nat {
    if start.Some? && SlugOf(resolve, start.value) == Some(slug) && SlugOf(resolve, row) != Some(slug) then 1 else 0
  }

  // Rows of `slug` that directly follow a start of another server.
  function TakenOver(rows: seq<Boundary>, resolve: Resolver, slug: string): nat {
    if rows == [] then 0
    else
      var front, row := rows[..|rows| - 1], rows[|rows| - 1];
      TakenOver(front, resolve, slug) + Takes(StartBefore(front, row.target), row, resolve, slug)
  }

  // Rows of another server that directly follow a start of `slug`.
  function GivenAway(rows: seq<Boundary>, resolve: Resolver, slug: string): nat {
    if rows == [] then 0
    else
      var front, row := rows[..|rows| - 1], rows[|rows| - 1];
      GivenAway(front, resolve, slug) + Gives(StartBefore(front, row.target), row, resolve, slug)
  }

  function StartsAccounted(c: Counts): nat {
    c.normal + c.consecutive + c.finalOpen
  }

  lemma StartsAccountedAfterRow(front: seq<Boundary>, row: Boundary, resolve: Resolver, slug: string)
    ensures var rows, p := front + [row], HasSlug(resolve, slug);
      StartsAccounted(CountsFor(rows, resolve, slug))
        + (GivenAway(rows, resolve, slug) - GivenAway(front, resolve, slug))
      == StartsAccounted(CountsFor(front, resolve, slug))
        + (TakenOver(rows, resolve, slug) - TakenOver(front, resolve, slug))
         + if IsStartOf(resolve, slug)(row) then 1 else 0
  {
    RunKeepsInvariant(front);
    CountsAfterRow(front, row, resolve, slug);
    CountOpenAfterRow(front, row, resolve, slug);
    OpenIsStartBefore(front, row.target);
    HandsAfterRow(front, row, resolve, slug);
    var open := OpenFor(Run(front).open, row.target);
    if open.Some? {
      CountIfOne(open.value, HasSlug(resolve, slug));
    }
  }

  lemma HandsAfterRow(front: seq<Boundary>, row: Boundary, resolve: Resolver, slug: string)
    ensures var start := StartBefore(front, row.target);
      && TakenOver(front + [row], resolve, slug) == TakenOver(front, resolve, slug) + Takes(start, row, resolve, slug)
      && GivenAway(front + [row], resolve, slug) == GivenAway(front, resolve, slug) + Gives(start, row, resolve, slug)
  {
    assert (front + [row])[..|front|] == front;
  }

  // How far the start counters are from the rows.
  ghost predicate StartsDifferBy(rows: seq<Boundary>, resolve: Resolver, slug: string) {
    CountIf(rows, IsStartOf(resolve, slug)) + TakenOver(rows, resolve, slug)
    == StartsAccounted(CountsFor(rows, resolve, slug)) + GivenAway(rows, resolve, slug)
  }

  lemma {:induction false} StartsDiffer(rows: seq<Boundary>, resolve: Resolver, slug: string)
    ensures StartsDifferBy(rows, resolve, slug)
    decreases |rows|
  {
    if rows != [] {
      var front, row := SplitLast(rows);
      StartsDiffer(front, resolve, slug);
      StartsDifferAfterRow(front, row, resolve, slug);
    }
  }

  lemma StartsDifferAfterRow(front: seq<Boundary>, row: Boundary, resolve: Resolver, slug: string)
    requires StartsDifferBy(front, resolve, slug)
    ensures StartsDifferBy(front + [row], resolve, slug)
  {
    StartsAccountedAfterRow(front, row, resolve, slug);
    CountIfPush(front, row, IsStartOf(resolve, slug));
  }

  /** The start counters of a server agree with its rows exactly when it takes over as many starts as it gives away. */
  lemma StartsBalanceIff(rows: seq<Boundary>, resolve: Resolver, slug: string)
    ensures CountIf(rows, IsStartOf(resolve, slug)) == StartsAccounted(CountsFor(rows, resolve, slug))
       <==> TakenOver(rows, resolve, slug) == GivenAway(rows, resolve, slug)
  {
    StartsDiffer(rows, resolve, slug);
  }

  // ---------- All servers together ----------

  function SumOver(slugs: seq<string>, f: string -> int): int {
    if slugs == [] then 0 else SumOver(slugs[..|slugs| - 1], f) + f(slugs[|slugs| - 1])
  }

  lemma {:induction false} SumOfSum(slugs: seq<string>, f: string -> int, g: string -> int, h: string -> int)
    requires forall s :: s in slugs ==> h(s) == f(s) + g(s)
    ensures SumOver(slugs, h) == SumOver(slugs, f) + SumOver(slugs, g)
  {
    if slugs != [] {
      SumOfSum(slugs[..|slugs| - 1], f, g, h);
    }
  }

  lemma {:induction false} SumOfNothing(slugs: seq<string>, f: string -> int)
    requires forall s :: s in slugs ==> f(s) == 0
    ensures SumOver(slugs, f) == 0
  {
    if slugs != [] {
      SumOfNothing(slugs[..|slugs| - 1], f);
    }
  }

  ghost predicate Distinct(slugs: seq<string>) {
    forall i, j :: 0 <= i < j < |slugs| ==> slugs[i] != slugs[j]
  }

  lemma {:induction false} SumOfOne(slugs: seq<string>, f: string -> int, x: string)
    requires Distinct(slugs) && x in slugs && f(x) == 1 && forall s :: s in slugs && s != x ==> f(s) == 0
    ensures SumOver(slugs, f) == 1
  {
    var front, last := slugs[..|slugs| - 1], slugs[|slugs| - 1];
    if last == x {
      forall s | s in front ensures f(s) == 0 {
        var i :| 0 <= i < |front| && front[i] == s;
      }
      SumOfNothing(front, f);
    } else {
      assert slugs == front + [last];
      SumOfOne(front, f, x);
    }
  }

  function StartsOf(rows: seq<Boundary>, resolve: Resolver): string -> int {
    slug => CountIf(rows, IsStartOf(resolve, slug))
  }

  function AccountedOf(rows: seq<Boundary>, resolve: Resolver): string -> int {
    slug => StartsAccounted(CountsFor(rows, resolve, slug))
  }

  // How many more starts a server takes over than it gives away.
  function SurplusOf(rows: seq<Boundary>, resolve: Resolver): string -> int {
    slug => TakenOver(rows, resolve, slug) - GivenAway(rows, resolve, slug)
  }

  ghost predicate AllOf(rows: seq<Boundary>, resolve: Resolver, slugs: seq<string>) {
    forall b :: b in rows ==> SlugOf(resolve, b).Some? && SlugOf(resolve, b).value in slugs
  }

  // What one more row adds to the starts a server has taken over, and to those it has given away.
  function TakesNow(front: seq<Boundary>, row: Boundary, resolve: Resolver): string -> int {
    slug => TakenOver(front + [row], resolve, slug) - TakenOver(front, resolve, slug)
  }

  function GivesNow(front: seq<Boundary>, row: Boundary, resolve: Resolver): string -> int {
    slug => GivenAway(front + [row], resolve, slug) - GivenAway(front, resolve, slug)
  }

  lemma {:induction false} LastOfIsRow(rows: seq<Boundary>, target: string)
    ensures LastOf(rows, target).Some? ==>
      LastOf(rows, target).value in rows && LastOf(rows, target).value.target == target
  {
    if rows != [] {
      LastOfIsRow(rows[..|rows| - 1], target);
    }
  }

  // A start that changes hands is taken by one server and given by one.
  lemma StartChangesHands(front: seq<Boundary>, row: Boundary, resolve: Resolver, slugs: seq<string>)
    requires Distinct(slugs) && AllOf(front + [row], resolve, slugs)
    ensures SumOver(slugs, TakesNow(front, row, resolve)) == SumOver(slugs, GivesNow(front, row, resolve))
  {
    var takes, gives, start :=
      TakesNow(front, row, resolve), GivesNow(front, row, resolve), StartBefore(front, row.target);
    forall slug
      ensures takes(slug) == Takes(start, row, resolve, slug) && gives(slug) == Gives(start, row, resolve, slug) {
      HandsAfterRow(front, row, resolve, slug);
    }
    LastOfIsRow(front, row.target);
    if start.Some? && SlugOf(resolve, start.value) != SlugOf(resolve, row) {
      assert row in front + [row] && start.value in front + [row];
      SumOfOne(slugs, takes, SlugOf(resolve, row).value);
      SumOfOne(slugs, gives, SlugOf(resolve, start.value).value);
    } else {
      SumOfNothing(slugs, takes);
      SumOfNothing(slugs, gives);
    }
  }

  lemma {:induction false} SurplusesCancel(rows: seq<Boundary>, resolve: Resolver, slugs: seq<string>)
    requires Distinct(slugs) && AllOf(rows, resolve, slugs)
    ensures SumOver(slugs, SurplusOf(rows, resolve)) == 0
    decreases |rows|
  {
    if rows == [] {
      SumOfNothing(slugs, SurplusOf(rows, resolve));
    } else {
      var front, row := SplitLast(rows);
      SurplusesCancel(front, resolve, slugs);
      StartChangesHands(front, row, resolve, slugs);
      var both := slug => SurplusOf(front, resolve)(slug) + TakesNow(front, row, resolve)(slug);
      SumOfSum(slugs, SurplusOf(front, resolve), TakesNow(front, row, resolve), both);
      SumOfSum(slugs, SurplusOf(rows, resolve), GivesNow(front, row, resolve), both);
    }
  }

  lemma TotalsAgree(rows: seq<Boundary>, resolve: Resolver, slugs: seq<string>)
    requires Distinct(slugs) && AllOf(rows, resolve, slugs)
    ensures SumOver(slugs, StartsOf(rows, resolve)) == SumOver(slugs, AccountedOf(rows, resolve))
  {
    SurplusesCancel(rows, resolve, slugs);
    forall slug | slug in slugs
      ensures AccountedOf(rows, resolve)(slug) == StartsOf(rows, resolve)(slug) + SurplusOf(rows, resolve)(slug)
    {
      StartsDiffer(rows, resolve, slug);
    }
    SumOfSum(slugs, StartsOf(rows, resolve), SurplusOf(rows, resolve), AccountedOf(rows, resolve));
  }

  /** Over all selected servers together the start counters always add up to the starts. */
  lemma TotalsBalance(rows: seq<Boundary>, resolve: Resolver, selected: set<string>, slugs: seq<string>)
    requires Distinct(slugs) && forall slug :: slug in slugs <==> slug in selected
    ensures SumOver(slugs, StartsOf(Chosen(rows, resolve, selected), resolve))
      == SumOver(slugs, AccountedOf(Chosen(rows, resolve, selected), resolve))
  {
    ChosenKeepsOrder(rows, resolve, selected);
    TotalsAgree(Chosen(rows, resolve, selected), resolve, slugs);
  }

  // ---------- The resolver ----------

  // TargetResolver; `strip` removes surrounding white space.
  datatype TargetResolver =
    TargetResolver(trusted: set<string>, keyToSlug: map<string, string>, strip: string -> string)

  /** A trusted external id decides; only without one the target key does. */
  function Resolve(t: TargetResolver, target: string, server: string): Option<string> {
    var external, key := t.strip(server), t.strip(target);
    if external in t.trusted then Some(external)
    else if key in t.trusted then Some(key)
    else if key in t.keyToSlug then Some(t.keyToSlug[key])
    else None
  }

  function ResolverOf(t: TargetResolver): Resolver {
    (target, server) => Resolve(t, target, server)
  }

  // The rows of a target carry one external id at most that is trusted, or none.
  ghost predicate OneServerPerTarget(rows: seq<Boundary>, t: TargetResolver) {
    forall a, b :: a in rows && b in rows && a.target == b.target && t.strip(a.server) != t.strip(b.server) ==>
      t.strip(a.server) !in t.trusted && t.strip(b.server) !in t.trusted
  }

  lemma {:induction false} NothingChangesHands(rows: seq<Boundary>, t: TargetResolver, slug: string)
    requires OneServerPerTarget(rows, t)
    ensures TakenOver(rows, ResolverOf(t), slug) == 0 && GivenAway(rows, ResolverOf(t), slug) == 0
  {
    if rows != [] {
      var front, row := rows[..|rows| - 1], rows[|rows| - 1];
      NothingChangesHands(front, t, slug);
      LastOfIsRow(front, row.target);
      assert row in rows && forall b :: b in front ==> b in rows;
      var start := StartBefore(front, row.target);
      if start.Some? {
        assert start.value in rows && start.value.target == row.target;
        assert SlugOf(ResolverOf(t), start.value) == SlugOf(ResolverOf(t), row);
      }
    }
  }

  /** The counters of every server agree with its rows when each target has one trusted external id, or none. */
  lemma StartsBalance(rows: seq<Boundary>, t: TargetResolver, slug: string)
    requires OneServerPerTarget(rows, t)
    ensures CountIf(rows, IsStartOf(ResolverOf(t), slug)) == StartsAccounted(CountsFor(rows, ResolverOf(t), slug))
  {
    NothingChangesHands(rows, t, slug);
    StartsBalanceIff(rows, ResolverOf(t), slug);
  }

  /** A target whose start carries no external id, and whose end carries the one of the other server. */
  lemma StartsMayNotBalance(t: TargetResolver, target: string, slug: string, other: string)
    requires t.strip(target) !in t.trusted && t.strip(target) in t.keyToSlug && t.keyToSlug[t.strip(target)] == slug
    requires t.strip("") == "" && "" !in t.trusted && t.strip(other) == other && other in t.trusted && slug != other
    ensures var rows := [Boundary(1, target, "", Some(10), Start), Boundary(2, target, other, Some(20), End)];
      && CountIf(rows, IsStartOf(ResolverOf(t), slug)) == 1
        && StartsAccounted(CountsFor(rows, ResolverOf(t), slug)) == 0
      && CountIf(rows, IsStartOf(ResolverOf(t), other)) == 0
        && StartsAccounted(CountsFor(rows, ResolverOf(t), other)) == 1
  {
    var first, second := Boundary(1, target, "", Some(10), Start), Boundary(2, target, other, Some(20), End);
    StartThenEnd(first, second, ResolverOf(t), slug);
    StartThenEnd(first, second, ResolverOf(t), other);
  }

  lemma StartThenEnd(first: Boundary, second: Boundary, resolve: Resolver, slug: string)
    requires first.edge == Start && second.edge == End && first.target == second.target
    ensures var rows, own, next := [first, second], HasSlug(resolve, slug)(first), HasSlug(resolve, slug)(second);
      && CountIf(rows, IsStartOf(resolve, slug)) == (if own then 1 else 0)
      && StartsAccounted(CountsFor(rows, resolve, slug)) == if next then 1 else 0
  {
    var rows := [first] + [second];
    assert [first][..0] == [] && rows == [first, second] && rows[..1] == [first];
    CountIfOne(first, IsStartOf(resolve, slug));
    StartsDiffer(rows, resolve, slug);
    assert StartBefore([first], second.target) == Some(first) && StartBefore([], first.target) == None;
    assert TakenOver([first], resolve, slug) == 0 && GivenAway([first], resolve, slug) == 0;
  }
}
