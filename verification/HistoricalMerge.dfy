/**
 Folding duplicate historical matches together (_normalize_historical_match_identities,
 _merge_historical_match_rows, _merge_player_match_stats_row): the tables are updated in place,
 and whatever the merge order every surviving match holds the pointwise maximum of its group.
 */
module HistoricalMerge {
  import opened Options
  import opened TextOrder
  import opened Picking
  import opened Sorting

  // A nullable column value; an integer column is known by its decimal text.
  datatype Cell = Null | Text(text: string)

  // The columns a merge fills with COALESCE, in the order of the UPDATE statement.
  const COLUMNS := 11
  const CREATED_AT := 1
  const STARTED_AT := 2
  const ENDED_AT := 3
  const MAP_NAME := 4
  const MAP_PRETTY_NAME := 5

  datatype MatchRow = MatchRow(server: int, externalId: string, columns: seq<Cell>, lastSeen: string)

  // The numeric columns of a player statistic; an absent value is the least one.
  const NUMBERS := 12

  datatype StatRow = StatRow(playerRef: Cell, team: Cell, numbers: seq<Option<real>>)

  type Matches = map<int, MatchRow>
  // Keyed by match id and player id, the unique constraint of the table.
  type Stats = map<(int, int), StatRow>

  ghost predicate WellFormed(matches: Matches, stats: Stats) {
    && (forall id :: id in matches ==> |matches[id].columns| == COLUMNS)
    && (forall k :: k in stats ==> |stats[k].numbers| == NUMBERS)
  }

  // ---------- One merge ----------

  function Coalesce(current: Cell, incoming: Cell): Cell {
    if current == Null then incoming else current
  }

  // _max_int_value and _max_float_value.
  function MaxValue(current: Option<real>, incoming: Option<real>): Option<real> {
    if current.None? then incoming
    else if incoming.None? then current
    else if current.value <= incoming.value then incoming
    else current
  }

  function LaterText(a: string, b: string): string {
    if TextLe(a, b) then b else a
  }

  function MergedRow(target: MatchRow, source: MatchRow): MatchRow
    requires |target.columns| == COLUMNS && |source.columns| == COLUMNS
  {
    target.(columns := seq(COLUMNS, c requires 0 <= c < COLUMNS => Coalesce(target.columns[c], source.columns[c])),
            lastSeen := LaterText(target.lastSeen, source.lastSeen))
  }

  function MergedStat(target: StatRow, source: StatRow): StatRow
    requires |target.numbers| == NUMBERS && |source.numbers| == NUMBERS
  {
    StatRow(Coalesce(target.playerRef, source.playerRef), Coalesce(target.team, source.team),
            seq(NUMBERS, c requires 0 <= c < NUMBERS => MaxValue(target.numbers[c], source.numbers[c])))
  }

  // ---------- What a surviving row holds ----------

  predicate ValueLe(a: Option<real>, b: Option<real>) {
    a.None? || (b.Some? && a.value <= b.value)
  }

  // `v` is the largest value of column `c` over the player's rows in `group`.
  ghost predicate IsLargest(stats: Stats, group: set<int>, player: int, c: int, v: Option<real>)
    requires 0 <= c < NUMBERS && forall k :: k in stats ==> |stats[k].numbers| == NUMBERS
  {
    && (forall m :: m in group && (m, player) in stats ==> ValueLe(stats[(m, player)].numbers[c], v))
    && (exists m :: m in group && (m, player) in stats && stats[(m, player)].numbers[c] == v)
  }

  ghost predicate Appears(stats: Stats, group: set<int>, player: int) {
    exists m :: m in group && (m, player) in stats
  }

  // `cell` is a value some match of the group had in column `c`, and is null only if all were.
  ghost predicate IsFilled(matches: Matches, group: set<int>, c: int, cell: Cell)
    requires 0 <= c < COLUMNS && forall id :: id in matches ==> |matches[id].columns| == COLUMNS
  {
    && (exists m :: m in group && m in matches && matches[m].columns[c] == cell)
    && (cell == Null ==> forall m :: m in group && m in matches ==> matches[m].columns[c] == Null)
  }

  /**
   The current tables against the original ones, when each present match has absorbed the given
   group of original matches.
   */
  ghost predicate Tracks(matches0: Matches, stats0: Stats, matches: Matches, stats: Stats,
                         absorbed: map<int, set<int>>) {
    && WellFormed(matches0, stats0) && WellFormed(matches, stats)
    && absorbed.Keys == matches.Keys && matches.Keys <= matches0.Keys
    && TracksRows(matches0, matches, absorbed)
    && TracksStats(matches0, stats0, matches, stats, absorbed)
    && TracksNumbers(stats0, stats, matches.Keys, absorbed)
    && TracksSeen(matches0, matches, absorbed) && TracksTexts(stats0, stats, matches.Keys, absorbed)
    && LeavesLoneMatches(matches0, stats0, matches, stats, absorbed)
  }

  ghost predicate TracksRows(matches0: Matches, matches: Matches, absorbed: map<int, set<int>>)
    requires forall id :: id in matches0 ==> |matches0[id].columns| == COLUMNS
    requires forall id :: id in matches ==> |matches[id].columns| == COLUMNS
    requires absorbed.Keys == matches.Keys && matches.Keys <= matches0.Keys
  {
    forall id :: id in matches ==>
      && id in absorbed[id] && absorbed[id] <= matches0.Keys
      && matches[id].server == matches0[id].server && matches[id].externalId == matches0[id].externalId
      && forall c :: 0 <= c < COLUMNS ==> IsFilled(matches0, absorbed[id], c, matches[id].columns[c])
  }

  ghost predicate TracksStats(matches0: Matches, stats0: Stats, matches: Matches, stats: Stats,
                              absorbed: map<int, set<int>>)
    requires absorbed.Keys == matches.Keys
  {
    && (forall k :: k in stats ==> k.0 in matches || k.0 !in matches0)
    && (forall id, p :: id in matches ==> ((id, p) in stats <==> Appears(stats0, absorbed[id], p)))
  }

  ghost predicate TracksNumbers(stats0: Stats, stats: Stats, ids: set<int>, absorbed: map<int, set<int>>)
    requires ids == absorbed.Keys
    requires forall k :: k in stats0 ==> |stats0[k].numbers| == NUMBERS
    requires forall k :: k in stats ==> |stats[k].numbers| == NUMBERS
  {
    forall id, p, c :: id in ids && (id, p) in stats && 0 <= c < NUMBERS ==>
      IsLargest(stats0, absorbed[id], p, c, stats[(id, p)].numbers[c])
  }

  // `text` is the latest instant at which a match of the group was seen.
  ghost predicate IsLatestSeen(matches: Matches, group: set<int>, text: string) {
    && (exists m :: m in group && m in matches && matches[m].lastSeen == text)
    && (forall m :: m in group && m in matches ==> TextLe(matches[m].lastSeen, text))
  }

  ghost predicate TracksSeen(matches0: Matches, matches: Matches, absorbed: map<int, set<int>>)
    requires absorbed.Keys == matches.Keys
  {
    forall id :: id in matches ==> IsLatestSeen(matches0, absorbed[id], matches[id].lastSeen)
  }

  // The two text columns of a statistic.
  function TextCell(row: StatRow, team: bool): Cell {
    if team then row.team else row.playerRef
  }

  // `cell` is what some row of the player in the group had, and is null only if all were.
  ghost predicate IsStatFilled(stats: Stats, group: set<int>, player: int, team: bool, cell: Cell) {
    && (exists m :: m in group && (m, player) in stats && TextCell(stats[(m, player)], team) == cell)
    && (cell == Null ==> forall m :: m in group && (m, player) in stats ==> TextCell(stats[(m, player)], team) == Null)
  }

  ghost predicate TracksTexts(stats0: Stats, stats: Stats, ids: set<int>, absorbed: map<int, set<int>>)
    requires ids == absorbed.Keys
  {
    forall id, p, team :: id in ids && (id, p) in stats ==>
      IsStatFilled(stats0, absorbed[id], p, team, TextCell(stats[(id, p)], team))
  }

  ghost predicate LeavesLoneMatches(matches0: Matches, stats0: Stats, matches: Matches, stats: Stats,
                                    absorbed: map<int, set<int>>)
    requires absorbed.Keys == matches.Keys && matches.Keys <= matches0.Keys
  {
    && (forall id :: id in matches && absorbed[id] == {id} ==>
        && matches[id] == matches0[id]
        && forall p :: (id, p) in stats ==> (id, p) in stats0 && stats[(id, p)] == stats0[(id, p)])
    && (forall id, p :: id !in matches0 ==> ((id, p) in stats <==> (id, p) in stats0))
    && (forall id, p :: id !in matches0 && (id, p) in stats ==> stats[(id, p)] == stats0[(id, p)])
  }

  // The target's statistic of a player after the source's one, if any, has been folded in.
  function JoinedStat(stats: Stats, source: int, target: int, player: int): StatRow
    requires forall k :: k in stats ==> |stats[k].numbers| == NUMBERS
    requires (source, player) in stats || (target, player) in stats
  {
    if (source, player) !in stats then stats[(target, player)]
    else if (target, player) in stats then MergedStat(stats[(target, player)], stats[(source, player)])
    else stats[(source, player)]
  }

  function MergedStats(stats: Stats, source: int, target: int): Stats
    requires forall k :: k in stats ==> |stats[k].numbers| == NUMBERS
  {
    map k | k in (set q | q in stats && q.0 != source) + (set q | q in stats && q.0 == source :: (target, q.1)) ::
      if k.0 == target then JoinedStat(stats, source, target, k.1) else stats[k]
  }

  lemma MaxIsLargest(stats: Stats, a: set<int>, b: set<int>, player: int, c: int, v: Option<real>, w: Option<real>)
    requires 0 <= c < NUMBERS && forall k :: k in stats ==> |stats[k].numbers| == NUMBERS
    requires IsLargest(stats, a, player, c, v) && IsLargest(stats, b, player, c, w)
    ensures IsLargest(stats, a + b, player, c, MaxValue(v, w))
  {
    var x :| x in a && (x, player) in stats && stats[(x, player)].numbers[c] == v;
    var y :| y in b && (y, player) in stats && stats[(y, player)].numbers[c] == w;
    assert x in a + b && y in a + b;
  }

  lemma LargestWithout(stats: Stats, a: set<int>, b: set<int>, player: int, c: int, v: Option<real>)
    requires 0 <= c < NUMBERS && forall k :: k in stats ==> |stats[k].numbers| == NUMBERS
    requires IsLargest(stats, a, player, c, v) && !Appears(stats, b, player)
    ensures IsLargest(stats, a + b, player, c, v) && IsLargest(stats, b + a, player, c, v)
  {
    var x :| x in a && (x, player) in stats && stats[(x, player)].numbers[c] == v;
    assert x in a + b && x in b + a;
  }

  lemma FilledUnion(matches: Matches, a: set<int>, b: set<int>, c: int, v: Cell, w: Cell)
    requires 0 <= c < COLUMNS && forall id :: id in matches ==> |matches[id].columns| == COLUMNS
    requires IsFilled(matches, a, c, v) && IsFilled(matches, b, c, w)
    ensures IsFilled(matches, a + b, c, Coalesce(v, w))
  {
    var x :| x in a && x in matches && matches[x].columns[c] == v;
    var y :| y in b && y in matches && matches[y].columns[c] == w;
    assert x in a + b && y in a + b;
  }

  function MatchesAfter(matches: Matches, source: int, target: int): Matches
    requires source in matches && target in matches
    requires forall id :: id in matches ==> |matches[id].columns| == COLUMNS
  {
    matches[target := MergedRow(matches[target], matches[source])] - {source}
  }

  function AbsorbedAfter(absorbed: map<int, set<int>>, source: int, target: int): map<int, set<int>>
    requires source in absorbed && target in absorbed
  {
    absorbed[target := absorbed[target] + absorbed[source]] - {source}
  }

  lemma StatsAfter(stats: Stats, source: int, target: int, id: int, p: int)
    requires source != target && forall k :: k in stats ==> |stats[k].numbers| == NUMBERS
    ensures var after := MergedStats(stats, source, target);
      && (id == source ==> (id, p) !in after)
      && (id == target ==> ((id, p) in after <==> (target, p) in stats || (source, p) in stats))
      && (id == target && (id, p) in after ==> after[(id, p)] == JoinedStat(stats, source, target, p))
      && (id != target && id != source ==> ((id, p) in after <==> (id, p) in stats))
      && (id != target && (id, p) in after ==> after[(id, p)] == stats[(id, p)])
  {
    if (source, p) in stats {
      assert (source, p).0 == source;
    }
  }

  lemma MergeTracksRows(matches0: Matches, stats0: Stats, matches: Matches, stats: Stats, absorbed: map<int, set<int>>,
                        source: int, target: int)
    requires Tracks(matches0, stats0, matches, stats, absorbed)
    requires source in matches && target in matches && source != target
    ensures TracksRows(matches0, MatchesAfter(matches, source, target), AbsorbedAfter(absorbed, source, target))
  {
    var a, b, row := absorbed[target], absorbed[source], MergedRow(matches[target], matches[source]);
    forall c | 0 <= c < COLUMNS ensures IsFilled(matches0, a + b, c, row.columns[c]) {
      FilledUnion(matches0, a, b, c, matches[target].columns[c], matches[source].columns[c]);
    }
  }

  lemma MergeTracksStats(matches0: Matches, stats0: Stats, matches: Matches, stats: Stats,
                         absorbed: map<int, set<int>>, source: int, target: int)
    requires Tracks(matches0, stats0, matches, stats, absorbed)
    requires source in matches && target in matches && source != target
    ensures TracksStats(matches0, stats0, MatchesAfter(matches, source, target), MergedStats(stats, source, target),
                        AbsorbedAfter(absorbed, source, target))
  {
    var a, b, after := absorbed[target], absorbed[source], MergedStats(stats, source, target);
    forall k | k in after ensures k.0 in MatchesAfter(matches, source, target) || k.0 !in matches0 {
      StatsAfter(stats, source, target, k.0, k.1);
    }
    forall id, p | id in MatchesAfter(matches, source, target)
      ensures (id, p) in after <==> Appears(stats0, AbsorbedAfter(absorbed, source, target)[id], p)
    {
      StatsAfter(stats, source, target, id, p);
      if id == target {
        assert Appears(stats0, a + b, p) <==> Appears(stats0, a, p) || Appears(stats0, b, p) by {
          if m :| m in a && (m, p) in stats0 { assert m in a + b; }
          if m :| m in b && (m, p) in stats0 { assert m in a + b; }
        }
      }
    }
  }

  lemma MergeTracksSeen(matches0: Matches, matches: Matches, absorbed: map<int, set<int>>, source: int, target: int)
    requires absorbed.Keys == matches.Keys && TracksSeen(matches0, matches, absorbed)
    requires forall id :: id in matches ==> |matches[id].columns| == COLUMNS
    requires source in matches && target in matches && source != target
    ensures AbsorbedAfter(absorbed, source, target).Keys == MatchesAfter(matches, source, target).Keys
    ensures TracksSeen(matches0, MatchesAfter(matches, source, target), AbsorbedAfter(absorbed, source, target))
  {
    LatestOfUnion(matches0, absorbed[target], absorbed[source], matches[target].lastSeen, matches[source].lastSeen);
  }

  lemma LatestOfUnion(matches: Matches, a: set<int>, b: set<int>, s: string, t: string)
    requires IsLatestSeen(matches, a, s) && IsLatestSeen(matches, b, t)
    ensures IsLatestSeen(matches, a + b, LaterText(s, t))
  {
    var x :| x in a && x in matches && matches[x].lastSeen == s;
    var y :| y in b && y in matches && matches[y].lastSeen == t;
    assert x in a + b && y in a + b;
    TextLeTotal(s, t);
    forall m | m in a + b && m in matches ensures TextLe(matches[m].lastSeen, LaterText(s, t)) {
      if m in a {
        TextLeTransitive(matches[m].lastSeen, s, LaterText(s, t));
      } else {
        TextLeTransitive(matches[m].lastSeen, t, LaterText(s, t));
      }
    }
  }

  lemma StatFilledUnion(stats: Stats, a: set<int>, b: set<int>, p: int, team: bool, v: Cell, w: Cell)
    requires IsStatFilled(stats, a, p, team, v) && IsStatFilled(stats, b, p, team, w)
    ensures IsStatFilled(stats, a + b, p, team, Coalesce(v, w))
  {
    var x :| x in a && (x, p) in stats && TextCell(stats[(x, p)], team) == v;
    var y :| y in b && (y, p) in stats && TextCell(stats[(y, p)], team) == w;
    assert x in a + b && y in a + b;
  }

  lemma StatFilledWithout(stats: Stats, a: set<int>, b: set<int>, p: int, team: bool, v: Cell)
    requires IsStatFilled(stats, a, p, team, v) && !Appears(stats, b, p)
    ensures IsStatFilled(stats, a + b, p, team, v) && IsStatFilled(stats, b + a, p, team, v)
  {
    var x :| x in a && (x, p) in stats && TextCell(stats[(x, p)], team) == v;
    assert x in a + b && x in b + a;
  }

  lemma MergeTracksTexts(matches0: Matches, stats0: Stats, matches: Matches, stats: Stats,
                         absorbed: map<int, set<int>>, source: int, target: int)
    requires Tracks(matches0, stats0, matches, stats, absorbed)
    requires source in matches && target in matches && source != target
    requires AbsorbedAfter(absorbed, source, target).Keys == MatchesAfter(matches, source, target).Keys
    ensures TracksTexts(stats0, MergedStats(stats, source, target), MatchesAfter(matches, source, target).Keys,
                        AbsorbedAfter(absorbed, source, target))
  {
    var after, a, b := MergedStats(stats, source, target), absorbed[target], absorbed[source];
    forall id, p, team | id in MatchesAfter(matches, source, target) && (id, p) in after
      ensures IsStatFilled(stats0, AbsorbedAfter(absorbed, source, target)[id], p, team, TextCell(after[(id, p)], team))
    {
      StatsAfter(stats, source, target, id, p);
      if id == target {
        MergedText(stats0, stats, a, b, source, target, p, team);
      }
    }
  }

  lemma MergedText(stats0: Stats, stats: Stats, a: set<int>, b: set<int>, source: int, target: int, p: int, team: bool)
    requires forall k :: k in stats ==> |stats[k].numbers| == NUMBERS
    requires (target, p) in stats || (source, p) in stats
    requires if (target, p) in stats then IsStatFilled(stats0, a, p, team, TextCell(stats[(target, p)], team))
      else !Appears(stats0, a, p)
    requires if (source, p) in stats then IsStatFilled(stats0, b, p, team, TextCell(stats[(source, p)], team))
      else !Appears(stats0, b, p)
    ensures IsStatFilled(stats0, a + b, p, team, TextCell(JoinedStat(stats, source, target, p), team))
  {
    if (target, p) in stats && (source, p) in stats {
      StatFilledUnion(stats0, a, b, p, team, TextCell(stats[(target, p)], team), TextCell(stats[(source, p)], team));
    } else if (target, p) in stats {
      StatFilledWithout(stats0, a, b, p, team, TextCell(stats[(target, p)], team));
    } else {
      StatFilledWithout(stats0, b, a, p, team, TextCell(stats[(source, p)], team));
    }
  }

  lemma AfterIsWellFormed(matches: Matches, stats: Stats, absorbed: map<int, set<int>>, source: int, target: int)
    requires forall id :: id in matches ==> |matches[id].columns| == COLUMNS
    requires forall k :: k in stats ==> |stats[k].numbers| == NUMBERS
    requires absorbed.Keys == matches.Keys && source in matches && target in matches && source != target
    ensures WellFormed(MatchesAfter(matches, source, target), MergedStats(stats, source, target))
    ensures AbsorbedAfter(absorbed, source, target).Keys == MatchesAfter(matches, source, target).Keys
  {
  }

  lemma MergedNumber(stats0: Stats, stats: Stats, a: set<int>, b: set<int>, source: int, target: int, p: int, c: int)
    requires forall k :: k in stats0 ==> |stats0[k].numbers| == NUMBERS
    requires forall k :: k in stats ==> |stats[k].numbers| == NUMBERS
    requires 0 <= c < NUMBERS && ((target, p) in stats || (source, p) in stats)
    requires if (target, p) in stats then IsLargest(stats0, a, p, c, stats[(target, p)].numbers[c])
      else !Appears(stats0, a, p)
    requires if (source, p) in stats then IsLargest(stats0, b, p, c, stats[(source, p)].numbers[c])
      else !Appears(stats0, b, p)
    ensures IsLargest(stats0, a + b, p, c, JoinedStat(stats, source, target, p).numbers[c])
  {
    if (target, p) in stats && (source, p) in stats {
      MaxIsLargest(stats0, a, b, p, c, stats[(target, p)].numbers[c], stats[(source, p)].numbers[c]);
    } else if (target, p) in stats {
      LargestWithout(stats0, a, b, p, c, stats[(target, p)].numbers[c]);
    } else {
      LargestWithout(stats0, b, a, p, c, stats[(source, p)].numbers[c]);
    }
  }

  lemma MergeTracksNumbers(matches0: Matches, stats0: Stats, matches: Matches, stats: Stats,
                           absorbed: map<int, set<int>>, source: int, target: int)
    requires Tracks(matches0, stats0, matches, stats, absorbed)
    requires source in matches && target in matches && source != target
    requires WellFormed(MatchesAfter(matches, source, target), MergedStats(stats, source, target))
    requires AbsorbedAfter(absorbed, source, target).Keys == MatchesAfter(matches, source, target).Keys
    ensures TracksNumbers(stats0, MergedStats(stats, source, target), MatchesAfter(matches, source, target).Keys,
                          AbsorbedAfter(absorbed, source, target))
  {
    var after := MergedStats(stats, source, target);
    forall id, p, c | id in MatchesAfter(matches, source, target) && (id, p) in after && 0 <= c < NUMBERS
      ensures IsLargest(stats0, AbsorbedAfter(absorbed, source, target)[id], p, c, after[(id, p)].numbers[c])
    {
      StatsAfter(stats, source, target, id, p);
      if id == target {
        MergedNumber(stats0, stats, absorbed[target], absorbed[source], source, target, p, c);
      }
    }
  }

  lemma MergeLeavesLoneMatches(matches0: Matches, stats0: Stats, matches: Matches, stats: Stats,
                               absorbed: map<int, set<int>>, source: int, target: int)
    requires Tracks(matches0, stats0, matches, stats, absorbed)
    requires source in matches && target in matches && source != target
    ensures LeavesLoneMatches(matches0, stats0, MatchesAfter(matches, source, target),
                              MergedStats(stats, source, target), AbsorbedAfter(absorbed, source, target))
  {
    var absorbed', after := AbsorbedAfter(absorbed, source, target), MergedStats(stats, source, target);
    assert source in absorbed[source] && source in absorbed'[target];
    forall id, p | id != target && id != source
      ensures (id, p) in after <==> (id, p) in stats
      ensures (id, p) in after ==> after[(id, p)] == stats[(id, p)]
    {
      StatsAfter(stats, source, target, id, p);
    }
  }

  /** One merge unites the two groups; nothing else is affected. */
  lemma MergeUnitesGroups(matches0: Matches, stats0: Stats, matches: Matches, stats: Stats,
                          absorbed: map<int, set<int>>, source: int, target: int)
    requires Tracks(matches0, stats0, matches, stats, absorbed)
    requires source in matches && target in matches && source != target
    ensures Tracks(matches0, stats0, MatchesAfter(matches, source, target), MergedStats(stats, source, target),
                   AbsorbedAfter(absorbed, source, target))
  {
    AfterIsWellFormed(matches, stats, absorbed, source, target);
    MergeTracksNumbers(matches0, stats0, matches, stats, absorbed, source, target);
    MergeTracksRows(matches0, stats0, matches, stats, absorbed, source, target);
    MergeTracksStats(matches0, stats0, matches, stats, absorbed, source, target);
    MergeTracksSeen(matches0, matches, absorbed, source, target);
    MergeTracksTexts(matches0, stats0, matches, stats, absorbed, source, target);
    MergeLeavesLoneMatches(matches0, stats0, matches, stats, absorbed, source, target);
  }

  // ---------- Groups ----------

  // Text normalisation left to the runtime: strip() and the lower-casing, space-folding label.
  datatype Normalizer = Normalizer(strip: string -> string, fold: string -> string)

  const UNKNOWN_MAP := "unknown-map"

  // A match belongs to the group of its server, start and map label; without a start it has none.
  datatype GroupKey = Ungrouped(id: int) | Grouped(server: int, startedAt: string, mapLabel: string)

  function TextOf(cell: Cell): string {
    if cell == Null then "" else cell.text
  }

  function LabelOf(pretty: Cell, name: Cell, n: Normalizer): string {
    var value := n.strip(if TextOf(pretty) != "" then TextOf(pretty) else TextOf(name));
    n.fold(if value != "" then value else UNKNOWN_MAP)
  }

  function KeyOf(id: int, row: MatchRow, n: Normalizer): GroupKey
    requires |row.columns| == COLUMNS
  {
    if row.columns[STARTED_AT] == Null then Ungrouped(id)
    else Grouped(row.server, TextOf(row.columns[STARTED_AT]),
                 LabelOf(row.columns[MAP_PRETTY_NAME], row.columns[MAP_NAME], n))
  }

  // A row that shows no map at all: an empty pretty name, which COALESCE keeps, and no map name.
  predicate Blank(row: MatchRow)
    requires |row.columns| == COLUMNS
  {
    row.columns[MAP_PRETTY_NAME] == Text("") && row.columns[MAP_NAME] == Null
  }

  // Merging `source` would give a blank `target` a map name that reads differently.
  predicate LosesLabel(target: MatchRow, source: MatchRow, n: Normalizer)
    requires |target.columns| == COLUMNS && |source.columns| == COLUMNS
  {
    && Blank(target) && TextOf(source.columns[MAP_PRETTY_NAME]) != ""
    && LabelOf(Null, source.columns[MAP_NAME], n) != LabelOf(Null, Null, n)
  }

  function LabelOfRow(row: MatchRow, n: Normalizer): string
    requires |row.columns| == COLUMNS
  {
    LabelOf(row.columns[MAP_PRETTY_NAME], row.columns[MAP_NAME], n)
  }

  /** Exactly which merges of two rows of one label change the label. */
  lemma MergeLosesLabelIff(target: MatchRow, source: MatchRow, n: Normalizer)
    requires |target.columns| == COLUMNS && |source.columns| == COLUMNS
    requires LabelOfRow(target, n) == LabelOfRow(source, n)
    ensures LabelOfRow(MergedRow(target, source), n) != LabelOfRow(target, n) <==> LosesLabel(target, source, n)
  {
  }

  ghost function Group(matches: Matches, id: int, n: Normalizer): set<int>
    requires id in matches && forall m :: m in matches ==> |matches[m].columns| == COLUMNS
  {
    set m | m in matches && KeyOf(m, matches[m], n) == KeyOf(id, matches[id], n)
  }

  // _match_identity_preference.
  datatype Preference = Preference(ended: bool, numeric: bool, players: nat, createdAt: string, id: int)

  predicate IsDigits(text: string) {
    text != "" && forall i :: 0 <= i < |text| ==> '0' <= text[i] <= '9'
  }

  function PreferenceOf(matches: Matches, stats: Stats, id: int, n: Normalizer): Preference
    requires id in matches && |matches[id].columns| == COLUMNS
  {
    var row := matches[id];
    Preference(n.strip(TextOf(row.columns[ENDED_AT])) != "", IsDigits(n.strip(row.externalId)),
               |set k | k in stats && k.0 == id|, n.strip(TextOf(row.columns[CREATED_AT])), id)
  }

  predicate PreferenceLe(a: Preference, b: Preference) {
    if a.ended != b.ended then b.ended
    else if a.numeric != b.numeric then b.numeric
    else if a.players != b.players then a.players < b.players
    else if a.createdAt != b.createdAt then TextLe(a.createdAt, b.createdAt)
    else a.id <= b.id
  }

  lemma PreferenceLeTotal(a: Preference, b: Preference)
    ensures PreferenceLe(a, b) || PreferenceLe(b, a)
    ensures PreferenceLe(a, b) && PreferenceLe(b, a) ==> a == b
  {
    TextLeTotal(a.createdAt, b.createdAt);
    if TextLe(a.createdAt, b.createdAt) && TextLe(b.createdAt, a.createdAt) {
      TextLeAntisymmetric(a.createdAt, b.createdAt);
    }
  }

  lemma PreferenceLeTransitive(a: Preference, b: Preference, c: Preference)
    requires PreferenceLe(a, b) && PreferenceLe(b, c)
    ensures PreferenceLe(a, c)
  {
    if a.createdAt != b.createdAt && b.createdAt != c.createdAt && TextLe(a.createdAt, b.createdAt)
      && TextLe(b.createdAt, c.createdAt) {
      TextLeTransitive(a.createdAt, b.createdAt, c.createdAt);
      if a.createdAt == c.createdAt {
        TextLeAntisymmetric(a.createdAt, b.createdAt);
      }
    }
  }

  // `id` is the match of its group that the others are folded into.
  ghost predicate Survives(matches: Matches, stats: Stats, id: int, n: Normalizer)
    requires id in matches && forall m :: m in matches ==> |matches[m].columns| == COLUMNS
  {
    forall m :: m in Group(matches, id, n) ==>
      PreferenceLe(PreferenceOf(matches, stats, m, n), PreferenceOf(matches, stats, id, n))
  }

  ghost function Survivors(matches: Matches, stats: Stats, n: Normalizer): set<int>
    requires forall m :: m in matches ==> |matches[m].columns| == COLUMNS
  {
    set id | id in matches && Survives(matches, stats, id, n)
  }

  ghost function GroupsOf(matches: Matches, ids: set<int>, n: Normalizer): map<int, set<int>>
    requires ids <= matches.Keys && forall m :: m in matches ==> |matches[m].columns| == COLUMNS
  {
    map id | id in ids :: Group(matches, id, n)
  }

  /**
   The outcome of a normalisation: one match per group, the preferred one, holding for every
   player of the group one statistic with the largest value of each numeric column.
   */
  ghost predicate Normalized(matches0: Matches, stats0: Stats, matches: Matches, stats: Stats, n: Normalizer) {
    && WellFormed(matches0, stats0)
    && matches.Keys == Survivors(matches0, stats0, n)
    && Tracks(matches0, stats0, matches, stats, GroupsOf(matches0, matches.Keys, n))
    && (LabelsHold(matches0, n) ==> SameKeys(matches0, matches, n))
  }

  // No two matches of a group would lose their label when merged.
  ghost predicate LabelsHold(matches: Matches, n: Normalizer)
    requires forall m :: m in matches ==> |matches[m].columns| == COLUMNS
  {
    forall t, s :: t in matches && s in matches && KeyOf(t, matches[t], n) == KeyOf(s, matches[s], n) ==>
      !LosesLabel(matches[t], matches[s], n)
  }

  ghost predicate SameKeys(matches0: Matches, matches: Matches, n: Normalizer)
    requires forall m :: m in matches0 ==> |matches0[m].columns| == COLUMNS
    requires forall m :: m in matches ==> |matches[m].columns| == COLUMNS
  {
    forall id :: id in matches ==> id in matches0 && KeyOf(id, matches[id], n) == KeyOf(id, matches0[id], n)
  }

  // Every row still has its key, and a blank one has absorbed a blank one of its key.
  ghost predicate KeepsKeys(matches0: Matches, matches: Matches, absorbed: map<int, set<int>>, n: Normalizer)
    requires forall m :: m in matches0 ==> |matches0[m].columns| == COLUMNS
    requires forall m :: m in matches ==> |matches[m].columns| == COLUMNS
  {
    && SameKeys(matches0, matches, n)
    && forall id :: id in matches && Blank(matches[id]) ==>
      id in absorbed && AbsorbedBlank(matches0, absorbed[id], KeyOf(id, matches[id], n), n)
  }

  ghost predicate AbsorbedBlank(matches0: Matches, group: set<int>, key: GroupKey, n: Normalizer)
    requires forall m :: m in matches0 ==> |matches0[m].columns| == COLUMNS
  {
    exists m :: m in group && m in matches0 && Blank(matches0[m]) && KeyOf(m, matches0[m], n) == key
  }

  // What the folds keep about labels.
  ghost predicate Labelled(matches0: Matches, matches: Matches, absorbed: map<int, set<int>>, n: Normalizer)
    requires forall m :: m in matches0 ==> |matches0[m].columns| == COLUMNS
    requires forall m :: m in matches ==> |matches[m].columns| == COLUMNS
  {
    LabelsHold(matches0, n) ==> KeepsKeys(matches0, matches, absorbed, n)
  }

  lemma MergeKeepsKey(matches0: Matches, row: MatchRow, group: set<int>, key: GroupKey, source: int, target: int,
                      n: Normalizer)
    requires forall m :: m in matches0 ==> |matches0[m].columns| == COLUMNS
    requires LabelsHold(matches0, n) && |row.columns| == COLUMNS && source in matches0 && source != target
    requires key.Grouped? && KeyOf(target, row, n) == key && KeyOf(source, matches0[source], n) == key
    requires Blank(row) ==> AbsorbedBlank(matches0, group, key, n)
    ensures var merged := MergedRow(row, matches0[source]);
      KeyOf(target, merged, n) == key && (Blank(merged) ==> AbsorbedBlank(matches0, group + {source}, key, n))
  {
    var merged := MergedRow(row, matches0[source]);
    MergeLosesLabelIff(row, matches0[source], n);
    if Blank(row) {
      var m :| m in group && m in matches0 && Blank(matches0[m]) && KeyOf(m, matches0[m], n) == key;
      assert !LosesLabel(matches0[m], matches0[source], n);
      assert m in group + {source};
    }
    if Blank(merged) && !Blank(row) {
      assert Blank(matches0[source]) && source in group + {source};
    }
  }

  lemma FoldKeepsKeys(matches0: Matches, matches: Matches, absorbed: map<int, set<int>>, source: int, target: int,
                      n: Normalizer)
    requires forall m :: m in matches0 ==> |matches0[m].columns| == COLUMNS
    requires forall m :: m in matches ==> |matches[m].columns| == COLUMNS
    requires Labelled(matches0, matches, absorbed, n)
    requires source in matches && target in matches && source != target && source in matches0 && target in matches0
    requires source in absorbed && target in absorbed && absorbed[source] == {source}
    requires matches[source] == matches0[source]
    requires KeyOf(source, matches0[source], n) == KeyOf(target, matches0[target], n)
    ensures forall m :: m in MatchesAfter(matches, source, target) ==>
      |MatchesAfter(matches, source, target)[m].columns| == COLUMNS
    ensures Labelled(matches0, MatchesAfter(matches, source, target), AbsorbedAfter(absorbed, source, target), n)
  {
    if LabelsHold(matches0, n) {
      assert KeyOf(target, matches[target], n).Grouped?;
      MergeKeepsKey(matches0, matches[target], absorbed[target], KeyOf(target, matches[target], n), source, target, n);
    }
  }

  // ---------- The store ----------

  ghost function SetOf(ids: seq<int>): set<int> {
    set id | id in ids
  }

  function StartText(row: MatchRow): string {
    if |row.columns| == COLUMNS then TextOf(row.columns[STARTED_AT]) else ""
  }

  function RowBefore(matches: Matches): (int, int) -> bool {
    (a: int, b: int) =>
      if a !in matches || b !in matches then (if (a in matches) == (b in matches) then a <= b else a !in matches)
      else if matches[a].server != matches[b].server then matches[a].server < matches[b].server
      else
        var s, t := StartText(matches[a]), StartText(matches[b]);
        if s != t then TextLe(s, t) else a <= b
  }

  // The groups of the matches read so far, each in the order of the ids.
  ghost predicate Groups(matches: Matches, read: set<int>, groups: map<GroupKey, seq<int>>, n: Normalizer)
    requires forall m :: m in matches ==> |matches[m].columns| == COLUMNS
    requires read <= matches.Keys
  {
    && (forall k :: k in groups ==> k.Grouped? && groups[k] != [])
    && (forall k, i, j :: k in groups && 0 <= i < j < |groups[k]| ==> groups[k][i] < groups[k][j])
    && (forall k, id :: k in groups && id in groups[k] ==> id in read && KeyOf(id, matches[id], n) == k)
    && (forall id :: id in read && KeyOf(id, matches[id], n).Grouped? ==>
        KeyOf(id, matches[id], n) in groups && id in groups[KeyOf(id, matches[id], n)])
  }

  lemma GroupsExtend(matches: Matches, read: set<int>, groups: map<GroupKey, seq<int>>, id: int, n: Normalizer)
    requires forall m :: m in matches ==> |matches[m].columns| == COLUMNS
    requires read <= matches.Keys && id in matches && id !in read && Groups(matches, read, groups, n)
    requires forall m :: m in read && KeyOf(m, matches[m], n) == KeyOf(id, matches[id], n) ==> m < id
    ensures var k := KeyOf(id, matches[id], n);
      Groups(matches, read + {id},
             if k.Grouped? then groups[k := (if k in groups then groups[k] else []) + [id]] else groups, n)
  {
    var k := KeyOf(id, matches[id], n);
    if k in groups {
      forall i | 0 <= i < |groups[k]| ensures groups[k][i] < id {
        var m := groups[k][i];
        assert m in groups[k];
        assert m in read && KeyOf(m, matches[m], n) == k;
      }
    }
  }

  // ---------- The normalisation as a function ----------

  // The tables part way through, with what each row has absorbed.
  datatype Folding = Folding(matches: Matches, stats: Stats, absorbed: map<int, set<int>>)

  // _merge_historical_match_rows; a row is not merged into itself.
  function Merge(t: Folding, source: int, target: int): (r: Folding)
    requires WellFormed(t.matches, t.stats)
    ensures WellFormed(r.matches, r.stats)
  {
    if source != target && source in t.matches && target in t.matches
    then Folding(MatchesAfter(t.matches, source, target), MergedStats(t.stats, source, target),
                 if source in t.absorbed && target in t.absorbed then AbsorbedAfter(t.absorbed, source, target)
                   else t.absorbed)
    else t
  }

  function FoldRows(t: Folding, rows: seq<int>, target: int): (r: Folding)
    requires WellFormed(t.matches, t.stats)
    ensures WellFormed(r.matches, r.stats)
  {
    if rows == [] then t else Merge(FoldRows(t, rows[..|rows| - 1], target), rows[|rows| - 1], target)
  }

  // max(rows, key=_match_identity_preference)
  function Best(rows: seq<int>, prefs: map<int, Preference>): (r: int)
    requires rows != [] && forall i :: 0 <= i < |rows| ==> rows[i] in prefs
    ensures r in rows
  {
    var last := rows[|rows| - 1];
    if |rows| == 1 then last
    else
      var best := Best(rows[..|rows| - 1], prefs);
      if PreferenceLe(prefs[last], prefs[best]) then best else last
  }

  // The groups in the order their keys are met, and the rows of each in reading order.
  datatype Grouping = Grouping(order: seq<GroupKey>, groups: map<GroupKey, seq<int>>)

  function AddRow(g: Grouping, key: GroupKey, id: int): Grouping {
    if key.Ungrouped? then g
    else if key in g.groups then Grouping(g.order, g.groups[key := g.groups[key] + [id]])
    else Grouping(g.order + [key], g.groups[key := [id]])
  }

  function GroupIds(matches: Matches, ids: seq<int>, n: Normalizer): Grouping
    requires forall m :: m in matches ==> |matches[m].columns| == COLUMNS
    requires forall i :: 0 <= i < |ids| ==> ids[i] in matches
  {
    if ids == [] then Grouping([], map[])
    else
      var id := ids[|ids| - 1];
      AddRow(GroupIds(matches, ids[..|ids| - 1], n), KeyOf(id, matches[id], n), id)
  }

  ghost predicate Foldable(order: seq<GroupKey>, groups: map<GroupKey, seq<int>>, prefs: map<int, Preference>) {
    forall k :: k in order ==>
      && k in groups && groups[k] != []
      && forall i :: 0 <= i < |groups[k]| ==> groups[k][i] in prefs
  }

  // The loop over the groups; a group of one match is left alone.
  ghost function FoldKeys(t: Folding, order: seq<GroupKey>, groups: map<GroupKey, seq<int>>,
                          prefs: map<int, Preference>): (r: Folding)
    requires WellFormed(t.matches, t.stats) && Foldable(order, groups, prefs)
    ensures WellFormed(r.matches, r.stats)
  {
    if order == [] then t
    else
      var before, rows := FoldKeys(t, order[..|order| - 1], groups, prefs), groups[order[|order| - 1]];
      if |rows| < 2 then before else FoldRows(before, rows, Best(rows, prefs))
  }

  function PreferencesOf(matches: Matches, stats: Stats, n: Normalizer): map<int, Preference>
    requires forall m :: m in matches ==> |matches[m].columns| == COLUMNS
  {
    map id | id in matches :: PreferenceOf(matches, stats, id, n)
  }

  // The started matches in the order the query reads them; there is only one such sequence.
  ghost predicate ReadsStarted(matches: Matches, ids: seq<int>)
    requires forall m :: m in matches ==> |matches[m].columns| == COLUMNS
  {
    ListsStarted(matches, ids) && Sorted(RowBefore(matches), ids)
  }

  // Matches of one server and start are listed by id.
  ghost predicate ListsInOrder(matches: Matches, ids: seq<int>)
    requires forall m :: m in matches ==> |matches[m].columns| == COLUMNS
  {
    && ListsStarted(matches, ids)
    && forall i, j :: 0 <= i < j < |ids| && SameStart(matches[ids[i]], matches[ids[j]]) ==> ids[i] < ids[j]
  }

  predicate SameStart(a: MatchRow, b: MatchRow)
    requires |a.columns| == COLUMNS && |b.columns| == COLUMNS
  {
    a.server == b.server && TextOf(a.columns[STARTED_AT]) == TextOf(b.columns[STARTED_AT])
  }

  lemma ReadingIsInOrder(matches: Matches, ids: seq<int>)
    requires forall m :: m in matches ==> |matches[m].columns| == COLUMNS
    requires ReadsStarted(matches, ids)
    ensures ListsInOrder(matches, ids)
  {
    forall i, j | 0 <= i < j < |ids| && SameStart(matches[ids[i]], matches[ids[j]]) ensures ids[i] < ids[j] {
      var a, b := ids[i], ids[j];
      assert RowBefore(matches)(a, b) && StartText(matches[a]) == StartText(matches[b]);
      assert a != b;
    }
  }

  ghost function NormalizedBy(matches: Matches, stats: Stats, n: Normalizer, ids: seq<int>): (r: Folding)
    requires WellFormed(matches, stats) && ListsInOrder(matches, ids)
    ensures WellFormed(r.matches, r.stats)
  {
    GroupingIsFoldable(matches, stats, ids, n);
    var g := GroupIds(matches, ids, n);
    FoldKeys(Unfolded(matches, stats), g.order, g.groups, PreferencesOf(matches, stats, n))
  }

  class HistoricalStore {
    const n: Normalizer
    var matches: Matches
    var stats: Stats

    constructor (n: Normalizer, matches: Matches, stats: Stats)
      ensures this.n == n && this.matches == matches && this.stats == stats
    {
      this.n, this.matches, this.stats := n, matches, stats;
    }

    /** _merge_historical_match_rows: nothing happens when either row is gone. */
    method MergeMatchRows(source: int, target: int)
      requires WellFormed(matches, stats) && source != target
      modifies this`matches, this`stats
      ensures if source in old(matches) && target in old(matches)
              then matches == MatchesAfter(old(matches), source, target)
                && stats == MergedStats(old(stats), source, target)
              else matches == old(matches) && stats == old(stats)
    {
      if source !in matches || target !in matches {
        return;
      }
      matches := matches[target := MergedRow(matches[target], matches[source])];
      MoveStats(source, target);
      matches := matches - {source};
    }

    method MoveStats(source: int, target: int)
      requires source != target && forall k :: k in stats ==> |stats[k].numbers| == NUMBERS
      modifies this`stats
      ensures stats == MergedStats(old(stats), source, target)
    {
      var left := set k | k in stats && k.0 == source :: k.1;
      ghost var before := stats;
      while left != {}
        invariant Moved(before, stats, source, target, left)
        decreases |left|
      {
        var p := PickAny(left);
        var row := stats[(source, p)];
        MoveOne(before, stats, source, target, left, p);
        if (target, p) !in stats {
          stats := stats[(target, p) := row];
        } else {
          stats := stats[(target, p) := MergedStat(stats[(target, p)], row)];
        }
        stats := stats - {(source, p)};
        left := left - {p};
      }
      AllMoved(before, stats, source, target);
    }

    /** Reads the started matches in order and sorts them into groups. */
    method GroupMatches(ids: seq<int>) returns (g: Grouping)
      requires WellFormed(matches, stats) && ListsStarted(matches, ids)
      ensures g == GroupIds(matches, ids, n)
    {
      g := Grouping([], map[]);
      for i := 0 to |ids|
        invariant g == GroupIds(matches, ids[..i], n)
      {
        var id := ids[i];
        var key := KeyOf(id, matches[id], n);
        assert ids[..i + 1][..i] == ids[..i];
        if key.Grouped? {
          if key in g.groups {
            g := g.(groups := g.groups[key := g.groups[key] + [id]]);
          } else {
            g := Grouping(g.order + [key], g.groups[key := [id]]);
          }
        }
      }
      assert ids[..|ids|] == ids;
    }

    /** Folds all rows of a group into the preferred one. */
    method FoldGroup(rows: seq<int>, target: int, ghost t: Folding)
      requires WellFormed(matches, stats) && t.matches == matches && t.stats == stats
      modifies this`matches, this`stats
      ensures matches == FoldRows(t, rows, target).matches && stats == FoldRows(t, rows, target).stats
    {
      for j := 0 to |rows|
        invariant matches == FoldRows(t, rows[..j], target).matches && stats == FoldRows(t, rows[..j], target).stats
      {
        assert rows[..j + 1][..j] == rows[..j];
        if rows[j] != target {
          MergeMatchRows(rows[j], target);
        }
      }
      assert rows[..|rows|] == rows;
    }

    /** The ids of the matches with a start, ordered by server, start and id. */
    method StartedMatches() returns (ids: seq<int>)
      requires WellFormed(matches, stats)
      ensures ReadsStarted(matches, ids) && ListsInOrder(matches, ids)
    {
      var found: seq<int> := [];
      var left := set id | id in matches && matches[id].columns[STARTED_AT] != Null;
      while left != {}
        invariant left <= set id | id in matches && matches[id].columns[STARTED_AT] != Null
        invariant forall id :: id in found <==> id in matches && matches[id].columns[STARTED_AT] != Null && id !in left
        invariant forall i, j :: 0 <= i < j < |found| ==> found[i] != found[j]
        decreases |left|
      {
        var id := PickAny(left);
        found, left := found + [id], left - {id};
      }
      ids := SortBy(RowBefore(matches), found);
      SortByPermutes(RowBefore(matches), found);
      RowBeforeIsTotalPreorder(matches);
      SortBySorts(RowBefore(matches), found);
      PermutedStaysDistinct(found, ids);
      forall i | 0 <= i < |ids| ensures ids[i] in matches {
        var id := ids[i];
        assert id in ids;
      }
      ReadingIsInOrder(matches, ids);
    }

    /** max(rows, key=_match_identity_preference), on the preferences read at the start. */
    method Preferred(rows: seq<int>, prefs: map<int, Preference>) returns (target: int)
      requires rows != [] && forall i :: 0 <= i < |rows| ==> rows[i] in prefs
      ensures target == Best(rows, prefs)
      ensures target in rows && forall r :: r in rows ==> PreferenceLe(prefs[r], prefs[target])
    {
      target := rows[0];
      for i := 1 to |rows|
        invariant target == Best(rows[..i], prefs)
      {
        assert rows[..i + 1][..i] == rows[..i];
        if !PreferenceLe(prefs[rows[i]], prefs[target]) {
          target := rows[i];
        }
      }
      assert rows[..|rows|] == rows;
      BestIsGreatest(rows, prefs);
    }

    /** The loop over the groups; a group of one match is left alone. */
    method FoldGroups(g: Grouping, prefs: map<int, Preference>, ghost t: Folding)
      requires WellFormed(matches, stats) && t.matches == matches && t.stats == stats
      requires Foldable(g.order, g.groups, prefs)
      modifies this`matches, this`stats
      ensures var r := FoldKeys(t, g.order, g.groups, prefs); matches == r.matches && stats == r.stats
    {
      ghost var now := t;
      for i := 0 to |g.order|
        invariant now == FoldKeys(t, g.order[..i], g.groups, prefs) && matches == now.matches && stats == now.stats
      {
        assert g.order[..i + 1][..i] == g.order[..i];
        assert g.order[i] in g.order;
        var rows := g.groups[g.order[i]];
        if |rows| >= 2 {
          var target := Preferred(rows, prefs);
          FoldGroup(rows, target, now);
          now := FoldRows(now, rows, target);
        }
      }
      assert g.order[..|g.order|] == g.order;
    }

    /** _normalize_historical_match_identities. */
    method NormalizeIdentities()
      requires WellFormed(matches, stats)
      modifies this`matches, this`stats
      ensures Normalized(old(matches), old(stats), matches, stats, n)
      ensures WellFormed(matches, stats) && (matches, stats) == Normalize(old(matches), old(stats), n)
    {
      var prefs := PreferencesOf(matches, stats, n);
      var ids := StartedMatches();
      var g := GroupMatches(ids);
      GroupingIsFoldable(matches, stats, ids, n);
      NormalizeReads(matches, stats, n, ids);
      NormalizeIsNormalized(matches, stats, n);
      FoldGroups(g, prefs, Unfolded(matches, stats));
    }
  }

  lemma {:induction false} BestIsGreatest(rows: seq<int>, prefs: map<int, Preference>)
    requires rows != [] && forall i :: 0 <= i < |rows| ==> rows[i] in prefs
    ensures forall r :: r in rows ==> PreferenceLe(prefs[r], prefs[Best(rows, prefs)])
  {
    var front, last := rows[..|rows| - 1], rows[|rows| - 1];
    PreferenceLeTotal(prefs[last], prefs[last]);
    if front != [] {
      BestIsGreatest(front, prefs);
      var best := Best(front, prefs);
      PreferenceLeTotal(prefs[last], prefs[best]);
      forall r | r in rows ensures PreferenceLe(prefs[r], prefs[Best(rows, prefs)]) {
        if r in front && !PreferenceLe(prefs[last], prefs[best]) {
          PreferenceLeTransitive(prefs[r], prefs[best], prefs[last]);
        }
      }
    }
  }

  lemma RowBeforeIsTotalPreorder(matches: Matches)
    ensures TotalPreorder(RowBefore(matches))
  {
    forall a, b ensures RowBefore(matches)(a, b) || RowBefore(matches)(b, a) {
      if a in matches && b in matches {
        TextLeTotal(StartText(matches[a]), StartText(matches[b]));
      }
    }
    forall a, b, c | RowBefore(matches)(a, b) && RowBefore(matches)(b, c) ensures RowBefore(matches)(a, c) {
      RowBeforeTransitive(matches, a, b, c);
    }
  }

  lemma RowBeforeTransitive(matches: Matches, a: int, b: int, c: int)
    requires RowBefore(matches)(a, b) && RowBefore(matches)(b, c)
    ensures RowBefore(matches)(a, c)
  {
    if a in matches && b in matches && c in matches {
      var s, t, u := StartText(matches[a]), StartText(matches[b]), StartText(matches[c]);
      if TextLe(s, t) && TextLe(t, u) {
        TextLeTransitive(s, t, u);
        if s == u && s != t {
          TextLeAntisymmetric(s, t);
        }
      }
    }
  }

  lemma SameMultiset(xs: seq<int>, ys: seq<int>)
    requires forall i, j :: 0 <= i < j < |xs| ==> xs[i] != xs[j]
    requires forall i, j :: 0 <= i < j < |ys| ==> ys[i] != ys[j]
    requires forall x :: x in xs <==> x in ys
    ensures multiset(xs) == multiset(ys)
  {
    forall x ensures multiset(xs)[x] == multiset(ys)[x] {
      OccursOnce(xs, x);
      OccursOnce(ys, x);
      assert x in xs <==> x in multiset(xs);
      assert x in ys <==> x in multiset(ys);
    }
  }

  lemma StartedAreListed(matches: Matches, ids: seq<int>, x: int)
    requires forall m :: m in matches ==> |matches[m].columns| == COLUMNS
    requires ListsStarted(matches, ids)
    ensures x in ids <==> x in matches && matches[x].columns[STARTED_AT] != Null
  {
  }

  lemma ReadingIsUnique(matches: Matches, xs: seq<int>, ys: seq<int>)
    requires forall m :: m in matches ==> |matches[m].columns| == COLUMNS
    requires ReadsStarted(matches, xs) && ReadsStarted(matches, ys)
    ensures xs == ys
  {
    RowBeforeIsTotalPreorder(matches);
    forall x ensures x in xs <==> x in ys {
      StartedAreListed(matches, xs, x);
      StartedAreListed(matches, ys, x);
    }
    SameMultiset(xs, ys);
    forall i, j | 0 <= i < |xs| && 0 <= j < |xs| && RowBefore(matches)(xs[i], xs[j]) && RowBefore(matches)(xs[j], xs[i])
      ensures xs[i] == xs[j]
    {
      if xs[i] in matches && xs[j] in matches && TextLe(StartText(matches[xs[i]]), StartText(matches[xs[j]]))
        && TextLe(StartText(matches[xs[j]]), StartText(matches[xs[i]])) {
        TextLeAntisymmetric(StartText(matches[xs[i]]), StartText(matches[xs[j]]));
      }
    }
    SortedIsUnique(RowBefore(matches), xs, ys);
  }

  lemma {:induction false} CanBeSorted(matches: Matches, left: set<int>) returns (ids: seq<int>)
    ensures SetOf(ids) == left && forall i, j :: 0 <= i < j < |ids| ==> ids[i] != ids[j]
    decreases |left|
  {
    if left == {} {
      ids := [];
    } else {
      var id := SomeElement(left);
      var rest := CanBeSorted(matches, left - {id});
      ids := rest + [id];
      assert SetOf(ids) == SetOf(rest) + {id};
      assert forall i :: 0 <= i < |rest| ==> rest[i] in SetOf(rest);
    }
  }

  lemma CanBeRead(matches: Matches) returns (ids: seq<int>)
    requires forall m :: m in matches ==> |matches[m].columns| == COLUMNS
    ensures ReadsStarted(matches, ids)
  {
    var found := CanBeSorted(matches, set id | id in matches && matches[id].columns[STARTED_AT] != Null);
    ids := SortBy(RowBefore(matches), found);
    RowBeforeIsTotalPreorder(matches);
    SortByPermutes(RowBefore(matches), found);
    SortBySorts(RowBefore(matches), found);
    PermutedListsStarted(matches, found, ids);
  }

  lemma PermutedListsStarted(matches: Matches, found: seq<int>, ids: seq<int>)
    requires forall m :: m in matches ==> |matches[m].columns| == COLUMNS
    requires SetOf(found) == set id | id in matches && matches[id].columns[STARTED_AT] != Null
    requires multiset(found) == multiset(ids) && forall i, j :: 0 <= i < j < |found| ==> found[i] != found[j]
    ensures ListsStarted(matches, ids)
  {
    PermutedStaysDistinct(found, ids);
    assert forall id :: id in ids <==> id in SetOf(found);
    assert forall i :: 0 <= i < |ids| ==> ids[i] in ids;
  }

  ghost function Reading(matches: Matches): (ids: seq<int>)
    requires forall m :: m in matches ==> |matches[m].columns| == COLUMNS
    ensures ReadsStarted(matches, ids) && ListsInOrder(matches, ids)
  {
    ReadingExists(matches);
    var ids :| ReadsStarted(matches, ids);
    ReadingIsInOrder(matches, ids);
    ids
  }

  lemma ReadingExists(matches: Matches)
    requires forall m :: m in matches ==> |matches[m].columns| == COLUMNS
    ensures exists ids :: ReadsStarted(matches, ids)
  {
    var ids := CanBeRead(matches);
  }

  /** The tables after _normalize_historical_match_identities. */
  ghost function Normalize(matches: Matches, stats: Stats, n: Normalizer): (Matches, Stats)
    requires WellFormed(matches, stats)
  {
    var r := NormalizedBy(matches, stats, n, Reading(matches));
    (r.matches, r.stats)
  }

  lemma NormalizeReads(matches: Matches, stats: Stats, n: Normalizer, ids: seq<int>)
    requires WellFormed(matches, stats) && ReadsStarted(matches, ids) && ListsInOrder(matches, ids)
    ensures var r := NormalizedBy(matches, stats, n, ids); Normalize(matches, stats, n) == (r.matches, r.stats)
  {
    ReadingIsUnique(matches, ids, Reading(matches));
  }

  // The rows read are one of the groups.
  ghost predicate OrderLists(g: Grouping) {
    && (forall i, j :: 0 <= i < j < |g.order| ==> g.order[i] != g.order[j])
    && (forall k :: k in g.order <==> k in g.groups)
  }

  // One more row read.
  lemma GroupOneMore(matches: Matches, front: seq<int>, id: int, g: Grouping, n: Normalizer)
    requires forall m :: m in matches ==> |matches[m].columns| == COLUMNS
    requires SetOf(front) <= matches.Keys && Groups(matches, SetOf(front), g.groups, n) && OrderLists(g)
    requires id in matches && id !in SetOf(front)
    requires forall m :: m in SetOf(front) && KeyOf(m, matches[m], n) == KeyOf(id, matches[id], n) ==> m < id
    ensures var more := AddRow(g, KeyOf(id, matches[id], n), id);
      Groups(matches, SetOf(front) + {id}, more.groups, n) && OrderLists(more)
  {
    var key := KeyOf(id, matches[id], n);
    GroupsExtend(matches, SetOf(front), g.groups, id, n);
    if key !in g.groups {
      OrderExtends(g, key, id);
      assert [] + [id] == [id];
    }
  }

  lemma {:induction false} GroupIdsGroups(matches: Matches, ids: seq<int>, n: Normalizer)
    requires forall m :: m in matches ==> |matches[m].columns| == COLUMNS
    requires forall i :: 0 <= i < |ids| ==> ids[i] in matches
    requires forall i, j :: 0 <= i < j < |ids| ==>
      ids[i] != ids[j]
        && (KeyOf(ids[i], matches[ids[i]], n) == KeyOf(ids[j], matches[ids[j]], n) ==> ids[i] < ids[j])
    ensures SetOf(ids) <= matches.Keys
    ensures var g := GroupIds(matches, ids, n); Groups(matches, SetOf(ids), g.groups, n) && OrderLists(g)
  {
    if ids != [] {
      var front, id := ids[..|ids| - 1], ids[|ids| - 1];
      GroupIdsGroups(matches, front, n);
      assert SetOf(ids) == SetOf(front) + {id};
      forall m | m in SetOf(front) && KeyOf(m, matches[m], n) == KeyOf(id, matches[id], n) ensures m < id {
        var i :| 0 <= i < |front| && front[i] == m;
        assert ids[i] == m;
      }
      GroupOneMore(matches, front, id, GroupIds(matches, front, n), n);
    }
  }

  lemma OrderExtends(g: Grouping, key: GroupKey, id: int)
    requires OrderLists(g) && key !in g.groups
    ensures OrderLists(Grouping(g.order + [key], g.groups[key := [id]]))
  {
  }

  lemma GroupsAreFoldable(matches: Matches, stats: Stats, read: set<int>, g: Grouping, n: Normalizer)
    requires forall m :: m in matches ==> |matches[m].columns| == COLUMNS
    requires read <= matches.Keys && Groups(matches, read, g.groups, n) && OrderLists(g)
    ensures Foldable(g.order, g.groups, PreferencesOf(matches, stats, n))
  {
    forall k, i | k in g.order && 0 <= i < |g.groups[k]| ensures g.groups[k][i] in matches {
      var id := g.groups[k][i];
      assert id in g.groups[k];
    }
  }

  lemma SameKeySameStart(matches: Matches, ids: seq<int>, i: int, j: int, n: Normalizer)
    requires forall m :: m in matches ==> |matches[m].columns| == COLUMNS
    requires ListsInOrder(matches, ids) && 0 <= i < j < |ids|
    requires KeyOf(ids[i], matches[ids[i]], n) == KeyOf(ids[j], matches[ids[j]], n)
    ensures ids[i] < ids[j]
  {
    assert ids[i] in ids && ids[j] in ids;
  }

  lemma GroupingIsFoldable(matches: Matches, stats: Stats, ids: seq<int>, n: Normalizer)
    requires WellFormed(matches, stats) && ListsInOrder(matches, ids)
    ensures var g := GroupIds(matches, ids, n);
      Foldable(g.order, g.groups, PreferencesOf(matches, stats, n)) && OrderLists(g)
        && Groups(matches, SetOf(ids), g.groups, n)
  {
    forall i, j | 0 <= i < j < |ids| && KeyOf(ids[i], matches[ids[i]], n) == KeyOf(ids[j], matches[ids[j]], n)
      ensures ids[i] < ids[j]
    {
      SameKeySameStart(matches, ids, i, j, n);
    }
    GroupIdsGroups(matches, ids, n);
    GroupsAreFoldable(matches, stats, SetOf(ids), GroupIds(matches, ids, n), n);
  }

  // ---------- What the folds keep ----------

  ghost predicate Faithful(matches0: Matches, stats0: Stats, t: Folding, n: Normalizer) {
    && Tracks(matches0, stats0, t.matches, t.stats, t.absorbed)
    && Labelled(matches0, t.matches, t.absorbed, n)
  }

  lemma MergeIsFaithful(matches0: Matches, stats0: Stats, t: Folding, source: int, target: int, n: Normalizer)
    requires Faithful(matches0, stats0, t, n)
    requires source in t.matches && target in t.matches && source != target && t.absorbed[source] == {source}
    requires KeyOf(source, matches0[source], n) == KeyOf(target, matches0[target], n)
    ensures Faithful(matches0, stats0, Merge(t, source, target), n)
  {
    assert t.matches[source] == matches0[source];
    FoldKeepsKeys(matches0, t.matches, t.absorbed, source, target, n);
    MergeUnitesGroups(matches0, stats0, t.matches, t.stats, t.absorbed, source, target);
  }

  predicate SameKey(matches0: Matches, source: int, target: int, n: Normalizer)
    requires forall m :: m in matches0 ==> |matches0[m].columns| == COLUMNS
  {
    source in matches0 && target in matches0 && KeyOf(source, matches0[source], n) == KeyOf(target, matches0[target], n)
  }

  // Whatever `good` says of the tables, a merge of a lone row into one of its group keeps it.
  ghost predicate KeptByMerges(good: Folding -> bool, matches0: Matches, n: Normalizer)
    requires forall m :: m in matches0 ==> |matches0[m].columns| == COLUMNS
  {
    && (forall t: Folding :: good(t) ==> WellFormed(t.matches, t.stats) && t.absorbed.Keys == t.matches.Keys)
    && (forall t, source, target :: good(t) && Mergeable(matches0, t, source, target, n) ==>
      good(Merge(t, source, target)))
  }

  ghost predicate Mergeable(matches0: Matches, t: Folding, source: int, target: int, n: Normalizer)
    requires forall m :: m in matches0 ==> |matches0[m].columns| == COLUMNS
  {
    && WellFormed(t.matches, t.stats) && SameKey(matches0, source, target, n) && source != target
    && source in t.absorbed && target in t.absorbed && t.absorbed[source] == {source}
    && forall m :: m in t.absorbed[target] && m != target ==> m < source
  }

  ghost function FaithfulTo(matches0: Matches, stats0: Stats, n: Normalizer): Folding -> bool {
    t => Faithful(matches0, stats0, t, n)
  }

  lemma UnfoldedIsFaithful(matches: Matches, stats: Stats, n: Normalizer)
    requires WellFormed(matches, stats)
    ensures FaithfulTo(matches, stats, n)(Unfolded(matches, stats))
  {
    NothingAbsorbedYet(matches, stats);
    NoKeyLostYet(matches, n);
  }

  lemma FaithfulIsKept(matches0: Matches, stats0: Stats, n: Normalizer)
    requires forall m :: m in matches0 ==> |matches0[m].columns| == COLUMNS
    ensures KeptByMerges(FaithfulTo(matches0, stats0, n), matches0, n)
  {
    forall t, source, target | Faithful(matches0, stats0, t, n) && Mergeable(matches0, t, source, target, n)
      ensures Faithful(matches0, stats0, Merge(t, source, target), n)
    {
      MergeIsFaithful(matches0, stats0, t, source, target, n);
    }
  }

  // The first rows of the group are folded into the target.
  ghost predicate FoldedUpTo(good: Folding -> bool, t: Folding, rows: seq<int>, target: int, j: nat)
    requires WellFormed(t.matches, t.stats) && j <= |rows|
  {
    KeptFolded(good, t, FoldRows(t, rows[..j], target), SetOf(rows[..j]) + {target}, target)
  }

  ghost predicate StandAlone(absorbed: map<int, set<int>>, rows: seq<int>) {
    forall i :: 0 <= i < |rows| ==> rows[i] in absorbed && absorbed[rows[i]] == {rows[i]}
  }

  lemma {:induction false} FoldRowsKeeps(good: Folding -> bool, matches0: Matches, t: Folding, key: GroupKey,
      rows: seq<int>, target: int, j: nat, n: Normalizer)
    requires forall m :: m in matches0 ==> |matches0[m].columns| == COLUMNS
    requires KeptByMerges(good, matches0, n) && good(t) && ListsGroup(matches0, rows, key, n) && target in rows
    requires j <= |rows| && WellFormed(t.matches, t.stats) && StandAlone(t.absorbed, rows)
    ensures FoldedUpTo(good, t, rows, target, j)
  {
    if j == 0 {
      FoldNoRow(good, t, rows, target);
    } else {
      FoldRowsKeeps(good, matches0, t, key, rows, target, j - 1, n);
      FoldNextRow(good, matches0, t, key, rows, target, j - 1, n);
    }
  }

  lemma FoldNextRow(good: Folding -> bool, matches0: Matches, t: Folding, key: GroupKey, rows: seq<int>, target: int,
                    j: nat, n: Normalizer)
    requires forall m :: m in matches0 ==> |matches0[m].columns| == COLUMNS
    requires KeptByMerges(good, matches0, n) && ListsGroup(matches0, rows, key, n) && target in rows
    requires j < |rows| && WellFormed(t.matches, t.stats) && StandAlone(t.absorbed, rows)
    requires FoldedUpTo(good, t, rows, target, j)
    ensures FoldedUpTo(good, t, rows, target, j + 1)
  {
    FoldListedRow(good, matches0, t, FoldRows(t, rows[..j], target), key, rows, target, j, n);
    FoldRowsOneMore(t, rows, target, j);
  }

  lemma FoldNoRow(good: Folding -> bool, t: Folding, rows: seq<int>, target: int)
    requires WellFormed(t.matches, t.stats) && good(t) && target in rows && StandAlone(t.absorbed, rows)
    ensures FoldedUpTo(good, t, rows, target, 0)
  {
    NothingFolded(t.absorbed, rows, target);
    assert rows[..0] == [] && SetOf([]) + {target} == {target};
  }

  lemma FoldListedRow(good: Folding -> bool, matches0: Matches, t0: Folding, t: Folding, key: GroupKey, rows: seq<int>,
                      target: int, j: nat, n: Normalizer)
    requires forall m :: m in matches0 ==> |matches0[m].columns| == COLUMNS
    requires KeptByMerges(good, matches0, n) && ListsGroup(matches0, rows, key, n) && target in rows && j < |rows|
    requires KeptFolded(good, t0, t, SetOf(rows[..j]) + {target}, target)
    requires rows[j] in t0.absorbed && t0.absorbed[rows[j]] == {rows[j]}
    ensures WellFormed(t.matches, t.stats)
    ensures KeptFolded(good, t0, Merge(t, rows[j], target), SetOf(rows[..j + 1]) + {target}, target)
  {
    NextListed(matches0, rows, key, target, j, n);
    OneMoreListed(rows, target, j);
    FoldOneRow(good, matches0, t0, t, SetOf(rows[..j]) + {target}, rows[j], target, n);
  }

  ghost predicate KeptFolded(good: Folding -> bool, t0: Folding, t: Folding, folded: set<int>, target: int) {
    good(t) && IsFolded(t0.absorbed, t.absorbed, folded, target)
  }

  lemma FoldRowsOneMore(t: Folding, rows: seq<int>, target: int, j: nat)
    requires WellFormed(t.matches, t.stats) && j < |rows|
    ensures FoldRows(t, rows[..j + 1], target) == Merge(FoldRows(t, rows[..j], target), rows[j], target)
  {
    assert rows[..j + 1][..j] == rows[..j];
  }

  lemma FoldAllRows(good: Folding -> bool, matches0: Matches, t: Folding, key: GroupKey, rows: seq<int>, target: int,
                    n: Normalizer)
    requires forall m :: m in matches0 ==> |matches0[m].columns| == COLUMNS
    requires KeptByMerges(good, matches0, n) && good(t) && ListsGroup(matches0, rows, key, n) && target in rows
    requires forall i :: 0 <= i < |rows| ==> rows[i] in t.absorbed && t.absorbed[rows[i]] == {rows[i]}
    ensures var r := FoldRows(t, rows, target); good(r) && IsFolded(t.absorbed, r.absorbed, SetOf(rows), target)
  {
    assert WellFormed(t.matches, t.stats);
    FoldRowsKeeps(good, matches0, t, key, rows, target, |rows|, n);
    assert rows[..|rows|] == rows && SetOf(rows) + {target} == SetOf(rows);
  }

  lemma NothingFolded(absorbed: map<int, set<int>>, rows: seq<int>, target: int)
    requires target in rows && forall i :: 0 <= i < |rows| ==> rows[i] in absorbed && absorbed[rows[i]] == {rows[i]}
    ensures IsFolded(absorbed, absorbed, {target}, target)
  {
    var i :| 0 <= i < |rows| && rows[i] == target;
  }

  lemma FoldOneRow(good: Folding -> bool, matches0: Matches, t0: Folding, t: Folding, folded: set<int>, source: int,
                   target: int, n: Normalizer)
    requires forall m :: m in matches0 ==> |matches0[m].columns| == COLUMNS
    requires KeptByMerges(good, matches0, n) && KeptFolded(good, t0, t, folded, target)
    requires source in t0.absorbed && t0.absorbed[source] == {source} && (source != target ==> source !in folded)
    requires forall m :: m in folded && m != target ==> m < source
    requires SameKey(matches0, source, target, n)
    ensures WellFormed(t.matches, t.stats)
    ensures KeptFolded(good, t0, Merge(t, source, target), folded + {source}, target)
  {
    if source == target {
      assert folded + {source} == folded;
    } else {
      FoldOneMore(t0.absorbed, t.absorbed, folded, target, source);
    }
  }

  ghost function KeySet(order: seq<GroupKey>): set<GroupKey> {
    set k | k in order
  }

  lemma FoldOneGroup(good: Folding -> bool, matches0: Matches, stats0: Stats, t: Folding, left: set<GroupKey>,
                     key: GroupKey, rows: seq<int>, n: Normalizer)
    requires forall m :: m in matches0 ==> |matches0[m].columns| == COLUMNS
    requires KeptByMerges(good, matches0, n) && good(t) && Progress(matches0, stats0, t.absorbed, left, n)
    requires key in left && ListsGroup(matches0, rows, key, n)
    ensures var r := if |rows| < 2 then t else FoldRows(t, rows, Best(rows, PreferencesOf(matches0, stats0, n)));
      good(r) && Progress(matches0, stats0, r.absorbed, left - {key}, n)
  {
    RowsAreLeft(matches0, stats0, t.absorbed, left, key, rows, n);
    if |rows| < 2 {
      ProgressByLoneMatch(matches0, stats0, t.absorbed, left, key, rows, n);
    } else {
      var prefs := PreferencesOf(matches0, stats0, n);
      var target := Best(rows, prefs);
      BestIsGreatest(rows, prefs);
      FoldAllRows(good, matches0, t, key, rows, target, n);
      ProgressByFold(matches0, stats0, t.absorbed, FoldRows(t, rows, target).absorbed, left, key, rows, target, n);
    }
  }

  // Nothing has been merged yet.
  ghost function Unfolded(matches: Matches, stats: Stats): Folding {
    Folding(matches, stats, EachAlone(matches))
  }

  // A grouping of the original matches, ready to be folded.
  ghost predicate GroupedBy(matches0: Matches, stats0: Stats, ids: seq<int>, g: Grouping, n: Normalizer)
    requires WellFormed(matches0, stats0)
  {
    ListsInOrder(matches0, ids) && OrderLists(g) && Groups(matches0, SetOf(ids), g.groups, n)
      && Foldable(g.order, g.groups, PreferencesOf(matches0, stats0, n))
  }

  lemma {:induction false} FoldKeysKeeps(good: Folding -> bool, matches0: Matches, stats0: Stats, ids: seq<int>,
      g: Grouping, k: nat, n: Normalizer)
    requires WellFormed(matches0, stats0) && GroupedBy(matches0, stats0, ids, g, n) && k <= |g.order|
    requires KeptByMerges(good, matches0, n) && good(Unfolded(matches0, stats0))
    ensures Foldable(g.order[..k], g.groups, PreferencesOf(matches0, stats0, n))
    ensures var r := FoldKeys(Unfolded(matches0, stats0), g.order[..k], g.groups, PreferencesOf(matches0, stats0, n));
      good(r) && Progress(matches0, stats0, r.absorbed, g.groups.Keys - KeySet(g.order[..k]), n)
  {
    if k == 0 {
      NoGroupFoldedYet(matches0, stats0, ids, g.groups, n);
      assert g.groups.Keys - KeySet(g.order[..0]) == g.groups.Keys;
    } else {
      FoldKeysKeeps(good, matches0, stats0, ids, g, k - 1, n);
      NextKey(g, k);
      var prefs := PreferencesOf(matches0, stats0, n);
      FoldKeysOneMore(Unfolded(matches0, stats0), g, k, prefs);
      var t := FoldKeys(Unfolded(matches0, stats0), g.order[..k - 1], g.groups, prefs);
      FoldKeyKeeps(good, matches0, stats0, ids, g, t, g.groups.Keys - KeySet(g.order[..k - 1]), g.order[k - 1], n);
    }
  }

  lemma FoldKeysOneMore(t: Folding, g: Grouping, k: nat, prefs: map<int, Preference>)
    requires WellFormed(t.matches, t.stats) && Foldable(g.order, g.groups, prefs) && 0 < k <= |g.order|
    ensures Foldable(g.order[..k - 1], g.groups, prefs) && Foldable(g.order[..k], g.groups, prefs)
    ensures g.order[k - 1] in g.groups
    ensures var rows := g.groups[g.order[k - 1]]; rows != [] && forall i :: 0 <= i < |rows| ==> rows[i] in prefs
    ensures var before, rows := FoldKeys(t, g.order[..k - 1], g.groups, prefs), g.groups[g.order[k - 1]];
      FoldKeys(t, g.order[..k], g.groups, prefs)
        == if |rows| < 2 then before else FoldRows(before, rows, Best(rows, prefs))
  {
    assert g.order[k - 1] in g.order && g.order[..k][..k - 1] == g.order[..k - 1];
    assert forall x :: x in g.order[..k] ==> x in g.order;
  }

  lemma FoldKeyKeeps(good: Folding -> bool, matches0: Matches, stats0: Stats, ids: seq<int>, g: Grouping, t: Folding,
                     left: set<GroupKey>, key: GroupKey, n: Normalizer)
    requires WellFormed(matches0, stats0) && GroupedBy(matches0, stats0, ids, g, n) && key in left && key in g.groups
    requires KeptByMerges(good, matches0, n) && good(t) && Progress(matches0, stats0, t.absorbed, left, n)
    ensures g.groups[key] != [] && forall i :: 0 <= i < |g.groups[key]| ==> g.groups[key][i] in matches0
    ensures var rows := g.groups[key];
      var r := if |rows| < 2 then t else FoldRows(t, rows, Best(rows, PreferencesOf(matches0, stats0, n)));
      good(r) && Progress(matches0, stats0, r.absorbed, left - {key}, n)
  {
    RowsAreGroup(matches0, ids, g.groups, key, n);
    FoldOneGroup(good, matches0, stats0, t, left, key, g.groups[key], n);
  }

  lemma NextKey(g: Grouping, k: nat)
    requires OrderLists(g) && 0 < k <= |g.order|
    ensures g.order[..k][..k - 1] == g.order[..k - 1] && g.order[k - 1] in g.groups
    ensures g.order[k - 1] in g.groups.Keys - KeySet(g.order[..k - 1])
    ensures g.groups.Keys - KeySet(g.order[..k]) == g.groups.Keys - KeySet(g.order[..k - 1]) - {g.order[k - 1]}
  {
    var key := g.order[k - 1];
    assert key in g.order;
    assert KeySet(g.order[..k]) == KeySet(g.order[..k - 1]) + {key};
  }

  /** The function does what a normalisation promises. */
  lemma NormalizeIsNormalized(matches: Matches, stats: Stats, n: Normalizer)
    requires WellFormed(matches, stats)
    ensures var (after, statsAfter) := Normalize(matches, stats, n); Normalized(matches, stats, after, statsAfter, n)
  {
    var ids := Reading(matches);
    var g := GroupIds(matches, ids, n);
    GroupingIsFoldable(matches, stats, ids, n);
    FoldsAreFaithful(matches, stats, ids, g, n);
    EverythingFolded(matches, stats, NormalizedBy(matches, stats, n, ids).absorbed, n);
  }

  // The five criteria of the choice, read off the rows.
  function EndText(row: MatchRow, n: Normalizer): string
    requires |row.columns| == COLUMNS
  {
    n.strip(if row.columns[ENDED_AT].Text? then row.columns[ENDED_AT].text else "")
  }

  function CreatedText(row: MatchRow, n: Normalizer): string
    requires |row.columns| == COLUMNS
  {
    n.strip(if row.columns[CREATED_AT].Text? then row.columns[CREATED_AT].text else "")
  }

  predicate HasNumericId(row: MatchRow, n: Normalizer) {
    var id := n.strip(row.externalId);
    id != "" && forall c :: c in id ==> '0' <= c <= '9'
  }

  ghost function PlayersOf(stats: Stats, id: int): set<int> {
    set k | k in stats && k.0 == id :: k.1
  }

  // One identity: a server, a start that is known and a map label.
  ghost predicate SameIdentity(a: MatchRow, b: MatchRow, n: Normalizer)
    requires |a.columns| == COLUMNS && |b.columns| == COLUMNS
  {
    a.server == b.server && a.columns[STARTED_AT] == b.columns[STARTED_AT] != Null && MapLabel(a, n) == MapLabel(b, n)
  }

  // The pretty name, without one the map name, and without either an unknown map.
  function MapLabel(row: MatchRow, n: Normalizer): string
    requires |row.columns| == COLUMNS
  {
    var pretty, name := row.columns[MAP_PRETTY_NAME], row.columns[MAP_NAME];
    var text := if pretty.Text? && |pretty.text| > 0 then pretty.text else if name.Text? then name.text else "";
    if |n.strip(text)| > 0 then n.fold(n.strip(text)) else n.fold("unknown-map")
  }

  // `s` is the better of two matches of one identity.
  ghost predicate Beats(matches: Matches, stats: Stats, n: Normalizer, s: int, m: int)
    requires s in matches && m in matches && |matches[s].columns| == COLUMNS && |matches[m].columns| == COLUMNS
  {
    var a, b := matches[s], matches[m];
    if (EndText(a, n) == "") != (EndText(b, n) == "") then EndText(a, n) != ""
    else if HasNumericId(a, n) != HasNumericId(b, n) then HasNumericId(a, n)
    else if |PlayersOf(stats, s)| != |PlayersOf(stats, m)| then |PlayersOf(stats, s)| > |PlayersOf(stats, m)|
    else if CreatedText(a, n) != CreatedText(b, n) then TextLe(CreatedText(b, n), CreatedText(a, n))
    else s > m
  }

  /**
   Which match of a group is left: one that has ended before one that has not, then one with a
   numeric id, then the one with more statistics, then the one created last, then the greatest id.
   */
  lemma PreferredIsLeft(matches: Matches, stats: Stats, n: Normalizer, s: int, m: int)
    requires WellFormed(matches, stats) && s in matches && m in matches && SameIdentity(matches[s], matches[m], n)
    requires s in Normalize(matches, stats, n).0
    ensures EndText(matches[m], n) != "" ==> EndText(matches[s], n) != ""
    ensures (EndText(matches[m], n) != "" <==> EndText(matches[s], n) != "") ==>
      && (HasNumericId(matches[m], n) ==> HasNumericId(matches[s], n))
      && ((HasNumericId(matches[m], n) <==> HasNumericId(matches[s], n)) ==>
          && |PlayersOf(stats, m)| <= |PlayersOf(stats, s)|
          && (|PlayersOf(stats, m)| == |PlayersOf(stats, s)| ==>
              && TextLe(CreatedText(matches[m], n), CreatedText(matches[s], n))
              && (CreatedText(matches[m], n) == CreatedText(matches[s], n) ==> m <= s)))
  {
    LeftIsPreferred(matches, stats, n, s, m);
    PreferenceReads(matches, stats, m, n);
    PreferenceReads(matches, stats, s, n);
    TextLeTotal(CreatedText(matches[s], n), CreatedText(matches[s], n));
  }

  /** A normalisation deletes a match exactly when a match of its identity beats it. */
  lemma MatchIsFoldedIff(matches: Matches, stats: Stats, n: Normalizer, m: int)
    requires WellFormed(matches, stats) && m in matches
    ensures m !in Normalize(matches, stats, n).0 <==> IsBeaten(matches, stats, n, m)
  {
    SurvivorsAreLeft(matches, stats, n);
    SurvivesIff(matches, stats, n, m);
  }

  ghost predicate IsBeaten(matches: Matches, stats: Stats, n: Normalizer, m: int)
    requires m in matches && forall k :: k in matches ==> |matches[k].columns| == COLUMNS
  {
    exists s :: s in matches && SameIdentity(matches[s], matches[m], n) && Beats(matches, stats, n, s, m)
  }

  lemma SurvivorsAreLeft(matches: Matches, stats: Stats, n: Normalizer)
    requires WellFormed(matches, stats)
    ensures Normalize(matches, stats, n).0.Keys == Survivors(matches, stats, n)
  {
    NormalizeIsNormalized(matches, stats, n);
  }

  lemma SurvivesIff(matches: Matches, stats: Stats, n: Normalizer, m: int)
    requires m in matches && forall k :: k in matches ==> |matches[k].columns| == COLUMNS
    ensures Survives(matches, stats, m, n) <==> !IsBeaten(matches, stats, n, m)
  {
    if matches[m].columns[STARTED_AT] == Null {
      PreferenceLeTotal(PreferenceOf(matches, stats, m, n), PreferenceOf(matches, stats, m, n));
      assert Group(matches, m, n) == {m};
    } else {
      forall s | s in matches
        ensures s in Group(matches, m, n) <==> SameIdentity(matches[s], matches[m], n)
        ensures PreferenceLe(PreferenceOf(matches, stats, s, n), PreferenceOf(matches, stats, m, n))
          <==> !Beats(matches, stats, n, s, m)
      {
        IdentityIsKey(matches, s, m, n);
        BeatsReads(matches, stats, n, s, m);
      }
    }
  }

  lemma IdentityIsKey(matches: Matches, s: int, m: int, n: Normalizer)
    requires s in matches && m in matches && |matches[s].columns| == COLUMNS && |matches[m].columns| == COLUMNS
    requires matches[m].columns[STARTED_AT] != Null
    ensures KeyOf(s, matches[s], n) == KeyOf(m, matches[m], n) <==> SameIdentity(matches[s], matches[m], n)
  {
    LabelReads(matches[s], n);
    LabelReads(matches[m], n);
  }

  lemma LabelReads(row: MatchRow, n: Normalizer)
    requires |row.columns| == COLUMNS
    ensures LabelOf(row.columns[MAP_PRETTY_NAME], row.columns[MAP_NAME], n) == MapLabel(row, n)
  {
  }

  lemma BeatsReads(matches: Matches, stats: Stats, n: Normalizer, s: int, m: int)
    requires s in matches && m in matches && |matches[s].columns| == COLUMNS && |matches[m].columns| == COLUMNS
    ensures PreferenceLe(PreferenceOf(matches, stats, s, n), PreferenceOf(matches, stats, m, n))
      <==> !Beats(matches, stats, n, s, m)
  {
    PreferenceReads(matches, stats, s, n);
    PreferenceReads(matches, stats, m, n);
    TextLeTotal(CreatedText(matches[s], n), CreatedText(matches[m], n));
    if TextLe(CreatedText(matches[s], n), CreatedText(matches[m], n))
      && TextLe(CreatedText(matches[m], n), CreatedText(matches[s], n)) {
      TextLeAntisymmetric(CreatedText(matches[s], n), CreatedText(matches[m], n));
    }
  }

  lemma LeftIsPreferred(matches: Matches, stats: Stats, n: Normalizer, s: int, m: int)
    requires WellFormed(matches, stats) && s in matches && m in matches && SameIdentity(matches[s], matches[m], n)
    requires s in Normalize(matches, stats, n).0
    ensures PreferenceLe(PreferenceOf(matches, stats, m, n), PreferenceOf(matches, stats, s, n))
  {
    NormalizeIsNormalized(matches, stats, n);
    IdentityIsKey(matches, m, s, n);
    assert s in Survivors(matches, stats, n) && m in Group(matches, s, n);
  }

  lemma PreferenceReads(matches: Matches, stats: Stats, id: int, n: Normalizer)
    requires id in matches && |matches[id].columns| == COLUMNS
    ensures var p := PreferenceOf(matches, stats, id, n);
      && (p.ended <==> EndText(matches[id], n) != "") && (p.numeric <==> HasNumericId(matches[id], n))
      && p.players == |PlayersOf(stats, id)| && p.createdAt == CreatedText(matches[id], n) && p.id == id
  {
    var players, keys := PlayersOf(stats, id), set k | k in stats && k.0 == id;
    forall k | k in keys ensures k in (set p | p in players :: (id, p)) {
      var p := k.1;
      assert p in players;
      assert k == (id, p);
    }
    assert keys == set p | p in players :: (id, p);
    SameSize(id, players, keys);
    IsDigitsReads(n.strip(matches[id].externalId));
  }

  lemma IsDigitsReads(text: string)
    ensures IsDigits(text) <==> text != "" && forall c :: c in text ==> '0' <= c <= '9'
  {
    assert forall i :: 0 <= i < |text| ==> text[i] in text;
  }

  lemma {:induction false} SameSize(id: int, players: set<int>, keys: set<(int, int)>)
    requires keys == set p | p in players :: (id, p)
    ensures |keys| == |players|
  {
    if players != {} {
      var p := SomeElement(players);
      SameSize(id, players - {p}, keys - {(id, p)});
    }
  }

  lemma FoldsAreFaithful(matches: Matches, stats: Stats, ids: seq<int>, g: Grouping, n: Normalizer)
    requires WellFormed(matches, stats) && GroupedBy(matches, stats, ids, g, n)
    ensures var r := FoldKeys(Unfolded(matches, stats), g.order, g.groups, PreferencesOf(matches, stats, n));
      FaithfulTo(matches, stats, n)(r) && Progress(matches, stats, r.absorbed, {}, n)
  {
    UnfoldedIsFaithful(matches, stats, n);
    FaithfulIsKept(matches, stats, n);
    FoldsKeep(FaithfulTo(matches, stats, n), matches, stats, ids, g, n);
  }

  lemma FoldsKeep(good: Folding -> bool, matches0: Matches, stats0: Stats, ids: seq<int>, g: Grouping, n: Normalizer)
    requires WellFormed(matches0, stats0) && GroupedBy(matches0, stats0, ids, g, n)
    requires KeptByMerges(good, matches0, n) && good(Unfolded(matches0, stats0))
    ensures var r := FoldKeys(Unfolded(matches0, stats0), g.order, g.groups, PreferencesOf(matches0, stats0, n));
      good(r) && Progress(matches0, stats0, r.absorbed, {}, n)
  {
    FoldKeysKeeps(good, matches0, stats0, ids, g, |g.order|, n);
    assert g.order[..|g.order|] == g.order && g.groups.Keys - KeySet(g.order) == {};
  }

  // `ids` are the matches with a start, each once.
  ghost predicate ListsStarted(matches: Matches, ids: seq<int>)
    requires forall m :: m in matches ==> |matches[m].columns| == COLUMNS
  {
    && (forall i :: 0 <= i < |ids| ==> ids[i] in matches)
    && (forall i, j :: 0 <= i < j < |ids| ==> ids[i] != ids[j])
    && SetOf(ids) <= matches.Keys
    && (forall id :: id in matches ==> (matches[id].columns[STARTED_AT] != Null <==> id in ids))
  }

  // `rows` are the matches of one group, each once and by id.
  ghost predicate ListsGroup(matches: Matches, rows: seq<int>, key: GroupKey, n: Normalizer)
    requires forall m :: m in matches ==> |matches[m].columns| == COLUMNS
  {
    && key.Grouped? && rows != []
    && (forall i :: 0 <= i < |rows| ==> rows[i] in matches && KeyOf(rows[i], matches[rows[i]], n) == key)
    && (forall i, j :: 0 <= i < j < |rows| ==> rows[i] < rows[j])
    && (forall id :: id in matches && KeyOf(id, matches[id], n) == key ==> id in rows)
  }

  lemma NextListed(matches: Matches, rows: seq<int>, key: GroupKey, target: int, j: nat, n: Normalizer)
    requires forall m :: m in matches ==> |matches[m].columns| == COLUMNS
    requires ListsGroup(matches, rows, key, n) && target in rows && j < |rows|
    ensures SameKey(matches, rows[j], target, n)
    ensures rows[j] != target ==> rows[j] !in SetOf(rows[..j]) + {target}
    ensures forall m :: m in SetOf(rows[..j]) ==> m < rows[j]
  {
    var i :| 0 <= i < |rows| && rows[i] == target;
    EarlierAreLess(rows, j);
  }

  lemma EarlierAreLess(rows: seq<int>, j: nat)
    requires j < |rows| && forall i, k :: 0 <= i < k < |rows| ==> rows[i] < rows[k]
    ensures forall m :: m in SetOf(rows[..j]) ==> m < rows[j]
  {
    forall m | m in SetOf(rows[..j]) ensures m < rows[j] {
      var i :| 0 <= i < j && rows[..j][i] == m;
    }
  }

  lemma OneMoreListed(rows: seq<int>, target: int, j: nat)
    requires j < |rows|
    ensures SetOf(rows[..j + 1]) + {target} == SetOf(rows[..j]) + {target} + {rows[j]}
  {
    assert rows[..j + 1] == rows[..j] + [rows[j]];
  }

  lemma GroupIsListed(matches: Matches, rows: seq<int>, key: GroupKey, n: Normalizer, id: int)
    requires forall m :: m in matches ==> |matches[m].columns| == COLUMNS
    requires ListsGroup(matches, rows, key, n) && id in rows
    ensures id in matches && Group(matches, id, n) == SetOf(rows)
  {
  }

  lemma PermutedStaysDistinct(xs: seq<int>, ys: seq<int>)
    requires multiset(xs) == multiset(ys) && forall i, j :: 0 <= i < j < |xs| ==> xs[i] != xs[j]
    ensures forall i, j :: 0 <= i < j < |ys| ==> ys[i] != ys[j]
    ensures forall x :: x in xs <==> x in ys
  {
    forall x ensures multiset(xs)[x] <= 1 {
      OccursOnce(xs, x);
    }
    forall i, j | 0 <= i < j < |ys| ensures ys[i] != ys[j] {
      assert ys == ys[..i] + [ys[i]] + ys[i + 1..j] + [ys[j]] + ys[j + 1..];
      assert multiset(ys)[ys[i]] >= 1 + if ys[i] == ys[j] then 1 else 0;
    }
    forall x ensures x in xs <==> x in ys {
      assert x in multiset(xs) <==> x in multiset(ys);
    }
  }

  lemma {:induction false} OccursOnce(xs: seq<int>, x: int)
    requires forall i, j :: 0 <= i < j < |xs| ==> xs[i] != xs[j]
    ensures multiset(xs)[x] <= 1
  {
    if xs != [] {
      var front, last := xs[..|xs| - 1], xs[|xs| - 1];
      OccursOnce(front, x);
      assert xs == front + [last];
      if x == last {
        assert x !in front;
        assert x !in multiset(front);
      }
    }
  }

  // Before any merge every match has absorbed itself.
  ghost function EachAlone(matches: Matches): map<int, set<int>> {
    map id | id in matches :: {id}
  }

  lemma NothingAbsorbedYet(matches: Matches, stats: Stats)
    requires WellFormed(matches, stats)
    ensures Tracks(matches, stats, matches, stats, EachAlone(matches))
  {
    ColumnsAreOwn(matches);
    NumbersAreOwn(matches, stats);
    PlayersAreOwn(matches, stats);
    SeenIsOwn(matches);
    TextsAreOwn(matches, stats);
  }

  lemma ColumnsAreOwn(matches: Matches)
    requires forall id :: id in matches ==> |matches[id].columns| == COLUMNS
    ensures TracksRows(matches, matches, EachAlone(matches))
  {
    forall id, c | id in matches && 0 <= c < COLUMNS ensures IsFilled(matches, {id}, c, matches[id].columns[c]) {
      assert id in {id};
    }
  }

  lemma NumbersAreOwn(matches: Matches, stats: Stats)
    requires forall k :: k in stats ==> |stats[k].numbers| == NUMBERS
    ensures TracksNumbers(stats, stats, matches.Keys, EachAlone(matches))
  {
    forall id, p, c | id in matches && (id, p) in stats && 0 <= c < NUMBERS
      ensures IsLargest(stats, {id}, p, c, stats[(id, p)].numbers[c])
    {
      assert id in {id};
    }
  }

  lemma PlayersAreOwn(matches: Matches, stats: Stats)
    ensures TracksStats(matches, stats, matches, stats, EachAlone(matches))
  {
    forall id, p | id in matches ensures (id, p) in stats <==> Appears(stats, {id}, p) {
      assert id in {id};
    }
  }

  lemma SeenIsOwn(matches: Matches)
    ensures TracksSeen(matches, matches, EachAlone(matches))
  {
    forall id | id in matches ensures IsLatestSeen(matches, EachAlone(matches)[id], matches[id].lastSeen) {
      assert id in EachAlone(matches)[id];
      TextLeTotal(matches[id].lastSeen, matches[id].lastSeen);
    }
  }

  lemma TextIsOwn(stats: Stats, id: int, p: int, team: bool)
    requires (id, p) in stats
    ensures IsStatFilled(stats, {id}, p, team, TextCell(stats[(id, p)], team))
  {
    assert id in {id};
  }

  lemma TextsAreOwn(matches: Matches, stats: Stats)
    ensures TracksTexts(stats, stats, matches.Keys, EachAlone(matches))
  {
    forall id, p, team | id in matches && (id, p) in stats
      ensures IsStatFilled(stats, EachAlone(matches)[id], p, team, TextCell(stats[(id, p)], team))
    {
      TextIsOwn(stats, id, p, team);
    }
  }

  lemma NoKeyLostYet(matches: Matches, n: Normalizer)
    requires forall m :: m in matches ==> |matches[m].columns| == COLUMNS
    ensures Labelled(matches, matches, EachAlone(matches), n)
  {
    forall id | id in matches && Blank(matches[id])
      ensures AbsorbedBlank(matches, EachAlone(matches)[id], KeyOf(id, matches[id], n), n)
    {
      assert id in EachAlone(matches)[id];
    }
  }

  // Groups whose key is still to come are untouched; the others are down to their survivor.
  ghost predicate Progress(matches0: Matches, stats0: Stats, absorbed: map<int, set<int>>, left: set<GroupKey>,
                           n: Normalizer)
    requires forall m :: m in matches0 ==> |matches0[m].columns| == COLUMNS
  {
    forall id :: id in matches0 ==>
      if KeyOf(id, matches0[id], n) in left || KeyOf(id, matches0[id], n).Ungrouped?
      then id in absorbed && absorbed[id] == {id}
      else
        && (id in absorbed <==> Survives(matches0, stats0, id, n))
        && (id in absorbed ==> absorbed[id] == Group(matches0, id, n))
  }

  lemma NoGroupFoldedYet(matches: Matches, stats: Stats, ids: seq<int>, groups: map<GroupKey, seq<int>>, n: Normalizer)
    requires forall m :: m in matches ==> |matches[m].columns| == COLUMNS
    requires forall id :: id in matches && matches[id].columns[STARTED_AT] != Null ==> id in ids
    requires SetOf(ids) <= matches.Keys && Groups(matches, SetOf(ids), groups, n)
    ensures Progress(matches, stats, EachAlone(matches), groups.Keys, n)
  {
    forall id | id in matches ensures KeyOf(id, matches[id], n) in groups.Keys || KeyOf(id, matches[id], n).Ungrouped? {
      assert matches[id].columns[STARTED_AT] != Null ==> id in SetOf(ids);
    }
  }

  lemma RowsAreGroup(matches0: Matches, ids: seq<int>, groups: map<GroupKey, seq<int>>, key: GroupKey, n: Normalizer)
    requires forall m :: m in matches0 ==> |matches0[m].columns| == COLUMNS
    requires forall id :: id in matches0 && matches0[id].columns[STARTED_AT] != Null ==> id in ids
    requires SetOf(ids) <= matches0.Keys && Groups(matches0, SetOf(ids), groups, n) && key in groups
    ensures ListsGroup(matches0, groups[key], key, n)
  {
    forall i | 0 <= i < |groups[key]| ensures groups[key][i] in SetOf(ids) {
      var id := groups[key][i];
      assert id in groups[key];
    }
    forall id | id in matches0 && KeyOf(id, matches0[id], n) == key ensures id in groups[key] {
      assert id in SetOf(ids);
    }
  }

  lemma RowsAreLeft(matches0: Matches, stats0: Stats, absorbed: map<int, set<int>>, left: set<GroupKey>, key: GroupKey,
                    rows: seq<int>, n: Normalizer)
    requires forall m :: m in matches0 ==> |matches0[m].columns| == COLUMNS
    requires Progress(matches0, stats0, absorbed, left, n) && key in left && ListsGroup(matches0, rows, key, n)
    ensures forall i :: 0 <= i < |rows| ==> rows[i] in absorbed && absorbed[rows[i]] == {rows[i]}
  {
  }

  lemma PreferredSurvives(matches0: Matches, stats0: Stats, rows: seq<int>, target: int, id: int, key: GroupKey,
                          n: Normalizer)
    requires forall m :: m in matches0 ==> |matches0[m].columns| == COLUMNS
    requires ListsGroup(matches0, rows, key, n) && id in rows && target in rows
    requires forall r :: r in rows && r in matches0 ==>
      PreferenceLe(PreferenceOf(matches0, stats0, r, n), PreferenceOf(matches0, stats0, target, n))
    ensures id in matches0 && (Survives(matches0, stats0, id, n) <==> id == target)
  {
    GroupIsListed(matches0, rows, key, n, id);
    if Survives(matches0, stats0, id, n) {
      assert target in Group(matches0, id, n);
      PreferenceLeTotal(PreferenceOf(matches0, stats0, id, n), PreferenceOf(matches0, stats0, target, n));
    }
  }

  lemma ProgressByFold(matches0: Matches, stats0: Stats, before: map<int, set<int>>, after: map<int, set<int>>,
                       left: set<GroupKey>,
                       key: GroupKey, rows: seq<int>, target: int, n: Normalizer)
    requires forall m :: m in matches0 ==> |matches0[m].columns| == COLUMNS
    requires Progress(matches0, stats0, before, left, n) && key in left
    requires ListsGroup(matches0, rows, key, n) && target in rows && IsFolded(before, after, SetOf(rows), target)
    requires forall r :: r in rows && r in matches0 ==>
      PreferenceLe(PreferenceOf(matches0, stats0, r, n), PreferenceOf(matches0, stats0, target, n))
    ensures Progress(matches0, stats0, after, left - {key}, n)
  {
    forall id | id in rows
      ensures id in matches0 && (Survives(matches0, stats0, id, n) <==> id == target)
        && Group(matches0, id, n) == SetOf(rows)
    {
      PreferredSurvives(matches0, stats0, rows, target, id, key, n);
      GroupIsListed(matches0, rows, key, n, id);
    }
  }

  lemma ProgressByLoneMatch(matches0: Matches, stats0: Stats, absorbed: map<int, set<int>>, left: set<GroupKey>,
                            key: GroupKey, rows: seq<int>, n: Normalizer)
    requires forall m :: m in matches0 ==> |matches0[m].columns| == COLUMNS
    requires Progress(matches0, stats0, absorbed, left, n) && key in left && ListsGroup(matches0, rows, key, n)
    requires |rows| == 1
    ensures Progress(matches0, stats0, absorbed, left - {key}, n)
  {
    var only := rows[0];
    assert rows == [only] && SetOf(rows) == {only};
    PreferenceLeTotal(PreferenceOf(matches0, stats0, only, n), PreferenceOf(matches0, stats0, only, n));
    PreferredSurvives(matches0, stats0, rows, only, only, key, n);
    GroupIsListed(matches0, rows, key, n, only);
  }

  lemma EverythingFolded(matches0: Matches, stats0: Stats, absorbed: map<int, set<int>>, n: Normalizer)
    requires WellFormed(matches0, stats0) && absorbed.Keys <= matches0.Keys
    requires Progress(matches0, stats0, absorbed, {}, n)
    ensures absorbed.Keys == Survivors(matches0, stats0, n)
    ensures absorbed == GroupsOf(matches0, absorbed.Keys, n)
  {
    forall id | id in matches0 && KeyOf(id, matches0[id], n).Ungrouped?
      ensures Group(matches0, id, n) == {id} && Survives(matches0, stats0, id, n)
    {
      PreferenceLeTotal(PreferenceOf(matches0, stats0, id, n), PreferenceOf(matches0, stats0, id, n));
    }
  }

  // `group` has been folded into `target`; the other groups are as before.
  ghost predicate IsFolded(before: map<int, set<int>>, after: map<int, set<int>>, group: set<int>, target: int) {
    && target in group && target in after
    && (forall id :: id in after <==> id in before && (id in group ==> id == target))
    && after[target] == group
    && (forall id :: id in after && id != target ==> after[id] == before[id])
  }

  lemma FoldOneMore(before: map<int, set<int>>, after: map<int, set<int>>, group: set<int>, target: int, source: int)
    requires IsFolded(before, after, group, target) && source in before && source !in group
    requires before[source] == {source}
    ensures source in after && IsFolded(before, AbsorbedAfter(after, source, target), group + {source}, target)
  {
  }

  // The source's statistics of the players in `left` are still to be moved.
  ghost predicate Moved(before: Stats, stats: Stats, source: int, target: int, left: set<int>) {
    && (forall k :: k in before ==> |before[k].numbers| == NUMBERS)
    && (forall k :: k in stats ==> |stats[k].numbers| == NUMBERS)
    && (forall p :: p in left ==> (source, p) in before)
    && (forall id, p :: (id, p) in stats <==>
        if id == source then p in left
        else (id, p) in before || (id == target && (source, p) in before && p !in left))
    && (forall id, p :: (id, p) in stats ==>
        stats[(id, p)] == if id == target && p !in left then JoinedStat(before, source, target, p) else before[(id, p)])
  }

  lemma MoveOne(before: Stats, stats: Stats, source: int, target: int, left: set<int>, p: int)
    requires source != target && p in left && Moved(before, stats, source, target, left)
    ensures (source, p) in stats
    ensures var row := stats[(source, p)];
      var moved := stats[(target, p) := if (target, p) in stats then MergedStat(stats[(target, p)], row)
        else row] - {(source, p)};
      Moved(before, moved, source, target, left - {p})
  {
  }

  lemma AllMoved(before: Stats, stats: Stats, source: int, target: int)
    requires source != target && Moved(before, stats, source, target, {})
    ensures stats == MergedStats(before, source, target)
  {
    forall id, p ensures (id, p) in stats <==> (id, p) in MergedStats(before, source, target)
      ensures (id, p) in stats ==> stats[(id, p)] == MergedStats(before, source, target)[(id, p)]
    {
      StatsAfter(before, source, target, id, p);
    }
    forall k: (int, int) ensures k in stats <==> k in MergedStats(before, source, target) {
      assert k == (k.0, k.1);
    }
  }

  // ---------- Normalising again ----------

  lemma LoneRowIsKept(matches0: Matches, stats0: Stats, matches: Matches, stats: Stats, n: Normalizer, id: int)
    requires Normalized(matches0, stats0, matches, stats, n) && id in matches
    ensures id in matches0 && (Group(matches0, id, n) == {id} ==> matches[id] == matches0[id])
  {
    assert GroupsOf(matches0, matches.Keys, n)[id] == Group(matches0, id, n);
  }

  /** What is left of a group was last seen when any of it was, and knows the reference and team any of it knew. */
  lemma TextsLeftOfGroup(matches0: Matches, stats0: Stats, matches: Matches, stats: Stats, n: Normalizer, id: int,
                         p: int, team: bool)
    requires Normalized(matches0, stats0, matches, stats, n) && id in matches
    ensures id in matches0 && IsLatestSeen(matches0, Group(matches0, id, n), matches[id].lastSeen)
    ensures (id, p) in stats ==>
      IsStatFilled(stats0, Group(matches0, id, n), p, team, TextCell(stats[(id, p)], team))
  {
    assert GroupsOf(matches0, matches.Keys, n)[id] == Group(matches0, id, n);
  }

  /** What a normalisation leaves of a group, for one of its columns and one of its players. */
  lemma LeftOfGroup(matches0: Matches, stats0: Stats, matches: Matches, stats: Stats, n: Normalizer, id: int, c: int,
                    p: int, k: int)
    requires Normalized(matches0, stats0, matches, stats, n) && id in matches && 0 <= c < COLUMNS && 0 <= k < NUMBERS
    ensures id in matches0 && |matches[id].columns| == COLUMNS
      && IsFilled(matches0, Group(matches0, id, n), c, matches[id].columns[c])
    ensures (id, p) in stats <==> Appears(stats0, Group(matches0, id, n), p)
    ensures (id, p) in stats ==>
      |stats[(id, p)].numbers| == NUMBERS && IsLargest(stats0, Group(matches0, id, n), p, k, stats[(id, p)].numbers[k])
  {
    assert GroupsOf(matches0, matches.Keys, n)[id] == Group(matches0, id, n);
  }

  lemma OneSurvivorPerGroup(matches: Matches, stats: Stats, n: Normalizer, a: int, b: int)
    requires forall k :: k in matches ==> |matches[k].columns| == COLUMNS
    requires a in Survivors(matches, stats, n) && b in Survivors(matches, stats, n)
    requires KeyOf(a, matches[a], n) == KeyOf(b, matches[b], n)
    ensures a == b
  {
    assert a in Group(matches, b, n) && b in Group(matches, a, n);
    PreferenceLeTotal(PreferenceOf(matches, stats, a, n), PreferenceOf(matches, stats, b, n));
  }

  lemma DistinctKeys(matches0: Matches, stats0: Stats, matches: Matches, stats: Stats, n: Normalizer, a: int, b: int)
    requires Normalized(matches0, stats0, matches, stats, n) && LabelsHold(matches0, n) && a in matches && b in matches
    ensures |matches[a].columns| == COLUMNS && |matches[b].columns| == COLUMNS
    ensures KeyOf(a, matches[a], n) == KeyOf(b, matches[b], n) ==> a == b
  {
    if KeyOf(a, matches[a], n) == KeyOf(b, matches[b], n) {
      OneSurvivorPerGroup(matches0, stats0, n, a, b);
    }
  }

  lemma AloneSurvives(matches: Matches, stats: Stats, n: Normalizer, id: int)
    requires forall k :: k in matches ==> |matches[k].columns| == COLUMNS
    requires id in matches
      && forall m :: m in matches && KeyOf(m, matches[m], n) == KeyOf(id, matches[id], n) ==> m == id
    ensures Group(matches, id, n) == {id} && Survives(matches, stats, id, n)
  {
    PreferenceLeTotal(PreferenceOf(matches, stats, id, n), PreferenceOf(matches, stats, id, n));
  }

  /** After a normalisation every (server, start, label) group has exactly one match. */
  lemma OneMatchPerGroup(matches0: Matches, stats0: Stats, matches: Matches, stats: Stats, n: Normalizer, id: int)
    requires Normalized(matches0, stats0, matches, stats, n) && LabelsHold(matches0, n) && id in matches
    ensures forall k :: k in matches ==> |matches[k].columns| == COLUMNS
    ensures Group(matches, id, n) == {id} && Survives(matches, stats, id, n)
  {
    forall m | m in matches && KeyOf(m, matches[m], n) == KeyOf(id, matches[id], n) ensures m == id {
      DistinctKeys(matches0, stats0, matches, stats, n, m, id);
    }
    AloneSurvives(matches, stats, n, id);
  }

  lemma MatchIsKept(matches1: Matches, stats1: Stats, matches2: Matches, stats2: Stats, n: Normalizer, id: int)
    requires Normalized(matches1, stats1, matches2, stats2, n)
    ensures forall k :: k in matches1 ==> |matches1[k].columns| == COLUMNS
    ensures id in matches1 && Group(matches1, id, n) == {id} && Survives(matches1, stats1, id, n)
      ==> id in matches2 && matches2[id] == matches1[id]
    ensures id in matches2 ==> id in matches1
  {
    if id in matches1 && Group(matches1, id, n) == {id} && Survives(matches1, stats1, id, n) {
      assert id in Survivors(matches1, stats1, n);
      LoneRowIsKept(matches1, stats1, matches2, stats2, n, id);
    }
  }

  // The two stores agree on match `id` and on its statistic of player `p`.
  ghost predicate AgreeAt(matches1: Matches, stats1: Stats, matches2: Matches, stats2: Stats, id: int, p: int) {
    && (id in matches1 <==> id in matches2) && (id in matches1 && id in matches2 ==> matches2[id] == matches1[id])
    && ((id, p) in stats2 <==> (id, p) in stats1)
      && ((id, p) in stats1 && (id, p) in stats2 ==> stats2[(id, p)] == stats1[(id, p)])
  }

  lemma RowStays(matches0: Matches, stats0: Stats, matches1: Matches, stats1: Stats, matches2: Matches, stats2: Stats,
                 n: Normalizer, id: int, p: int)
    requires Normalized(matches0, stats0, matches1, stats1, n) && LabelsHold(matches0, n)
    requires Normalized(matches1, stats1, matches2, stats2, n)
    ensures AgreeAt(matches1, stats1, matches2, stats2, id, p)
  {
    if id in matches1 {
      OneMatchPerGroup(matches0, stats0, matches1, stats1, n, id);
    }
    MatchIsKept(matches1, stats1, matches2, stats2, n, id);
    StatIsKept(matches1, stats1, matches2, stats2, n, id, p);
  }

  lemma SameTables(matches1: Matches, stats1: Stats, matches2: Matches, stats2: Stats)
    requires forall id, p :: AgreeAt(matches1, stats1, matches2, stats2, id, p)
    ensures matches2 == matches1 && stats2 == stats1
  {
    forall id ensures id in matches1 <==> id in matches2
      ensures id in matches1 ==> matches2[id] == matches1[id]
    {
      assert AgreeAt(matches1, stats1, matches2, stats2, id, 0);
    }
    forall k ensures k in stats2 <==> k in stats1
      ensures k in stats2 ==> stats2[k] == stats1[k]
    {
      assert AgreeAt(matches1, stats1, matches2, stats2, k.0, k.1);
      assert k == (k.0, k.1);
    }
  }

  /** Normalising a normalised store changes nothing. */
  lemma NormalizationIsIdempotent(matches0: Matches, stats0: Stats, matches1: Matches, stats1: Stats,
                                  matches2: Matches, stats2: Stats, n: Normalizer)
    requires Normalized(matches0, stats0, matches1, stats1, n) && Normalized(matches1, stats1, matches2, stats2, n)
    requires LabelsHold(matches0, n)
    ensures matches2 == matches1 && stats2 == stats1
  {
    forall id, p ensures AgreeAt(matches1, stats1, matches2, stats2, id, p) {
      RowStays(matches0, stats0, matches1, stats1, matches2, stats2, n, id, p);
    }
    SameTables(matches1, stats1, matches2, stats2);
  }

  lemma StatIsKept(matches1: Matches, stats1: Stats, matches2: Matches, stats2: Stats, n: Normalizer, id: int, p: int)
    requires Normalized(matches1, stats1, matches2, stats2, n)
    requires id in matches1 ==> id in matches2 && Group(matches1, id, n) == {id}
    ensures (id, p) in stats2 <==> (id, p) in stats1
    ensures (id, p) in stats2 ==> stats2[(id, p)] == stats1[(id, p)]
  {
    if id in matches1 {
      assert GroupsOf(matches1, matches2.Keys, n)[id] == {id};
      assert (id, p) in stats2 <==> Appears(stats1, {id}, p);
      assert id in {id};
    }
  }

  // ---------- The values a row has of its own ----------

  predicate KeepsCells(before: MatchRow, after: MatchRow)
    requires |before.columns| == COLUMNS && |after.columns| == COLUMNS
  {
    forall c :: 0 <= c < COLUMNS && before.columns[c] != Null ==> after.columns[c] == before.columns[c]
  }

  ghost predicate KeepsOwn(matches0: Matches, t: Folding)
    requires forall m :: m in matches0 ==> |matches0[m].columns| == COLUMNS
  {
    && WellFormed(t.matches, t.stats) && t.absorbed.Keys == t.matches.Keys
    && forall id :: id in t.matches && id in matches0 ==> KeepsCells(matches0[id], t.matches[id])
  }

  ghost function KeepingOwn(matches0: Matches): Folding -> bool
    requires forall m :: m in matches0 ==> |matches0[m].columns| == COLUMNS
  {
    t => KeepsOwn(matches0, t)
  }

  lemma MergeKeepsOwn(matches0: Matches, t: Folding, source: int, target: int)
    requires forall m :: m in matches0 ==> |matches0[m].columns| == COLUMNS
    requires KeepsOwn(matches0, t) && source in t.absorbed && target in t.absorbed && source != target
    ensures KeepsOwn(matches0, Merge(t, source, target))
  {
    var r := Merge(t, source, target);
    forall id | id in r.matches && id in matches0 ensures KeepsCells(matches0[id], r.matches[id]) {
      assert KeepsCells(matches0[id], t.matches[id]);
    }
  }

  lemma OwnIsKept(matches0: Matches, n: Normalizer)
    requires forall m :: m in matches0 ==> |matches0[m].columns| == COLUMNS
    ensures KeptByMerges(KeepingOwn(matches0), matches0, n)
  {
    forall t: Folding, source, target | KeepsOwn(matches0, t) && Mergeable(matches0, t, source, target, n)
      ensures KeepsOwn(matches0, Merge(t, source, target))
    {
      MergeKeepsOwn(matches0, t, source, target);
    }
  }

  lemma FoldsKeepOwn(matches: Matches, stats: Stats, ids: seq<int>, g: Grouping, n: Normalizer)
    requires WellFormed(matches, stats) && GroupedBy(matches, stats, ids, g, n)
    ensures KeepingOwn(matches)(FoldKeys(Unfolded(matches, stats), g.order, g.groups, PreferencesOf(matches, stats, n)))
  {
    OwnIsKept(matches, n);
    FoldsKeep(KeepingOwn(matches), matches, stats, ids, g, n);
  }

  /** A match that is left keeps every column it had of its own; only its missing ones are filled. */
  lemma NormalizeKeepsOwn(matches: Matches, stats: Stats, n: Normalizer)
    requires WellFormed(matches, stats)
    ensures var (after, statsAfter) := Normalize(matches, stats, n);
      forall id :: id in after && id in matches ==> |after[id].columns| == COLUMNS && KeepsCells(matches[id], after[id])
  {
    var ids := Reading(matches);
    var g := GroupIds(matches, ids, n);
    GroupingIsFoldable(matches, stats, ids, n);
    FoldsKeepOwn(matches, stats, ids, g, n);
  }

  // ---------- Which value fills a missing column ----------

  // The match in the group with the least id that has a value, when `id` itself has none.
  ghost predicate FillsFirst(matches0: Matches, group: set<int>, id: int, c: int, m: int)
    requires 0 <= c < COLUMNS && forall k :: k in matches0 ==> |matches0[k].columns| == COLUMNS
  {
    && m in group && m in matches0 && matches0[m].columns[c] != Null
    && forall k :: k in group && k in matches0 && matches0[k].columns[c] != Null ==> m <= k
  }

  // `cell` is the own value of `id`, without one that of the least id of the group that has one, or else null.
  ghost predicate IsFirstFilled(matches0: Matches, group: set<int>, id: int, c: int, cell: Cell)
    requires 0 <= c < COLUMNS && forall k :: k in matches0 ==> |matches0[k].columns| == COLUMNS
  {
    if id in matches0 && matches0[id].columns[c] != Null then cell == matches0[id].columns[c]
    else if cell == Null then forall k :: k in group && k in matches0 ==> matches0[k].columns[c] == Null
    else exists m :: FillsFirst(matches0, group, id, c, m) && matches0[m].columns[c] == cell
  }

  ghost predicate FillsInOrder(matches0: Matches, t: Folding)
    requires forall k :: k in matches0 ==> |matches0[k].columns| == COLUMNS
  {
    && WellFormed(t.matches, t.stats) && t.absorbed.Keys == t.matches.Keys
    && forall id, c :: id in t.matches && 0 <= c < COLUMNS ==>
      IsFirstFilled(matches0, t.absorbed[id], id, c, t.matches[id].columns[c])
  }

  ghost function FillingInOrder(matches0: Matches): Folding -> bool
    requires forall k :: k in matches0 ==> |matches0[k].columns| == COLUMNS
  {
    t => FillsInOrder(matches0, t)
  }

  // A lone match with a greater id than the others that were folded fills a column only if none of them did.
  lemma FirstFilledOneMore(matches0: Matches, group: set<int>, target: int, source: int, c: int, cell: Cell, more: Cell)
    requires 0 <= c < COLUMNS && forall k :: k in matches0 ==> |matches0[k].columns| == COLUMNS
    requires source in matches0 && target in matches0 && source != target
    requires forall m :: m in group && m != target ==> m < source
    requires IsFirstFilled(matches0, group, target, c, cell) && IsFirstFilled(matches0, {source}, source, c, more)
    ensures IsFirstFilled(matches0, group + {source}, target, c, Coalesce(cell, more))
  {
    if matches0[target].columns[c] == Null {
      if cell != Null {
        var m :| FillsFirst(matches0, group, target, c, m) && matches0[m].columns[c] == cell;
        assert FillsFirst(matches0, group + {source}, target, c, m);
      } else if more != Null {
        assert FillsFirst(matches0, group + {source}, target, c, source);
      }
    }
  }

  lemma MergeFillsInOrder(matches0: Matches, t: Folding, source: int, target: int, n: Normalizer)
    requires forall k :: k in matches0 ==> |matches0[k].columns| == COLUMNS
    requires FillsInOrder(matches0, t) && Mergeable(matches0, t, source, target, n)
    ensures FillsInOrder(matches0, Merge(t, source, target))
  {
    var r := Merge(t, source, target);
    forall id, c | id in r.matches && 0 <= c < COLUMNS
      ensures IsFirstFilled(matches0, r.absorbed[id], id, c, r.matches[id].columns[c])
    {
      assert IsFirstFilled(matches0, t.absorbed[id], id, c, t.matches[id].columns[c]);
      if id == target {
        assert IsFirstFilled(matches0, {source}, source, c, t.matches[source].columns[c]);
        FirstFilledOneMore(matches0, t.absorbed[target], target, source, c, t.matches[target].columns[c],
                           t.matches[source].columns[c]);
      }
    }
  }

  lemma FoldsFillInOrder(matches: Matches, stats: Stats, ids: seq<int>, g: Grouping, n: Normalizer)
    requires WellFormed(matches, stats) && GroupedBy(matches, stats, ids, g, n)
    ensures FillsInOrder(matches,
                         FoldKeys(Unfolded(matches, stats), g.order, g.groups, PreferencesOf(matches, stats, n)))
  {
    forall t: Folding, source, target | FillsInOrder(matches, t) && Mergeable(matches, t, source, target, n)
      ensures FillsInOrder(matches, Merge(t, source, target))
    {
      MergeFillsInOrder(matches, t, source, target, n);
    }
    assert FillsInOrder(matches, Unfolded(matches, stats)) by {
      forall id, c | id in matches && 0 <= c < COLUMNS
        ensures IsFirstFilled(matches, {id}, id, c, matches[id].columns[c]) {
      }
    }
    FoldsKeep(FillingInOrder(matches), matches, stats, ids, g, n);
  }

  /** A match that is left has its own values, and otherwise those of the least id of its identity that has one. */
  lemma NormalizeFillsInOrder(matches: Matches, stats: Stats, n: Normalizer, id: int, c: int)
    requires WellFormed(matches, stats) && 0 <= c < COLUMNS
    requires id in Normalize(matches, stats, n).0
    ensures id in matches && |Normalize(matches, stats, n).0[id].columns| == COLUMNS
    ensures IsFirstFilled(matches, Group(matches, id, n), id, c, Normalize(matches, stats, n).0[id].columns[c])
  {
    var ids := Reading(matches);
    var g := GroupIds(matches, ids, n);
    GroupingIsFoldable(matches, stats, ids, n);
    FoldsFillInOrder(matches, stats, ids, g, n);
    FoldsAreFaithful(matches, stats, ids, g, n);
    var r := NormalizedBy(matches, stats, n, ids);
    assert r.matches == Normalize(matches, stats, n).0;
    AbsorbedIsGroup(matches, stats, r.absorbed, id, n);
  }

  lemma AbsorbedIsGroup(matches: Matches, stats: Stats, absorbed: map<int, set<int>>, id: int, n: Normalizer)
    requires forall m :: m in matches ==> |matches[m].columns| == COLUMNS
    requires Progress(matches, stats, absorbed, {}, n) && id in absorbed && id in matches
    ensures absorbed[id] == Group(matches, id, n)
  {
  }

  // Two matches of one group, the second preferred: what is left is one merge.
  lemma TwoMatchesFold(matches: Matches, stats: Stats, n: Normalizer, source: int, target: int)
    requires WellFormed(matches, stats) && matches.Keys == {source, target} && source != target
    requires Group(matches, target, n) == {source, target} && matches[target].columns[STARTED_AT] != Null
    requires PreferenceLe(PreferenceOf(matches, stats, source, n), PreferenceOf(matches, stats, target, n))
    ensures Normalize(matches, stats, n) == (MatchesAfter(matches, source, target), MergedStats(stats, source, target))
  {
    var ids := Reading(matches);
    TwoRead(matches, n, ids, source, target);
    var x, y := ids[0], ids[1];
    var key, prefs, t := KeyOf(target, matches[target], n), PreferencesOf(matches, stats, n), Unfolded(matches, stats);
    TwoGrouped(matches, n, ids, key);
    TwoRowsFold(t, x, y, source, target, prefs);
    GroupingIsFoldable(matches, stats, ids, n);
    OneKeyFolds(t, key, [x, y], prefs, target);
  }

  lemma TwoRead(matches: Matches, n: Normalizer, ids: seq<int>, source: int, target: int)
    requires forall m :: m in matches ==> |matches[m].columns| == COLUMNS
    requires matches.Keys == {source, target} && source != target && Group(matches, target, n) == {source, target}
    requires matches[target].columns[STARTED_AT] != Null && ListsStarted(matches, ids)
    ensures ids == [source, target] || ids == [target, source]
    ensures KeyOf(source, matches[source], n) == KeyOf(target, matches[target], n)
  {
    assert source in Group(matches, target, n);
    assert source in ids && target in ids;
    assert SetOf(ids) == {source, target};
    TwoElements(ids, source, target);
  }

  lemma {:induction false} DistinctCount(ids: seq<int>)
    requires forall i, j :: 0 <= i < j < |ids| ==> ids[i] != ids[j]
    ensures |SetOf(ids)| == |ids|
  {
    if ids == [] {
      assert SetOf(ids) == {};
    } else {
      var front, last := ids[..|ids| - 1], ids[|ids| - 1];
      DistinctCount(front);
      assert SetOf(ids) == SetOf(front) + {last};
    }
  }

  lemma TwoElements(ids: seq<int>, a: int, b: int)
    requires a != b && SetOf(ids) == {a, b} && forall i, j :: 0 <= i < j < |ids| ==> ids[i] != ids[j]
    ensures ids == [a, b] || ids == [b, a]
  {
    DistinctCount(ids);
    assert ids[0] in SetOf(ids) && ids[1] in SetOf(ids);
  }

  lemma TwoGrouped(matches: Matches, n: Normalizer, ids: seq<int>, key: GroupKey)
    requires forall m :: m in matches ==> |matches[m].columns| == COLUMNS
    requires |ids| == 2 && ids[0] in matches && ids[1] in matches && key.Grouped?
    requires KeyOf(ids[0], matches[ids[0]], n) == key && KeyOf(ids[1], matches[ids[1]], n) == key
    ensures GroupIds(matches, ids, n) == Grouping([key], map[key := ids])
  {
    assert ids[..1] == [ids[0]] && ids[..1][..0] == [] && ids == [ids[0]] + [ids[1]];
    assert GroupIds(matches, ids[..1], n) == AddRow(GroupIds(matches, [], n), key, ids[0]);
  }

  lemma TwoRowsFold(t: Folding, x: int, y: int, source: int, target: int, prefs: map<int, Preference>)
    requires WellFormed(t.matches, t.stats) && source != target && source in t.matches && target in t.matches
    requires (x == source && y == target) || (x == target && y == source)
    requires source in prefs && target in prefs && PreferenceLe(prefs[source], prefs[target])
    requires prefs[source] != prefs[target]
    ensures Best([x, y], prefs) == target && FoldRows(t, [x, y], target) == Merge(t, source, target)
  {
    PreferenceLeTotal(prefs[source], prefs[target]);
    assert [x, y][..1] == [x] && [x][..0] == [];
    assert FoldRows(t, [x], target) == Merge(t, x, target);
  }

  lemma OneKeyFolds(t: Folding, key: GroupKey, rows: seq<int>, prefs: map<int, Preference>, target: int)
    requires WellFormed(t.matches, t.stats) && Foldable([key], map[key := rows], prefs)
    requires |rows| == 2 && rows[0] in prefs && rows[1] in prefs && Best(rows, prefs) == target
    ensures FoldKeys(t, [key], map[key := rows], prefs) == FoldRows(t, rows, target)
  {
    assert [key][..0] == [];
  }

  // A blank row and one that only pretends to have no map: folding the second into the first shows its map name.
  function BlankAndNamed(): (MatchRow, MatchRow) {
    (MatchRow(1, "a", [Null, Null, Text("t"), Null, Null, Text(""), Null, Null, Null, Null, Null], ""),
     MatchRow(1, "b", [Null, Null, Text("t"), Null, Text("carentan"), Text(UNKNOWN_MAP), Null, Null, Null, Null, Null],
              ""))
  }

  /** A group whose label its own merge changes. */
  lemma MergeMayLoseLabel()
    ensures var (target, source) := BlankAndNamed(); var n := Normalizer(t => t, t => t);
      LabelOfRow(target, n) == LabelOfRow(source, n) == UNKNOWN_MAP
        && LabelOfRow(MergedRow(target, source), n) == "carentan"
  {
  }

  // A blank match takes over a map name in its group, and a third match outside the group has just that name.
  ghost predicate TakesThirdsName(matches: Matches, stats: Stats, n: Normalizer, source: int, target: int, third: int) {
    && WellFormed(matches, stats) && source in matches && target in matches && third in matches && source != target
    && target in Survivors(matches, stats, n) && third in Survivors(matches, stats, n)
    && Group(matches, target, n) == {source, target} && Group(matches, third, n) == {third}
    && NamesThird(matches[source], matches[target], matches[third])
  }

  predicate NamesThird(source: MatchRow, target: MatchRow, third: MatchRow)
    requires |source.columns| == COLUMNS && |target.columns| == COLUMNS && |third.columns| == COLUMNS
  {
    && Blank(target) && target.server == third.server
    && target.columns[STARTED_AT] == third.columns[STARTED_AT] != Null
    && source.columns[MAP_NAME] == third.columns[MAP_NAME] != Null && third.columns[MAP_PRETTY_NAME] == Null
  }

  lemma LoneRowStays(matches0: Matches, stats0: Stats, matches: Matches, stats: Stats, n: Normalizer, id: int)
    requires Normalized(matches0, stats0, matches, stats, n) && id in matches && Group(matches0, id, n) == {id}
    ensures id in matches0 && matches[id] == matches0[id]
  {
    assert GroupsOf(matches0, matches.Keys, n)[id] == {id};
  }

  lemma ServerStays(matches0: Matches, stats0: Stats, matches: Matches, stats: Stats, n: Normalizer, id: int)
    requires Normalized(matches0, stats0, matches, stats, n) && id in matches
    ensures id in matches0 && matches[id].server == matches0[id].server
  {
  }

  lemma NameIsTaken(matches: Matches, source: int, target: int, cell: Cell)
    requires forall m :: m in matches ==> |matches[m].columns| == COLUMNS
    requires source in matches && target in matches && IsFilled(matches, {source, target}, MAP_NAME, cell)
    requires matches[target].columns[MAP_NAME] == Null && matches[source].columns[MAP_NAME] != Null
    ensures cell == matches[source].columns[MAP_NAME]
  {
    assert source in {source, target};
  }

  lemma ThirdIsJoined(matches: Matches, stats: Stats, n: Normalizer, source: int, target: int, third: int)
    requires TakesThirdsName(matches, stats, n, source, target, third)
    ensures var (after, _) := Normalize(matches, stats, n);
      && target in after && third in after && target != third && |after[target].columns| == COLUMNS
        && |after[third].columns| == COLUMNS
      && KeyOf(target, after[target], n) == KeyOf(third, after[third], n)
  {
    var (after, statsAfter) := Normalize(matches, stats, n);
    NormalizeIsNormalized(matches, stats, n);
    NormalizeKeepsOwn(matches, stats, n);
    LeftOfGroup(matches, stats, after, statsAfter, n, target, MAP_NAME, 0, 0);
    NameIsTaken(matches, source, target, after[target].columns[MAP_NAME]);
    ServerStays(matches, stats, after, statsAfter, n, target);
    LoneRowStays(matches, stats, after, statsAfter, n, third);
    assert KeepsCells(matches[target], after[target]);
  }

  // Nothing to strip and nothing to fold.
  ghost predicate IsPlain(n: Normalizer) {
    (forall t :: n.strip(t) == t) && forall t :: n.fold(t) == t
  }

  // The two rows again, the blank one preferred, and a third match on the map they turn out to be on.
  function BlankNamedAndThird(): Matches {
    map[1 := BlankAndNamed().1, 2 := BlankAndNamed().0,
        3 := MatchRow(1, "c", [Null, Null, Text("t"), Null, Text("carentan"), Null, Null, Null, Null, Null, Null], "")]
  }

  lemma GroupsOfThree(n: Normalizer)
    requires IsPlain(n)
    ensures var m := BlankNamedAndThird();
      && WellFormed(m, map[]) && Group(m, 1, n) == {1, 2} && Group(m, 2, n) == {1, 2} && Group(m, 3, n) == {3}
  {
    var m := BlankNamedAndThird();
    assert KeyOf(1, m[1], n) == KeyOf(2, m[2], n) == Grouped(1, "t", UNKNOWN_MAP)
      && KeyOf(3, m[3], n) == Grouped(1, "t", "carentan");
  }

  lemma PreferenceOfThree(id: int, n: Normalizer)
    requires id in {1, 2, 3} && IsPlain(n)
    ensures PreferenceOf(BlankNamedAndThird(), map[], id, n) == Preference(false, false, 0, "", id)
  {
    var stats: Stats := map[];
    var row := BlankNamedAndThird()[id];
    assert row.externalId[0] > '9';
    assert (set k | k in stats && k.0 == id) == {};
  }

  lemma SurvivorsOfThree(n: Normalizer)
    requires IsPlain(n)
    ensures WellFormed(BlankNamedAndThird(), map[]) && {2, 3} <= Survivors(BlankNamedAndThird(), map[], n)
  {
    var m := BlankNamedAndThird();
    GroupsOfThree(n);
    PreferenceOfThree(1, n);
    PreferenceOfThree(2, n);
    PreferenceOfThree(3, n);
    assert Survives(m, map[], 2, n) && Survives(m, map[], 3, n);
  }

  /** With such rows a normalisation leaves two matches in one group, which the next one folds. */
  lemma NormalizationMayLeaveTwo(n: Normalizer)
    requires IsPlain(n)
    ensures WellFormed(BlankNamedAndThird(), map[])
    ensures var (after, _) := Normalize(BlankNamedAndThird(), map[], n);
      && 2 in after && 3 in after && |after[2].columns| == COLUMNS && |after[3].columns| == COLUMNS
      && KeyOf(2, after[2], n) == KeyOf(3, after[3], n)
  {
    GroupsOfThree(n);
    SurvivorsOfThree(n);
    ThirdIsJoined(BlankNamedAndThird(), map[], n, 1, 2, 3);
  }
}
