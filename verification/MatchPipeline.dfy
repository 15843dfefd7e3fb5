/**
 The materializer's player statistics for one match together with the audit of the same match:
 two separately written computations over the same stored events.
 */
module MatchPipeline {
  import opened Options
  import opened Counting
  import opened AdminLogEvents
  import opened PlayerStats
  import opened StatsConservation
  import opened ActiveTime
  import Audit = SweepAudit
  import Pairing = BoundaryPairing

  datatype StatRow = StatRow(stat: Stat, activeSeconds: int, source: Source)

  function StatsIn(rows: seq<StatRow>): seq<Stat> {
    seq(|rows|, i requires 0 <= i < |rows| => rows[i].stat)
  }

  // A match with at least one bound reads its range; one without bounds has no statistics.
  ghost predicate IsMaterialized(rows: seq<StatRow>, log: seq<Event>, b: Bounds, key: Keying) {
    if HasBound(b) then IsStatsOf(StatsIn(rows), Select(log, b), key) else rows == []
  }

  // Active seconds lie within the match, and are those the player was online when they can be measured.
  ghost predicate IsTimed(log: seq<Event>, b: Bounds, r: StatRow) {
    && TimesPlayer(log, b, r.stat.id, r.stat.first, r.stat.last, r.activeSeconds, r.source)
    && (b.lower.Some? && b.upper.Some? && b.lower.value <= b.upper.value ==>
      0 <= r.activeSeconds <= b.upper.value - b.lower.value)
    && (r.source != EventSpan ==>
      && UsesClock(b, r.stat.id)
      && r.activeSeconds == ConnectedSeconds(LinksOf(log, r.stat.id), false, b.lower.value, b.upper.value))
  }

  /** _derive_player_stats_for_match with the active time of every player. */
  method DerivePlayerStatsForMatch(log: seq<Event>, b: Bounds, key: Keying) returns (rows: seq<StatRow>)
    requires TimeSorted(log)
    ensures IsMaterialized(rows, log, b, key)
    ensures forall r :: r in rows ==> IsTimed(log, b, r) && SaysWhatRowsSay(r.stat, Select(log, b), key)
    ensures forall p :: HasRow(StatsIn(rows), p) <==>
      (b.lower.Some? || b.upper.Some?) && exists e :: e in log && TakesPart(e, p, key) && Within(e.time, b)
  {
    rows := [];
    if !HasBound(b) {
      return;
    }
    var stats := DerivePlayerStats(Select(log, b), key);
    StatsSayWhatRowsSay(stats, Select(log, b), key);
    PartsInSelection(log, b, key);
    forall i | 0 <= i < |stats| ensures SeenWithin(stats[i], b) {
      SeenWithinMatch(stats, log, b, key, i);
    }
    rows := TimePlayers(log, b, stats);
    forall r | r in rows ensures r.stat in stats {
      var i :| 0 <= i < |rows| && rows[i] == r;
      assert StatsIn(rows)[i] == r.stat;
    }
  }

  lemma PartsInSelection(log: seq<Event>, b: Bounds, key: Keying)
    ensures forall p ::
      TakesPartIn(Select(log, b), p, key) <==> exists e :: e in log && TakesPart(e, p, key) && Within(e.time, b)
  {
    forall e ensures e in Select(log, b) <==> e in log && Within(e.time, b) {
      SelectKeepsExactly(log, b, e);
    }
  }

  ghost predicate SeenWithin(stat: Stat, b: Bounds) {
    Within(stat.first, b) && Within(stat.last, b)
  }

  method TimePlayers(log: seq<Event>, b: Bounds, stats: seq<Stat>) returns (rows: seq<StatRow>)
    requires TimeSorted(log) && forall i :: 0 <= i < |stats| ==> SeenWithin(stats[i], b)
    ensures StatsIn(rows) == stats && forall r :: r in rows ==> IsTimed(log, b, r)
  {
    rows := [];
    for i := 0 to |stats|
      invariant |rows| == i && forall j :: 0 <= j < i ==> rows[j].stat == stats[j]
      invariant forall r :: r in rows ==> IsTimed(log, b, r)
    {
      var row := TimePlayer(log, b, stats[i]);
      rows := rows + [row];
    }
  }

  method TimePlayer(log: seq<Event>, b: Bounds, stat: Stat) returns (row: StatRow)
    requires TimeSorted(log) && SeenWithin(stat, b)
    ensures row.stat == stat && IsTimed(log, b, row)
  {
    var seconds, source := BuildPlayerActiveTime(log, b, stat.id, stat.first, stat.last);
    row := StatRow(stat, seconds, source);
  }

  /**
   For every match the audit's selected_kills, taken from prefix totals of one pass, equals the
   kills plus teamkills and the deaths that the materializer credited to the match's players.
   */
  lemma AuditedKillsAreCreditedKills(log: seq<Event>, ms: seq<Audit.Match>, metrics: map<string, Audit.Metric>, i: int,
                                     rows: seq<StatRow>, key: Keying)
    requires Audit.MetricsFor(log, ms, metrics) && Audit.LastWithKey(ms, i) && HasBound(ms[i].bounds)
    requires IsMaterialized(rows, log, ms[i].bounds, key)
    ensures var m, t := metrics[ms[i].key], TotalsOf(StatsIn(rows));
      m.selectedKills == t.kills + t.teamkills == t.deaths
  {
    KillsAreConserved(StatsIn(rows), Select(log, ms[i].bounds), key);
  }

  lemma {:induction false} OnceCoveredKills(es: seq<Event>, ms: seq<Audit.Match>)
    requires forall e :: e in es ==> Audit.Multiplicity(ms, e.time) <= 1
    ensures Audit.KillMultiplicityTotal(es, ms) + CountIf(es, Audit.KillInShare(ms, 0)) == Kills(es)
  {
    if es != [] {
      OnceCoveredKills(es[..|es| - 1], ms);
      assert es[|es| - 1] in es;
    }
  }

  lemma KillsCountedOnce(es: seq<Event>, ms: seq<Audit.Match>)
    requires forall e :: e in es ==> Audit.Multiplicity(ms, e.time) <= 1
    ensures Audit.SelectedKillTotal(es, ms) + Audit.NaiveTally(es, ms).kills0 == Kills(es)
  {
    Audit.SelectionsEqualMultiplicities(es, ms);
    OnceCoveredKills(es, ms);
  }

  /**
   When the audit reports no overlap (maximum multiplicity at most one), the selected kills of
   all matches and the uncovered kills make up the kills streamed: no kill is counted twice.
   */
  lemma NoKillCountedTwice(es: seq<Event>, ms: seq<Audit.Match>, maximum: nat, example: Option<Audit.Example>)
    requires Audit.IsMaximum(es, ms, maximum, example) && maximum <= 1
    ensures Audit.SelectedKillTotal(es, ms) + Audit.NaiveTally(es, ms).kills0 == Kills(es)
  {
    KillsCountedOnce(es, ms);
  }

  // ---------- Matches that were paired do not overlap in the audit ----------

  // The ranges of the closed matches; `key` names a match.
  function ClosedRanges(ms: seq<Pairing.Derived>, key: Pairing.Derived -> string): seq<Audit.Match> {
    if ms == [] then []
    else
      var m := ms[|ms| - 1];
      ClosedRanges(ms[..|ms| - 1], key)
      + if m.start.Some? && m.end.Some? then [Audit.Match(key(m), Bounds(m.start.value.time, m.end.value.time))] else []
  }

  ghost predicate IsBoundaryTime(rows: seq<Pairing.Boundary>, t: int) {
    exists b :: b in rows && b.time == Some(t)
  }

  // The instant is in the range of the match.
  ghost predicate InRange(m: Pairing.Derived, t: int) {
    m.start.Some? && m.end.Some? && Within(t, Bounds(m.start.value.time, m.end.value.time))
  }

  lemma {:induction false} CoversOneMore(ms: seq<Pairing.Derived>, key: Pairing.Derived -> string, t: int)
    requires ms != []
    ensures Audit.Multiplicity(ClosedRanges(ms, key), t)
         == Audit.Multiplicity(ClosedRanges(ms[..|ms| - 1], key), t) + if InRange(ms[|ms| - 1], t) then 1 else 0
  {
    var m, front := ms[|ms| - 1], ClosedRanges(ms[..|ms| - 1], key);
    if m.start.Some? && m.end.Some? {
      CountIfPush(front, Audit.Match(key(m), Bounds(m.start.value.time, m.end.value.time)), Audit.Covers(t));
    } else {
      assert front + [] == front;
    }
  }

  lemma {:induction false} NoneCovers(ms: seq<Pairing.Derived>, key: Pairing.Derived -> string, t: int)
    requires forall i :: 0 <= i < |ms| ==> !InRange(ms[i], t)
    ensures Audit.Multiplicity(ClosedRanges(ms, key), t) == 0
  {
    if ms != [] {
      NoneCovers(ms[..|ms| - 1], key, t);
      CoversOneMore(ms, key, t);
    }
  }

  // An instant that is no boundary and lies in the last range lies in no other.
  lemma {:induction false} LastCoversAlone(ms: seq<Pairing.Derived>, t: int, i: int)
    requires ms != [] && Pairing.TimesAscend(Pairing.Flatten(ms)) && !IsBoundaryTime(Pairing.Flatten(ms), t)
    requires InRange(ms[|ms| - 1], t) && 0 <= i < |ms| - 1
    ensures !InRange(ms[i], t)
  {
    if Pairing.IsClosed(ms[i]) {
      Pairing.PiecesAreOrdered(ms, i, |ms| - 1);
      Pairing.PieceRowsOccur(ms, i);
    }
  }

  lemma {:induction false} PiecesCoverOnce(ms: seq<Pairing.Derived>, key: Pairing.Derived -> string, t: int)
    requires Pairing.TimesAscend(Pairing.Flatten(ms)) && !IsBoundaryTime(Pairing.Flatten(ms), t)
    ensures Audit.Multiplicity(ClosedRanges(ms, key), t) <= 1
  {
    if ms != [] {
      var front := ms[..|ms| - 1];
      FrontOfPieces(ms, t);
      PiecesCoverOnce(front, key, t);
      CoversOneMore(ms, key, t);
      if InRange(ms[|ms| - 1], t) {
        forall i | 0 <= i < |front| ensures !InRange(front[i], t) {
          LastCoversAlone(ms, t, i);
        }
        NoneCovers(front, key, t);
      }
    }
  }

  lemma {:induction false} FrontOfPieces(ms: seq<Pairing.Derived>, t: int)
    requires ms != [] && Pairing.TimesAscend(Pairing.Flatten(ms)) && !IsBoundaryTime(Pairing.Flatten(ms), t)
    ensures var rows := Pairing.Flatten(ms[..|ms| - 1]); Pairing.TimesAscend(rows) && !IsBoundaryTime(rows, t)
  {
    var all, rows := Pairing.Flatten(ms), Pairing.Flatten(ms[..|ms| - 1]);
    assert all == rows + Pairing.Rows(ms[|ms| - 1]);
    forall i | 0 <= i < |rows| ensures rows[i] == all[i] {
    }
    forall b | b in rows ensures b in all {
    }
  }

  /**
   The closed matches the materializer derives for one target never cover an instant twice, but for its
   boundaries.
   */
  lemma PairedMatchesCoverOnce(rows: seq<Pairing.Boundary>, target: string, key: Pairing.Derived -> string, t: int)
    requires Pairing.TimesAscend(Pairing.OfTarget(rows, target)) && !IsBoundaryTime(Pairing.OfTarget(rows, target), t)
    ensures Audit.Multiplicity(ClosedRanges(Pairing.MatchesOf(Pairing.Derive(rows), target), key), t) <= 1
  {
    Pairing.EachTargetIsPaired(rows, target);
    PiecesCoverOnce(Pairing.MatchesOf(Pairing.Derive(rows), target), key, t);
  }

  /** So the audit counts no kill of a target twice for them, when no kill falls on a boundary. */
  lemma PairedMatchesCountKillsOnce(es: seq<Event>, rows: seq<Pairing.Boundary>, target: string,
                                    key: Pairing.Derived -> string)
    requires Pairing.TimesAscend(Pairing.OfTarget(rows, target))
    requires forall e :: e in es ==> !IsBoundaryTime(Pairing.OfTarget(rows, target), e.time)
    ensures var ranges := ClosedRanges(Pairing.MatchesOf(Pairing.Derive(rows), target), key);
      Audit.SelectedKillTotal(es, ranges) + Audit.NaiveTally(es, ranges).kills0 == Kills(es)
  {
    forall e | e in es
      ensures Audit.Multiplicity(ClosedRanges(Pairing.MatchesOf(Pairing.Derive(rows), target), key), e.time) <= 1
    {
      PairedMatchesCoverOnce(rows, target, key, e.time);
    }
    KillsCountedOnce(es, ClosedRanges(Pairing.MatchesOf(Pairing.Derive(rows), target), key));
  }
}
