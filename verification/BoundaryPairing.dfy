/**
 Pairing match_start and match_end rows into matches: the materializer's state machine
 (_derive_admin_log_matches), target by target and as a whole.
 */
module BoundaryPairing {
  import opened Options
  import opened Counting

  datatype Edge = Start | End

  // One stored boundary row; `server` is the external server id the row carries.
  datatype Boundary = Boundary(id: int, target: string, server: string, time: Option<int>, edge: Edge)

  // A derived match is known by the rows it was built from; every other column copies them.
  datatype Derived = Derived(start: Option<Boundary>, end: Option<Boundary>)

  ghost predicate WellFormed(m: Derived) {
    && (m.start.Some? || m.end.Some?)
    && (m.start.Some? ==> m.start.value.edge == Start)
    && (m.end.Some? ==> m.end.value.edge == End)
    && (m.start.Some? && m.end.Some? ==> m.start.value.target == m.end.value.target)
  }

  function TargetOf(m: Derived): string {
    if m.end.Some? then m.end.value.target
    else if m.start.Some? then m.start.value.target
    else ""
  }

  // ---------- The state machine over all targets ----------

  // open_by_target in insertion order: one open start per target.
  function OpenFor(open: seq<Boundary>, target: string): Option<Boundary> {
    if open == [] then None
    else if open[|open| - 1].target == target then Some(open[|open| - 1])
    else OpenFor(open[..|open| - 1], target)
  }

  function Without(open: seq<Boundary>, target: string): seq<Boundary> {
    if open == [] then []
    else Without(open[..|open| - 1], target) +
         (if open[|open| - 1].target == target then [] else [open[|open| - 1]])
  }

  datatype State = State(open: seq<Boundary>, matches: seq<Derived>)

  function Step(s: State, row: Boundary): State {
    var previous, rest := OpenFor(s.open, row.target), Without(s.open, row.target);
    match row.edge
    case Start =>
      State(rest + [row], s.matches + if previous.Some? then [Derived(previous, None)] else [])
    case End =>
      State(rest, s.matches + [Derived(previous, Some(row))])
  }

  function Run(rows: seq<Boundary>): State {
    if rows == [] then State([], []) else Step(Run(rows[..|rows| - 1]), rows[|rows| - 1])
  }

  function LoneStarts(open: seq<Boundary>): seq<Derived> {
    seq(|open|, i requires 0 <= i < |open| => Derived(Some(open[i]), None))
  }

  function Derive(rows: seq<Boundary>): seq<Derived> {
    Run(rows).matches + LoneStarts(Run(rows).open)
  }

  /** The materializer's loop. */
  method DeriveAdminLogMatches(rows: seq<Boundary>) returns (matches: seq<Derived>)
    ensures matches == Derive(rows)
  {
    matches := [];
    var open: seq<Boundary> := [];
    for i := 0 to |rows|
      invariant State(open, matches) == Run(rows[..i])
    {
      assert rows[..i + 1] == rows[..i] + [rows[i]];
      RunPush(rows[..i], rows[i]);
      StepByCase(State(open, matches), rows[i]);
      var row := rows[i];
      var previous := OpenFor(open, row.target);
      if row.edge == Start {
        if previous.Some? {
          open := Without(open, row.target);
          matches := matches + [Derived(previous, None)];
        }
        open := open + [row];
      } else {
        open := Without(open, row.target);
        matches := matches + [Derived(previous, Some(row))];
      }
    }
    assert rows[..|rows|] == rows;
    ghost var closed := matches;
    for i := 0 to |open|
      invariant matches == closed + LoneStarts(open)[..i]
    {
      matches := matches + [Derived(Some(open[i]), None)];
    }
  }

  lemma StepByCase(s: State, row: Boundary)
    ensures var previous := OpenFor(s.open, row.target);
      Step(s, row) == match row.edge
                      case Start =>
                        if previous.None? then State(s.open + [row], s.matches)
                        else State(Without(s.open, row.target) + [row], s.matches + [Derived(previous, None)])
                      case End => State(Without(s.open, row.target), s.matches + [Derived(previous, Some(row))])
  {
    if OpenFor(s.open, row.target).None? {
      NothingOpen(s.open, row.target);
    }
  }

  lemma {:induction false} NothingOpen(open: seq<Boundary>, target: string)
    requires OpenFor(open, target).None?
    ensures Without(open, target) == open
  {
    if open != [] {
      NothingOpen(open[..|open| - 1], target);
    }
  }

  // ---------- One target at a time ----------

  function OfTarget(rows: seq<Boundary>, target: string): seq<Boundary> {
    if rows == [] then []
    else OfTarget(rows[..|rows| - 1], target) +
         (if rows[|rows| - 1].target == target then [rows[|rows| - 1]] else [])
  }

  function MatchesOf(matches: seq<Derived>, target: string): seq<Derived> {
    if matches == [] then []
    else MatchesOf(matches[..|matches| - 1], target) +
         (if TargetOf(matches[|matches| - 1]) == target then [matches[|matches| - 1]] else [])
  }

  // What a match contributes to its target's row sequence.
  function Rows(m: Derived): seq<Boundary> {
    (if m.start.Some? then [m.start.value] else []) + (if m.end.Some? then [m.end.value] else [])
  }

  function Flatten(matches: seq<Derived>): seq<Boundary> {
    if matches == [] then [] else Flatten(matches[..|matches| - 1]) + Rows(matches[|matches| - 1])
  }

  // No lone start is directly followed by a lone end: the two would have been paired.
  ghost predicate NothingLeftToPair(matches: seq<Derived>) {
    forall i :: 0 <= i < |matches| - 1 ==> matches[i].end.Some? || matches[i + 1].start.Some?
  }

  /**
   What it means to pair one target's rows: the matches cut the row sequence into consecutive
   pieces, start before end, and leave no start next to its end unpaired.
   */
  ghost predicate Pairs(matches: seq<Derived>, rows: seq<Boundary>) {
    && (forall m :: m in matches ==> WellFormed(m))
    && Flatten(matches) == rows
    && NothingLeftToPair(matches)
  }

  ghost predicate StateInvariant(s: State) {
    && (forall m :: m in s.matches ==> WellFormed(m))
    && (forall b :: b in s.open ==> b.edge == Start)
    && (forall i, j :: 0 <= i < j < |s.open| ==> s.open[i].target != s.open[j].target)
  }

  lemma OnlyTheLast(open: seq<Boundary>)
    requires open != [] && forall i, j :: 0 <= i < j < |open| ==> open[i].target != open[j].target
    ensures forall b :: b in open[..|open| - 1] ==> b.target != open[|open| - 1].target
  {
    forall b | b in open[..|open| - 1] ensures b.target != open[|open| - 1].target {
      var i :| 0 <= i < |open| - 1 && open[i] == b;
    }
  }

  lemma {:induction false} WithoutKeepsOthers(open: seq<Boundary>, target: string)
    requires forall i, j :: 0 <= i < j < |open| ==> open[i].target != open[j].target
    ensures forall b :: b in Without(open, target) <==> b in open && b.target != target
    ensures forall i, j :: 0 <= i < j < |Without(open, target)| ==>
      Without(open, target)[i].target != Without(open, target)[j].target
  {
    if open != [] {
      var front, last := open[..|open| - 1], open[|open| - 1];
      WithoutKeepsOthers(front, target);
      assert open == front + [last];
      OnlyTheLast(open);
    }
  }

  lemma {:induction false} OpenForFinds(open: seq<Boundary>, target: string)
    ensures OpenFor(open, target).Some? ==>
      OpenFor(open, target).value in open && OpenFor(open, target).value.target == target
    ensures OpenFor(open, target).None? ==> forall b :: b in open ==> b.target != target
  {
    if open != [] && open[|open| - 1].target != target {
      OpenForFinds(open[..|open| - 1], target);
      assert open == open[..|open| - 1] + [open[|open| - 1]];
    }
  }

  lemma {:induction false} RunKeepsInvariant(rows: seq<Boundary>)
    ensures StateInvariant(Run(rows))
  {
    if rows != [] {
      RunKeepsInvariant(rows[..|rows| - 1]);
      StepKeepsInvariant(Run(rows[..|rows| - 1]), rows[|rows| - 1]);
    }
  }

  lemma StepKeepsInvariant(s: State, row: Boundary)
    requires StateInvariant(s)
    ensures StateInvariant(Step(s, row))
  {
    WithoutKeepsOthers(s.open, row.target);
    OpenForFinds(s.open, row.target);
    var rest, previous := Without(s.open, row.target), OpenFor(s.open, row.target);
    forall i | 0 <= i < |rest| ensures rest[i].target != row.target && rest[i].edge == Start {
      assert rest[i] in rest;
    }
    assert previous.Some? ==> WellFormed(Derived(previous, None));
    assert row.edge == End ==> WellFormed(Derived(previous, Some(row)));
  }

  lemma DerivedAreWellFormed(rows: seq<Boundary>)
    ensures forall m :: m in Derive(rows) ==> WellFormed(m)
  {
    RunKeepsInvariant(rows);
  }

  lemma {:induction false} MatchesOfConcat(xs: seq<Derived>, ys: seq<Derived>, target: string)
    ensures MatchesOf(xs + ys, target) == MatchesOf(xs, target) + MatchesOf(ys, target)
  {
    if ys == [] {
      assert xs + ys == xs;
    } else {
      var front, last := ys[..|ys| - 1], ys[|ys| - 1];
      MatchesOfConcat(xs, front, target);
      assert (xs + ys)[..|xs + ys| - 1] == xs + front && (xs + ys)[|xs + ys| - 1] == last;
    }
  }

  lemma {:induction false} LoneStartsOf(open: seq<Boundary>, target: string)
    requires forall i, j :: 0 <= i < j < |open| ==> open[i].target != open[j].target
    ensures MatchesOf(LoneStarts(open), target)
         == if OpenFor(open, target).Some? then [Derived(OpenFor(open, target), None)] else []
  {
    if open != [] {
      var front, last := open[..|open| - 1], open[|open| - 1];
      assert LoneStarts(open)[..|open| - 1] == LoneStarts(front);
      LoneStartsOf(front, target);
      OpenForFinds(front, target);
    }
  }

  lemma {:induction false} OpenForWithout(open: seq<Boundary>, removed: string, target: string)
    ensures OpenFor(Without(open, removed), target) == if removed == target then None else OpenFor(open, target)
  {
    if open != [] {
      var rest, last := Without(open[..|open| - 1], removed), open[|open| - 1];
      OpenForWithout(open[..|open| - 1], removed, target);
      assert (rest + [last])[..|rest|] == rest;
      assert rest + [] == rest;
    }
  }

  // What one row adds to the matches of its own target.
  function Closed(open: Option<Boundary>, row: Boundary): seq<Derived> {
    match row.edge
    case Start => if open.Some? then [Derived(open, None)] else []
    case End => [Derived(open, Some(row))]
  }

  lemma ClosedIsOfTarget(open: Option<Boundary>, row: Boundary, target: string)
    requires open.Some? ==> open.value.target == row.target && open.value.edge == Start
    ensures MatchesOf(Closed(open, row), target) == if row.target == target then Closed(open, row) else []
  {
    var added := Closed(open, row);
    if added != [] {
      assert added == [added[0]] && added[..0] == [];
      assert TargetOf(added[0]) == row.target;
    }
  }

  lemma MatchesViewedByTarget(s: State, row: Boundary, target: string)
    requires forall b :: b in s.open ==> b.edge == Start
    ensures MatchesOf(Step(s, row).matches, target)
         == MatchesOf(s.matches, target) + if row.target == target then Closed(OpenFor(s.open, target), row) else []
  {
    OpenForFinds(s.open, row.target);
    ClosedIsOfTarget(OpenFor(s.open, row.target), row, target);
    MatchesOfConcat(s.matches, Closed(OpenFor(s.open, row.target), row), target);
  }

  lemma OpenViewedByTarget(s: State, row: Boundary, target: string)
    ensures OpenFor(Step(s, row).open, target)
         == if row.target != target then OpenFor(s.open, target) else if row.edge == Start then Some(row) else None
  {
    var rest := Without(s.open, row.target);
    OpenForWithout(s.open, row.target, target);
    assert (rest + [row])[..|rest|] == rest;
  }

  // The pieces of `matches` followed by the open start make up the target's rows so far.
  ghost predicate TargetView(matches: seq<Derived>, open: Option<Boundary>, rows: seq<Boundary>) {
    && Flatten(matches) + (if open.Some? then [open.value] else []) == rows
    && NothingLeftToPair(matches)
    && (matches != [] && matches[|matches| - 1].end.None? ==> open.Some?)
  }

  lemma TargetViewStep(matches: seq<Derived>, open: Option<Boundary>, rows: seq<Boundary>, row: Boundary)
    requires TargetView(matches, open, rows)
    ensures TargetView(matches + Closed(open, row), if row.edge == Start then Some(row) else None, rows + [row])
  {
    var added := Closed(open, row);
    if added != [] {
      assert (matches + added)[..|matches|] == matches;
    } else {
      assert matches + added == matches;
    }
  }

  lemma {:induction false} RunViewedByTarget(rows: seq<Boundary>, target: string)
    ensures TargetView(MatchesOf(Run(rows).matches, target), OpenFor(Run(rows).open, target), OfTarget(rows, target))
  {
    if rows != [] {
      var front, row := rows[..|rows| - 1], rows[|rows| - 1];
      var s := Run(front);
      RunViewedByTarget(front, target);
      RunKeepsInvariant(front);
      MatchesViewedByTarget(s, row, target);
      OpenViewedByTarget(s, row, target);
      if row.target == target {
        TargetViewStep(MatchesOf(s.matches, target), OpenFor(s.open, target), OfTarget(front, target), row);
      } else {
        assert MatchesOf(s.matches, target) + [] == MatchesOf(s.matches, target);
        assert OfTarget(front, target) + [] == OfTarget(front, target);
      }
    }
  }

  lemma {:induction false} MatchesOfKeepsExactly(matches: seq<Derived>, target: string)
    ensures forall m :: m in MatchesOf(matches, target) <==> m in matches && TargetOf(m) == target
  {
    if matches != [] {
      MatchesOfKeepsExactly(matches[..|matches| - 1], target);
      assert matches == matches[..|matches| - 1] + [matches[|matches| - 1]];
    }
  }

  lemma FinishPairs(matches: seq<Derived>, open: Option<Boundary>, rows: seq<Boundary>)
    requires TargetView(matches, open, rows)
    ensures var whole := matches + if open.Some? then [Derived(open, None)] else [];
      Flatten(whole) == rows && NothingLeftToPair(whole)
  {
    if open.Some? {
      assert (matches + [Derived(open, None)])[..|matches|] == matches;
    } else {
      assert matches + [] == matches;
    }
  }

  /** For any interleaving of targets, the matches of one target pair that target's rows. */
  lemma EachTargetIsPaired(rows: seq<Boundary>, target: string)
    ensures Pairs(MatchesOf(Derive(rows), target), OfTarget(rows, target))
  {
    var s := Run(rows);
    RunViewedByTarget(rows, target);
    RunKeepsInvariant(rows);
    MatchesOfConcat(s.matches, LoneStarts(s.open), target);
    LoneStartsOf(s.open, target);
    FinishPairs(MatchesOf(s.matches, target), OpenFor(s.open, target), OfTarget(rows, target));
    assert forall m :: m in MatchesOf(Derive(rows), target) ==> WellFormed(m) by {
      DerivedAreWellFormed(rows);
      MatchesOfKeepsExactly(Derive(rows), target);
    }
  }

  // ---------- Consequences for the materializer ----------

  ghost predicate EndsWithLoneStart(matches: seq<Derived>) {
    matches != [] && matches[|matches| - 1].end.None?
  }

  lemma LastRowOfPieces(matches: seq<Derived>)
    requires matches != [] && forall m :: m in matches ==> WellFormed(m)
    ensures Flatten(matches) != []
    ensures Flatten(matches)[|Flatten(matches)| - 1].edge == Start <==> EndsWithLoneStart(matches)
  {
    assert WellFormed(matches[|matches| - 1]);
  }

  lemma DroppingLastPiece(matches: seq<Derived>, rows: seq<Boundary>)
    requires Pairs(matches, rows) && matches != []
    ensures var front := matches[..|matches| - 1];
      Pairs(front, Flatten(front)) && rows == Flatten(front) + Rows(matches[|matches| - 1])
    ensures rows != []
    ensures var m := matches[|matches| - 1];
      && WellFormed(m)
      && (m.end.None? ==> m.start == Some(rows[|rows| - 1]))
      && (m.end.Some? ==> m.end == Some(rows[|rows| - 1]))
      && (IsClosed(m) ==> |rows| > 1 && m.start == Some(rows[|rows| - 2]))
  {
    assert WellFormed(matches[|matches| - 1]);
    var front := matches[..|matches| - 1];
    forall m | m in front ensures WellFormed(m) {
      assert m in matches;
    }
    forall i | 0 <= i < |front| - 1 ensures front[i].end.Some? || front[i + 1].start.Some? {
      assert matches[i].end.Some? || matches[i + 1].start.Some?;
    }
  }

  lemma LoneEndNeedsNoOpenStart(matches: seq<Derived>, rows: seq<Boundary>)
    requires Pairs(matches, rows) && matches != []
    requires matches[|matches| - 1].start.None?
    ensures |rows| > 1 ==> rows[|rows| - 2].edge == End
  {
    DroppingLastPiece(matches, rows);
    var front := matches[..|matches| - 1];
    assert WellFormed(matches[|matches| - 1]);
    if |rows| > 1 {
      assert Flatten([]) == [];
      LastRowOfPieces(front);
      var last := |matches| - 2;
      assert matches[last] == front[|front| - 1];
      assert matches[last + 1].start.Some? || matches[last].end.Some?;
    }
  }

  lemma SameLastPiece(xs: seq<Derived>, ys: seq<Derived>, rows: seq<Boundary>)
    requires Pairs(xs, rows) && Pairs(ys, rows) && xs != [] && ys != []
    ensures xs[|xs| - 1] == ys[|ys| - 1]
  {
    DroppingLastPiece(xs, rows);
    DroppingLastPiece(ys, rows);
    var x, y := xs[|xs| - 1], ys[|ys| - 1];
    if x.start.None? {
      LoneEndNeedsNoOpenStart(xs, rows);
    }
    if y.start.None? {
      LoneEndNeedsNoOpenStart(ys, rows);
    }
  }

  /** The pairing of a row sequence is unique, so EachTargetIsPaired determines the matches completely. */
  lemma {:induction false} PairingIsUnique(xs: seq<Derived>, ys: seq<Derived>, rows: seq<Boundary>)
    requires Pairs(xs, rows) && Pairs(ys, rows)
    ensures xs == ys
  {
    if xs != [] {
      LastRowOfPieces(xs);
    }
    if ys != [] {
      LastRowOfPieces(ys);
    }
    if rows != [] {
      assert Flatten([]) == [];
      SameLastPiece(xs, ys, rows);
      DroppingLastPiece(xs, rows);
      DroppingLastPiece(ys, rows);
      assert WellFormed(xs[|xs| - 1]);
      var n := |rows| - |Rows(xs[|xs| - 1])|;
      assert Flatten(xs[..|xs| - 1]) == rows[..n] == Flatten(ys[..|ys| - 1]);
      PairingIsUnique(xs[..|xs| - 1], ys[..|ys| - 1], rows[..n]);
      assert xs == xs[..|xs| - 1] + [xs[|xs| - 1]] && ys == ys[..|ys| - 1] + [ys[|ys| - 1]];
    }
  }

  lemma {:induction false} OfTargetIsIdempotent(rows: seq<Boundary>, target: string)
    ensures OfTarget(OfTarget(rows, target), target) == OfTarget(rows, target)
  {
    if rows != [] {
      var front := OfTarget(rows[..|rows| - 1], target);
      OfTargetIsIdempotent(rows[..|rows| - 1], target);
      assert (front + [rows[|rows| - 1]])[..|front|] == front;
      assert front + [] == front;
    }
  }

  /** Interleaving with other targets changes nothing: each target could have been run alone. */
  lemma TargetsAreIndependent(rows: seq<Boundary>, target: string)
    ensures MatchesOf(Derive(rows), target) == MatchesOf(Derive(OfTarget(rows, target)), target)
  {
    EachTargetIsPaired(rows, target);
    EachTargetIsPaired(OfTarget(rows, target), target);
    OfTargetIsIdempotent(rows, target);
    PairingIsUnique(MatchesOf(Derive(rows), target), MatchesOf(Derive(OfTarget(rows, target)), target),
                    OfTarget(rows, target));
  }

  lemma {:induction false} FlattenConcat(xs: seq<Derived>, ys: seq<Derived>)
    ensures Flatten(xs + ys) == Flatten(xs) + Flatten(ys)
  {
    if ys == [] {
      assert xs + ys == xs;
    } else {
      var front, last := ys[..|ys| - 1], ys[|ys| - 1];
      FlattenConcat(xs, front);
      assert ys == front + [last] && xs + ys == (xs + front) + [last];
      FlattenPush(front, last);
      FlattenPush(xs + front, last);
    }
  }

  lemma FlattenPush(xs: seq<Derived>, m: Derived)
    ensures Flatten(xs + [m]) == Flatten(xs) + Rows(m)
  {
    assert (xs + [m])[..|xs|] == xs;
  }

  function AsRows(open: Option<Boundary>): seq<Boundary> {
    if open.Some? then [open.value] else []
  }

  lemma {:induction false} WithoutRemovesOpenStart(open: seq<Boundary>, target: string)
    requires forall i, j :: 0 <= i < j < |open| ==> open[i].target != open[j].target
    ensures multiset(open) == multiset(Without(open, target)) + multiset(AsRows(OpenFor(open, target)))
  {
    if open != [] {
      var front, last := open[..|open| - 1], open[|open| - 1];
      assert open == front + [last];
      if last.target == target {
        OnlyTheLast(open);
        KeepsAllOthers(front, target);
        assert Without(open, target) == front;
      } else {
        WithoutRemovesOpenStart(front, target);
        assert Without(open, target) == Without(front, target) + [last];
      }
    }
  }

  lemma {:induction false} KeepsAllOthers(open: seq<Boundary>, target: string)
    requires forall b :: b in open ==> b.target != target
    ensures Without(open, target) == open
  {
    if open != [] {
      var front, last := open[..|open| - 1], open[|open| - 1];
      KeepsAllOthers(front, target);
      assert last in open && Without(open, target) == Without(front, target) + [last];
      assert front + [last] == open;
    }
  }

  lemma FlattenClosed(open: Option<Boundary>, row: Boundary)
    ensures Flatten(Closed(open, row)) ==
      if row.edge == Start then AsRows(open) else AsRows(open) + [row]
  {
    var added := Closed(open, row);
    assert added != [] ==> added[..0] == [] && Flatten(added) == Rows(added[0]);
  }

  lemma StepParts(s: State, row: Boundary)
    ensures Step(s, row).matches == s.matches + Closed(OpenFor(s.open, row.target), row)
    ensures Step(s, row).open == Without(s.open, row.target) + if row.edge == Start then [row] else []
  {
  }

  lemma StepConservesRows(s: State, row: Boundary)
    requires StateInvariant(s)
    ensures multiset(Flatten(Step(s, row).matches)) + multiset(Step(s, row).open)
         == multiset(Flatten(s.matches)) + multiset(s.open) + multiset{row}
  {
    var open := OpenFor(s.open, row.target);
    StepParts(s, row);
    WithoutRemovesOpenStart(s.open, row.target);
    FlattenConcat(s.matches, Closed(open, row));
    FlattenClosed(open, row);
    RowsAddUp(Flatten(s.matches), Without(s.open, row.target), AsRows(open), row);
  }

  lemma RowsAddUp(used: seq<Boundary>, rest: seq<Boundary>, open: seq<Boundary>, row: Boundary)
    ensures multiset(used + open) + multiset(rest + [row])
      == multiset(used) + (multiset(rest) + multiset(open)) + multiset{row}
    ensures multiset(used + (open + [row])) + multiset(rest + [])
      == multiset(used) + (multiset(rest) + multiset(open)) + multiset{row}
  {
  }

  lemma {:induction false} RunConservesRows(rows: seq<Boundary>)
    ensures multiset(Flatten(Run(rows).matches)) + multiset(Run(rows).open) == multiset(rows)
    decreases |rows|
  {
    if rows != [] {
      var front, row := SplitLast(rows);
      RunConservesRows(front);
      RunKeepsInvariant(front);
      StepConservesRows(Run(front), row);
      RunPush(front, row);
    }
  }

  lemma RunPush(front: seq<Boundary>, row: Boundary)
    ensures Run(front + [row]) == Step(Run(front), row)
  {
    assert (front + [row])[..|front|] == front;
  }

  lemma {:induction false} FlattenLoneStarts(open: seq<Boundary>)
    ensures Flatten(LoneStarts(open)) == open
  {
    if open != [] {
      FlattenLoneStarts(open[..|open| - 1]);
      assert LoneStarts(open)[..|open| - 1] == LoneStarts(open[..|open| - 1]);
    }
  }

  /** Every boundary row is used in exactly one derived match. */
  lemma EachRowIsUsedOnce(rows: seq<Boundary>)
    ensures multiset(Flatten(Derive(rows))) == multiset(rows)
  {
    RunConservesRows(rows);
    FlattenConcat(Run(rows).matches, LoneStarts(Run(rows).open));
    FlattenLoneStarts(Run(rows).open);
  }

  ghost predicate TimesAscend(rows: seq<Boundary>) {
    && (forall i :: 0 <= i < |rows| ==> rows[i].time.Some?)
    && (forall i, j :: 0 <= i <= j < |rows| ==> rows[i].time.value <= rows[j].time.value)
  }

  ghost predicate IsClosed(m: Derived) {
    m.start.Some? && m.end.Some?
  }

  ghost predicate InsideStrictly(t: int, m: Derived) {
    IsClosed(m) && m.start.value.time.Some? && m.end.value.time.Some?
    && m.start.value.time.value < t < m.end.value.time.value
  }

  lemma {:induction false} PiecesAreOrdered(matches: seq<Derived>, i: int, j: int)
    requires TimesAscend(Flatten(matches)) && 0 <= i <= j < |matches| && IsClosed(matches[i]) && IsClosed(matches[j])
    ensures matches[i].end.value.time.Some? && matches[j].start.value.time.Some? && matches[j].end.value.time.Some?
    ensures matches[j].start.value.time.value <= matches[j].end.value.time.value
    ensures i < j ==> matches[i].end.value.time.value <= matches[j].start.value.time.value
  {
    var front, last := matches[..|matches| - 1], matches[|matches| - 1];
    var rows, before := Flatten(matches), Flatten(front);
    assert rows == before + Rows(last);
    if j < |matches| - 1 {
      assert forall k :: 0 <= k < |before| ==> rows[k] == before[k];
      PiecesAreOrdered(front, i, j);
    } else {
      assert rows[|before|] == last.start.value && rows[|before| + 1] == last.end.value;
      if i < j {
        PieceRowsOccur(front, i);
        var k :| 0 <= k < |before| && before[k] == matches[i].end.value;
        assert rows[k] == before[k];
      }
    }
  }

  lemma {:induction false} PieceRowsOccur(matches: seq<Derived>, i: int)
    requires 0 <= i < |matches|
    ensures forall b :: b in Rows(matches[i]) ==> b in Flatten(matches)
    ensures matches[i].end.Some? ==> matches[i].end.value in Flatten(matches)
  {
    if i < |matches| - 1 {
      PieceRowsOccur(matches[..|matches| - 1], i);
    }
    assert matches[i].end.Some? ==> matches[i].end.value in Rows(matches[i]);
  }

  /** Closed matches of one target follow each other in time; no instant is strictly inside two of them. */
  lemma ClosedMatchesAreDisjoint(rows: seq<Boundary>, target: string, i: int, j: int)
    requires TimesAscend(OfTarget(rows, target))
    requires 0 <= i < j < |MatchesOf(Derive(rows), target)|
    requires IsClosed(MatchesOf(Derive(rows), target)[i]) && IsClosed(MatchesOf(Derive(rows), target)[j])
    ensures var ms := MatchesOf(Derive(rows), target);
      && ms[i].end.value.time.Some? && ms[j].start.value.time.Some?
      && ms[i].end.value.time.value <= ms[j].start.value.time.value
    ensures forall t: int ::
      !(InsideStrictly(t, MatchesOf(Derive(rows), target)[i]) && InsideStrictly(t, MatchesOf(Derive(rows), target)[j]))
  {
    EachTargetIsPaired(rows, target);
    PiecesAreOrdered(MatchesOf(Derive(rows), target), i, j);
  }
}
