/**
 count_ordered_boundary_pairs: a greedy scan over the sorted boundaries, its optimality among
 all ways of picking START END START END ... as a subsequence, and its agreement with the
 complete matches of one target and with the audit's counter of them.
 */
module PairCounting {
  import opened Options
  import opened Counting
  import opened Sorting
  import opened TextOrder
  import opened BoundaryPairing
  import opened BoundaryAudit

  const MATCH_START := "match_start"
  const MATCH_END := "match_end"

  // A boundary as the (timestamp, id, event type) triple that the source sorts.
  datatype Point = Point(time: int, id: int, kind: string)

  predicate PointLe(a: Point, b: Point) {
    if a.time != b.time then a.time < b.time
    else if a.id != b.id then a.id < b.id
    else TextLe(a.kind, b.kind)
  }

  function Kinds(points: seq<Point>): seq<string> {
    seq(|points|, i requires 0 <= i < |points| => points[i].kind)
  }

  // The pattern START END repeated k times.
  function Alternating(k: nat): seq<string> {
    if k == 0 then [] else Alternating(k - 1) + ["match_start", "match_end"]
  }

  // `p` can be read off `s` by skipping elements.
  ghost predicate IsSubsequence(p: seq<string>, s: seq<string>) {
    || p == []
    || (s != [] && p[|p| - 1] == s[|s| - 1] && IsSubsequence(p[..|p| - 1], s[..|s| - 1]))
    || (s != [] && IsSubsequence(p, s[..|s| - 1]))
  }

  // `count` pairs can be picked from `s`, and no more.
  ghost predicate IsMostPairs(s: seq<string>, count: nat) {
    && IsSubsequence(Alternating(count), s)
    && forall k: nat :: IsSubsequence(Alternating(k), s) ==> k <= count
  }

  // Pairs closed so far, and whether a start is waiting for its end.
  datatype Scan = Scan(pairs: nat, open: bool)

  function ScanStep(before: Scan, kind: string): Scan {
    if kind == MATCH_START then Scan(before.pairs, true)
    else if kind == MATCH_END && before.open then Scan(before.pairs + 1, false)
    else before
  }

  function ScanOf(s: seq<string>): Scan {
    if s == [] then Scan(0, false) else ScanStep(ScanOf(s[..|s| - 1]), s[|s| - 1])
  }

  lemma AlternatingEnds(k: nat)
    requires k > 0
    ensures var p := Alternating(k);
      && p != [] && p[|p| - 1] == MATCH_END
      && p[..|p| - 1] == Alternating(k - 1) + [MATCH_START]
  {
  }

  lemma OpenPatternEnds(k: nat)
    ensures var p := Alternating(k) + [MATCH_START];
      p[|p| - 1] == MATCH_START && p[..|p| - 1] == Alternating(k)
  {
  }

  /** The greedy scan picks as many pairs as it claims, plus a start when one is open. */
  lemma {:induction false} ScanIsAchievable(s: seq<string>)
    ensures IsSubsequence(Alternating(ScanOf(s).pairs), s)
    ensures ScanOf(s).open ==> IsSubsequence(Alternating(ScanOf(s).pairs) + [MATCH_START], s)
  {
    if s != [] {
      var before := ScanOf(s[..|s| - 1]);
      ScanIsAchievable(s[..|s| - 1]);
      OpenPatternEnds(before.pairs);
      AlternatingEnds(before.pairs + 1);
    }
  }

  lemma {:induction false} ScanIsOptimal(s: seq<string>, k: nat)
    ensures IsSubsequence(Alternating(k), s) ==> k <= ScanOf(s).pairs
    ensures IsSubsequence(Alternating(k) + [MATCH_START], s) ==>
      k < ScanOf(s).pairs || (k == ScanOf(s).pairs && ScanOf(s).open)
  {
    OpenPatternEnds(k);
    if k > 0 {
      AlternatingEnds(k);
    }
    if s != [] {
      ScanIsOptimal(s[..|s| - 1], k);
      if k > 0 {
        ScanIsOptimal(s[..|s| - 1], k - 1);
      }
    }
  }

  lemma ScanFindsMostPairs(s: seq<string>)
    ensures IsMostPairs(s, ScanOf(s).pairs)
  {
    ScanIsAchievable(s);
    forall k: nat ensures IsSubsequence(Alternating(k), s) ==> k <= ScanOf(s).pairs {
      ScanIsOptimal(s, k);
    }
  }

  /** The audit's counter returns the largest number of START END pairs the sorted boundaries contain. */
  method CountOrderedBoundaryPairs(boundaries: seq<Point>) returns (pairCount: nat)
    ensures IsMostPairs(Kinds(SortBy(PointLe, boundaries)), pairCount)
  {
    var sorted := SortBy(PointLe, boundaries);
    ghost var kinds := Kinds(sorted);
    pairCount := 0;
    var openStart := false;
    for i := 0 to |sorted|
      invariant ScanOf(kinds[..i]) == Scan(pairCount, openStart)
    {
      assert kinds[..i + 1][..i] == kinds[..i];
      var kind := sorted[i].kind;
      if kind == MATCH_START {
        openStart := true;
      } else if kind == MATCH_END && openStart {
        pairCount := pairCount + 1;
        openStart := false;
      }
    }
    assert kinds[..|kinds|] == kinds;
    ScanFindsMostPairs(kinds);
  }

  function KindOf(b: Boundary): string {
    if b.edge == Start then MATCH_START else MATCH_END
  }

  function BoundaryKinds(rows: seq<Boundary>): seq<string> {
    seq(|rows|, i requires 0 <= i < |rows| => KindOf(rows[i]))
  }

  function IsComplete(): Derived -> bool {
    (m: Derived) => m.start.Some? && m.end.Some?
  }

  function PairingScan(rows: seq<Boundary>, target: string): Scan {
    Scan(CountIf(Run(rows).matches, IsComplete()), OpenFor(Run(rows).open, target).Some?)
  }

  lemma {:induction false} ScanFollowsPairing(rows: seq<Boundary>, target: string)
    requires forall b :: b in rows ==> b.target == target
    ensures ScanOf(BoundaryKinds(rows)) == PairingScan(rows, target)
    decreases |rows|
  {
    if rows != [] {
      var front, row := SplitLast(rows);
      assert row in rows;
      ScanFollowsPairing(front, target);
      KindsPush(front, row);
      PairingPush(front, row);
    }
  }

  lemma PairingPush(front: seq<Boundary>, row: Boundary)
    ensures PairingScan(front + [row], row.target) == ScanStep(PairingScan(front, row.target), KindOf(row))
  {
    RunPush(front, row);
    CompletedByStep(Run(front), row);
    OpenForWithout(Run(front).open, row.target, row.target);
  }

  lemma KindsPush(front: seq<Boundary>, row: Boundary)
    ensures ScanOf(BoundaryKinds(front + [row])) == ScanStep(ScanOf(BoundaryKinds(front)), KindOf(row))
  {
    assert BoundaryKinds(front + [row])[..|front|] == BoundaryKinds(front);
  }

  // A step completes a pair exactly when an end finds its target open.
  lemma CompletedByStep(s: State, row: Boundary)
    ensures CountIf(Step(s, row).matches, IsComplete())
         == CountIf(s.matches, IsComplete()) + (if row.edge == End && OpenFor(s.open, row.target).Some? then 1 else 0)
  {
    var added := Closed(OpenFor(s.open, row.target), row);
    assert Step(s, row).matches == s.matches + added;
    CountIfConcat(s.matches, added, IsComplete());
    if added != [] {
      assert added == [added[0]];
      CountIfOne(added[0], IsComplete());
    }
  }

  /** On one target the state machine completes exactly the largest possible number of pairs. */
  lemma PairingCompletesMostPairs(rows: seq<Boundary>, target: string)
    requires forall b :: b in rows ==> b.target == target
    ensures IsMostPairs(BoundaryKinds(rows), CountIf(Derive(rows), IsComplete()))
  {
    ScanFindsMostPairs(BoundaryKinds(rows));
    ScanFollowsPairing(rows, target);
    LoneStartsCompleteNothing(Run(rows));
  }

  lemma LoneStartsCompleteNothing(s: State)
    ensures CountIf(s.matches + LoneStarts(s.open), IsComplete()) == CountIf(s.matches, IsComplete())
  {
    CountIfConcat(s.matches, LoneStarts(s.open), IsComplete());
    CountIfNone(LoneStarts(s.open), IsComplete());
  }

  // ---------- The counter of the sequence audit ----------

  ghost predicate OfOneServer(rows: seq<Boundary>, target: string, resolve: Resolver, slug: string) {
    forall b :: b in rows ==> b.target == target && SlugOf(resolve, b) == Some(slug)
  }

  lemma {:induction false} NormalIsComplete(rows: seq<Boundary>, target: string, resolve: Resolver, slug: string)
    requires OfOneServer(rows, target, resolve, slug)
    ensures CountsFor(rows, resolve, slug).normal == CountIf(Run(rows).matches, IsComplete())
    decreases |rows|
  {
    if rows != [] {
      var front, row := SplitLast(rows);
      NormalIsComplete(front, target, resolve, slug);
      assert row in rows;
      RunPush(front, row);
      CompletedByStep(Run(front), row);
      CountsAfterRow(front, row, resolve, slug);
    }
  }

  lemma CompleteIsNormal(rows: seq<Boundary>, target: string, resolve: Resolver, slug: string)
    requires OfOneServer(rows, target, resolve, slug)
    ensures CountIf(Derive(rows), IsComplete()) == CountsFor(rows, resolve, slug).normal
  {
    LoneStartsCompleteNothing(Run(rows));
    NormalIsComplete(rows, target, resolve, slug);
  }

  // The triple of a row, with its event timestamp.
  function PointOf(stamp: Boundary -> int): Boundary -> Point {
    b => Point(stamp(b), b.id, KindOf(b))
  }

  function PointsOf(rows: seq<Boundary>, stamp: Boundary -> int): seq<Point> {
    seq(|rows|, i requires 0 <= i < |rows| => PointOf(stamp)(rows[i]))
  }

  // The rows, which are in the order of their server times, are also in the order of their timestamps.
  ghost predicate StampsAgree(rows: seq<Boundary>, stamp: Boundary -> int) {
    forall i, j :: 0 <= i < j < |rows| ==>
      stamp(rows[i]) < stamp(rows[j]) || (stamp(rows[i]) == stamp(rows[j]) && rows[i].id < rows[j].id)
  }

  lemma PointLeIsTotalPreorder()
    ensures TotalPreorder(PointLe)
  {
    forall a, b ensures PointLe(a, b) || PointLe(b, a) {
      TextLeTotal(a.kind, b.kind);
    }
    forall a, b, c | PointLe(a, b) && PointLe(b, c) ensures PointLe(a, c) {
      if a.time == b.time == c.time && a.id == b.id == c.id {
        TextLeTransitive(a.kind, b.kind, c.kind);
      }
    }
  }

  lemma PointsAscend(rows: seq<Boundary>, stamp: Boundary -> int)
    requires StampsAgree(rows, stamp)
    ensures Sorted(PointLe, PointsOf(rows, stamp)) && AntisymmetricOn(PointLe, PointsOf(rows, stamp))
  {
    var points := PointsOf(rows, stamp);
    forall i, j | 0 <= i < j < |points| ensures PointLe(points[i], points[j]) && !PointLe(points[j], points[i]) {
      assert points[i] == PointOf(stamp)(rows[i]) && points[j] == PointOf(stamp)(rows[j]);
    }
  }

  lemma KindsOfPoints(rows: seq<Boundary>, stamp: Boundary -> int)
    ensures Kinds(PointsOf(rows, stamp)) == BoundaryKinds(rows)
  {
    forall i | 0 <= i < |rows| ensures Kinds(PointsOf(rows, stamp))[i] == BoundaryKinds(rows)[i] {
      assert PointsOf(rows, stamp)[i] == PointOf(stamp)(rows[i]);
    }
  }

  lemma SortedPoints(rows: seq<Boundary>, stamp: Boundary -> int, points: seq<Point>, sorted: seq<Point>)
    requires StampsAgree(rows, stamp) && multiset(points) == multiset(sorted) && sorted == PointsOf(rows, stamp)
    ensures SortBy(PointLe, points) == sorted
  {
    PointLeIsTotalPreorder();
    PointsAscend(rows, stamp);
    SortIsTheSorted(PointLe, points, sorted);
  }

  lemma SortedKinds(rows: seq<Boundary>, stamp: Boundary -> int, points: seq<Point>)
    requires StampsAgree(rows, stamp) && multiset(points) == multiset(PointsOf(rows, stamp))
    ensures Kinds(SortBy(PointLe, points)) == BoundaryKinds(rows)
  {
    SortedPoints(rows, stamp, points, PointsOf(rows, stamp));
    KindsOfPoints(rows, stamp);
  }

  lemma MostPairsIsUnique(s: seq<string>, a: nat, b: nat)
    requires IsMostPairs(s, a) && IsMostPairs(s, b)
    ensures a == b
  {
  }

  /**
   The two counters of the audit agree: what is reported as the number of ordered pairs of a target is its
   number of normal starts and ends, when timestamps and server times order its rows alike.
   */
  lemma CountersAgree(rows: seq<Boundary>, target: string, resolve: Resolver, slug: string, stamp: Boundary -> int,
                      points: seq<Point>, pairCount: nat)
    requires OfOneServer(rows, target, resolve, slug) && StampsAgree(rows, stamp)
    requires multiset(points) == multiset(PointsOf(rows, stamp))
    requires IsMostPairs(Kinds(SortBy(PointLe, points)), pairCount)
    ensures pairCount == CountsFor(rows, resolve, slug).normal
  {
    SortedKinds(rows, stamp, points);
    CompleteIsNormal(rows, target, resolve, slug);
    PairingCompletesMostPairs(rows, target);
    MostPairsIsUnique(BoundaryKinds(rows), pairCount, CountIf(Derive(rows), IsComplete()));
  }
}
