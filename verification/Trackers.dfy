/**
 The trackers of observe_current_match_parity: match boundaries, players seen on one side only,
 and counters that differ, each specified by the whole history of what was observed.
 */
module Trackers {
  import opened Options
  import opened Counting
  import opened Picking

  // ---------- Match boundaries ----------

  datatype Lifecycle = PreMatch | MatchRunning | MapTransition | MatchEnded | NextMatch

  datatype LifecycleEvent = LifecycleEvent(state: Lifecycle, matchId: Option<string>, ended: Option<string>)

  // One poll: a snapshot, which may lack a match id, or a transport failure.
  datatype Poll = Snapshot(matchId: Option<string>) | Outage

  // The ids of the snapshots, in order.
  function Observed(polls: seq<Poll>): seq<Option<string>> {
    if polls == [] then []
    else
      var last := polls[|polls| - 1];
      Observed(polls[..|polls| - 1]) + (if last.Snapshot? then [last.matchId] else [])
  }

  function Current(seen: seq<Option<string>>): Option<string> {
    if seen == [] then None else seen[|seen| - 1]
  }

  // The matches a sequence of ids shows: an id counts again after another id or a gap.
  function Matches(seen: seq<Option<string>>): seq<string> {
    if seen == [] then []
    else
      var front, last := seen[..|seen| - 1], seen[|seen| - 1];
      Matches(front) + (if last.Some? && Current(front) != last then [last.value] else [])
  }

  function EndedMatches(events: seq<LifecycleEvent>): seq<string> {
    if events == [] then []
    else
      var last := events[|events| - 1];
      EndedMatches(events[..|events| - 1]) + (if last.ended.Some? then [last.ended.value] else [])
  }

  ghost predicate SomeMatchSeen(seen: seq<Option<string>>) {
    exists i :: 0 <= i < |seen| && seen[i].Some?
  }

  predicate JustReplaced(seen: seq<Option<string>>) {
    |seen| >= 2 && seen[|seen| - 2].Some? && seen[|seen| - 1].Some? && seen[|seen| - 2] != seen[|seen| - 1]
  }

  lemma ObservedOneMore(polls: seq<Poll>, poll: Poll)
    ensures Observed(polls + [poll]) == Observed(polls) + (if poll.Snapshot? then [poll.matchId] else [])
  {
    assert (polls + [poll])[..|polls|] == polls;
  }

  lemma MatchesOneMore(seen: seq<Option<string>>, id: Option<string>)
    ensures Matches(seen + [id]) == Matches(seen) + (if id.Some? && Current(seen) != id then [id.value] else [])
    ensures SomeMatchSeen(seen + [id]) <==> SomeMatchSeen(seen) || id.Some?
  {
    assert (seen + [id])[..|seen|] == seen;
    if SomeMatchSeen(seen) {
      var i :| 0 <= i < |seen| && seen[i].Some?;
      assert (seen + [id])[i].Some?;
    }
    if id.Some? {
      assert (seen + [id])[|seen|].Some?;
    }
  }

  lemma EndedOneMore(events: seq<LifecycleEvent>, e: LifecycleEvent)
    ensures EndedMatches(events + [e]) == EndedMatches(events) + (if e.ended.Some? then [e.ended.value] else [])
  {
    assert (events + [e])[..|events|] == events;
  }

  // The flags after the ids seen, and the matches ended so far.
  ghost predicate Reflects(seen: seq<Option<string>>, ended: seq<string>, current: Option<string>, pending: bool,
                           withoutNext: bool) {
    && current == Current(seen)
    && (withoutNext <==> current.None? && SomeMatchSeen(seen))
    && (pending <==> JustReplaced(seen))
    && Matches(seen) == ended + AsSeq(current)
  }

  function AsSeq(id: Option<string>): seq<string> {
    if id.Some? then [id.value] else []
  }

  lemma ReflectsNext(seen: seq<Option<string>>, ended: seq<string>, current: Option<string>, pending: bool,
                     withoutNext: bool, id: Option<string>)
    requires Reflects(seen, ended, current, pending, withoutNext)
    ensures Reflects(seen + [id], ended + AsSeq(if current != id then current else None), id,
                     if id.Some? && current.Some? then current != id else pending && current.None?,
                     if id.None? then withoutNext || current.Some? else withoutNext && current.Some?)
  {
    MatchesOneMore(seen, id);
  }

  /** MatchStateMachine, with the polls and events of its whole life. */
  class MatchStateMachine {
    var currentMatchId: Option<string>
    var nextPending: bool
    var endedWithoutNext: bool
    ghost var polls: seq<Poll>
    ghost var events: seq<LifecycleEvent>

    // The flags are determined by the snapshots alone, and every match shown is ended once, but for the current one.
    ghost predicate Valid()
      reads this
    {
      Reflects(Observed(polls), EndedMatches(events), currentMatchId, nextPending, endedWithoutNext)
    }

    constructor ()
      ensures Valid() && polls == [] && events == []
    {
      currentMatchId, nextPending, endedWithoutNext, polls, events := None, false, false, [], [];
    }

    method Step(matchId: Option<string>) returns (e: LifecycleEvent)
      requires Valid()
      modifies this
      ensures Valid() && polls == old(polls) + [Snapshot(matchId)] && events == old(events) + [e]
      ensures e.ended == if old(currentMatchId) != matchId then old(currentMatchId) else None
      ensures e.matchId == matchId
      ensures e.state == StateAfter(Observed(old(polls)), matchId)
    {
      ObservedOneMore(polls, Snapshot(matchId));
      ReflectsNext(Observed(polls), EndedMatches(events), currentMatchId, nextPending, endedWithoutNext, matchId);
      e := Transition(matchId);
      EndedOneMore(events, e);
      polls := polls + [Snapshot(matchId)];
      events := events + [e];
    }

    method Transition(matchId: Option<string>) returns (e: LifecycleEvent)
      modifies this`currentMatchId, this`nextPending, this`endedWithoutNext
      ensures currentMatchId == matchId
      ensures nextPending == (if matchId.Some? && old(currentMatchId).Some? then old(currentMatchId) != matchId
        else old(nextPending) && old(currentMatchId).None?)
      ensures endedWithoutNext == (if matchId.None? then old(endedWithoutNext) || old(currentMatchId).Some?
                                   else old(endedWithoutNext) && old(currentMatchId).Some?)
      ensures e == LifecycleEvent(
        if matchId.None? then (if old(currentMatchId).None? then PreMatch else MatchEnded)
        else if old(currentMatchId).None? then (if old(endedWithoutNext) then NextMatch else MatchRunning)
        else if old(currentMatchId) != matchId then MapTransition
        else if old(nextPending) then NextMatch
        else MatchRunning,
        matchId, if old(currentMatchId) != matchId then old(currentMatchId) else None)
    {
      if matchId.None? {
        if currentMatchId.None? {
          return LifecycleEvent(PreMatch, None, None);
        }
        var ended := currentMatchId;
        currentMatchId, nextPending, endedWithoutNext := None, false, true;
        return LifecycleEvent(MatchEnded, None, ended);
      }
      if currentMatchId.None? {
        currentMatchId := matchId;
        if endedWithoutNext {
          endedWithoutNext := false;
          return LifecycleEvent(NextMatch, matchId, None);
        }
        return LifecycleEvent(MatchRunning, matchId, None);
      }
      if matchId != currentMatchId {
        var ended := currentMatchId;
        currentMatchId, nextPending := matchId, true;
        return LifecycleEvent(MapTransition, matchId, ended);
      }
      if nextPending {
        nextPending := false;
        return LifecycleEvent(NextMatch, matchId, None);
      }
      return LifecycleEvent(MatchRunning, matchId, None);
    }

    /** An outage changes nothing and ends no match. */
    method Unavailable() returns (e: LifecycleEvent)
      requires Valid()
      modifies this`polls, this`events
      ensures Valid() && polls == old(polls) + [Outage] && events == old(events) + [e]
      ensures e.ended.None? && e.matchId == Current(Observed(old(polls))) && Observed(polls) == Observed(old(polls))
      ensures e.state == (if currentMatchId.None? || currentMatchId == Some("") then PreMatch else MatchRunning)
    {
      e := LifecycleEvent(if currentMatchId.Some? && currentMatchId.value != "" then MatchRunning
        else PreMatch, currentMatchId, None);
      ObservedOneMore(polls, Outage);
      assert Observed(polls) + [] == Observed(polls);
      assert EndedMatches(events) + [] == EndedMatches(events);
      EndedOneMore(events, e);
      polls := polls + [Outage];
      events := events + [e];
    }
  }

  // What a step reports, from the ids seen before it.
  ghost function StateAfter(seen: seq<Option<string>>, matchId: Option<string>): Lifecycle {
    var current := Current(seen);
    if matchId.None? then (if current.None? then PreMatch else MatchEnded)
    else if current.None? then (if SomeMatchSeen(seen) then NextMatch else MatchRunning)
    else if current != matchId then MapTransition
    else if JustReplaced(seen) then NextMatch
    else MatchRunning
  }

  // ---------- Players seen on one side only ----------

  // For how many of the latest observations, without a break, the key was present.
  function TrailingRun(history: seq<set<string>>, key: string): nat {
    if history == [] || key !in history[|history| - 1] then 0 else 1 + TrailingRun(history[..|history| - 1], key)
  }

  /** A trailing run has at least `n` observations exactly when the key is in each of the last `n`. */
  lemma {:induction false} TrailingRunReaches(history: seq<set<string>>, key: string, n: nat)
    ensures TrailingRun(history, key) >= n <==>
      && n <= |history|
      && forall i :: |history| - n <= i < |history| ==> key in history[i]
  {
    if history != [] && n > 0 {
      var front := history[..|history| - 1];
      TrailingRunReaches(front, key, n - 1);
      if n <= |history| && forall i :: |history| - n <= i < |history| ==> key in history[i] {
        assert forall i :: |front| - (n - 1) <= i < |front| ==> key in history[i] && front[i] == history[i];
      }
      if TrailingRun(history, key) >= n {
        forall i | |history| - n <= i < |history| ensures key in history[i] {
          assert i < |front| ==> front[i] == history[i];
        }
      }
    }
  }

  // The runs of every key present in the latest observation.
  ghost predicate TrailingRuns(runs: map<string, nat>, history: seq<set<string>>) {
    && (forall k :: k in runs <==> history != [] && k in history[|history| - 1])
    && (forall k :: k in runs ==> runs[k] == TrailingRun(history, k))
  }

  datatype SideCounts = SideCounts(transient: nat, persistent: nat)

  // PlayerSetStabilizer._advance on one of its dictionaries.
  method Advance(runs: map<string, nat>, current: set<string>, ghost history: seq<set<string>>)
    returns (advanced: map<string, nat>)
    requires TrailingRuns(runs, history)
    ensures TrailingRuns(advanced, history + [current])
  {
    var kept := runs;
    var left := runs.Keys;
    while left != {}
      invariant left <= runs.Keys && kept.Keys == runs.Keys - ((runs.Keys - left) - current)
      invariant forall k :: k in kept ==> kept[k] == runs[k]
      decreases left
    {
      var key := PickAny(left);
      if key !in current {
        kept := kept - {key};
      }
      left := left - {key};
    }
    advanced := kept;
    var rest := current;
    while rest != {}
      invariant rest <= current && advanced.Keys == kept.Keys + (current - rest)
      invariant forall k :: k in advanced ==>
        advanced[k] == (if k in kept then kept[k] else 0) + (if k in rest then 0 else 1)
      decreases rest
    {
      var key := PickAny(rest);
      advanced := advanced[key := (if key in advanced then advanced[key] else 0) + 1];
      rest := rest - {key};
    }
    RunsAdvance(runs, kept, advanced, current, history);
  }

  lemma RunsAdvance(runs: map<string, nat>, kept: map<string, nat>, advanced: map<string, nat>, current: set<string>,
                    history: seq<set<string>>)
    requires TrailingRuns(runs, history) && kept.Keys == runs.Keys * current
    requires (forall k :: k in kept ==> kept[k] == runs[k])
    requires advanced.Keys == current
      && forall k :: k in advanced ==> advanced[k] == (if k in kept then kept[k] else 0) + 1
    ensures TrailingRuns(advanced, history + [current])
  {
    assert (history + [current])[..|history|] == history;
  }

  // The keys of the latest observation present for at least `polls` observations.
  ghost function Persistent(history: seq<set<string>>, polls: int): set<string> {
    if history == [] then {} else set k | k in history[|history| - 1] && TrailingRun(history, k) >= polls
  }

  ghost function Transient(history: seq<set<string>>, polls: int): set<string> {
    if history == [] then {} else history[|history| - 1] - Persistent(history, polls)
  }

  method CountSides(runs: map<string, nat>, polls: int, ghost history: seq<set<string>>) returns (c: SideCounts)
    requires TrailingRuns(runs, history) && history != []
    ensures c == SideCounts(|Transient(history, polls)|, |Persistent(history, polls)|)
  {
    var transient := set k | k in runs && runs[k] < polls;
    var persistent := set k | k in runs && runs[k] >= polls;
    assert transient == Transient(history, polls);
    assert persistent == Persistent(history, polls);
    c := SideCounts(|transient|, |persistent|);
  }

  /** PlayerSetStabilizer, with both histories. */
  class PlayerSetStabilizer {
    const stabilizationPolls: int
    var legacyRuns: map<string, nat>
    var crconRuns: map<string, nat>
    ghost var legacy: seq<set<string>>
    ghost var crcon: seq<set<string>>

    ghost predicate Valid()
      reads this
    {
      TrailingRuns(legacyRuns, legacy) && TrailingRuns(crconRuns, crcon)
    }

    constructor (polls: int)
      ensures Valid() && stabilizationPolls == polls && legacy == crcon == []
    {
      stabilizationPolls, legacyRuns, crconRuns, legacy, crcon := polls, map[], map[], [], [];
    }

    method Observe(onlyLegacy: set<string>, onlyCrcon: set<string>) returns (l: SideCounts, c: SideCounts)
      requires Valid()
      modifies this
      ensures Valid() && legacy == old(legacy) + [onlyLegacy] && crcon == old(crcon) + [onlyCrcon]
      ensures l == SideCounts(|Transient(legacy, stabilizationPolls)|, |Persistent(legacy, stabilizationPolls)|)
      ensures c == SideCounts(|Transient(crcon, stabilizationPolls)|, |Persistent(crcon, stabilizationPolls)|)
    {
      legacyRuns := Advance(legacyRuns, onlyLegacy, legacy);
      crconRuns := Advance(crconRuns, onlyCrcon, crcon);
      legacy, crcon := legacy + [onlyLegacy], crcon + [onlyCrcon];
      l := CountSides(legacyRuns, stabilizationPolls, legacy);
      c := CountSides(crconRuns, stabilizationPolls, crcon);
    }
  }

  // ---------- Counters that differ ----------

  datatype Comparison = Comparison(key: string, left: int, right: int)

  function Delta(c: Comparison): nat {
    if c.right >= c.left then c.right - c.left else c.left - c.right
  }

  // For how many of the latest comparisons of the key, without a break, the two sides differed.
  function DifferenceRun(history: seq<Comparison>, key: string): nat {
    if history == [] then 0
    else
      var front, last := history[..|history| - 1], history[|history| - 1];
      if last.key != key then DifferenceRun(front, key)
      else if Delta(last) == 0 then 0
      else 1 + DifferenceRun(front, key)
  }

  function OfKey(history: seq<Comparison>, key: string): seq<Comparison> {
    if history == [] then []
    else
      var last := history[|history| - 1];
      OfKey(history[..|history| - 1], key) + (if last.key == key then [last] else [])
  }

  /** A difference run has at least `n` comparisons exactly when each of the last `n` comparisons of the key differs. */
  lemma {:induction false} DifferenceRunReaches(history: seq<Comparison>, key: string, n: nat)
    ensures var own := OfKey(history, key);
      DifferenceRun(history, key) >= n <==> n <= |own| && forall i :: |own| - n <= i < |own| ==> Delta(own[i]) != 0
  {
    if history != [] && n > 0 {
      var front, last := history[..|history| - 1], history[|history| - 1];
      var own, before := OfKey(history, key), OfKey(front, key);
      if last.key != key {
        assert own == before;
        DifferenceRunReaches(front, key, n);
      } else {
        DifferenceRunReaches(front, key, n - 1);
        assert own[|own| - 1] == last;
        if DifferenceRun(history, key) >= n {
          forall i | |own| - n <= i < |own| ensures Delta(own[i]) != 0 {
            assert i < |before| ==> own[i] == before[i];
          }
        }
        if n <= |own| && forall i :: |own| - n <= i < |own| ==> Delta(own[i]) != 0 {
          assert forall i :: |before| - (n - 1) <= i < |before| ==> before[i] == own[i] && Delta(own[i]) != 0;
        }
      }
    }
  }

  function SumDeltas(history: seq<Comparison>): nat {
    if history == [] then 0 else SumDeltas(history[..|history| - 1]) + Delta(history[|history| - 1])
  }

  function MaxDelta(history: seq<Comparison>): nat {
    if history == [] then 0
    else
      var before, last := MaxDelta(history[..|history| - 1]), Delta(history[|history| - 1]);
      if last > before then last else before
  }

  // The comparisons that agree again after a difference of the same key.
  function Recoveries(history: seq<Comparison>): nat {
    if history == [] then 0
    else
      var front, last := history[..|history| - 1], history[|history| - 1];
      Recoveries(front) + (if Delta(last) == 0 && DifferenceRun(front, last.key) > 0 then 1 else 0)
  }

  function Differs(): Comparison -> bool {
    (c: Comparison) => Delta(c) != 0
  }

  /** _Metric, with every comparison it has been shown. */
  class DeltaMetric {
    var comparisons: nat
    var exact: nat
    var differing: nat
    var maxAbsoluteDelta: nat
    var sumAbsoluteDelta: nat
    var eventuallyConsistent: nat
    var differenceRuns: map<string, nat>
    var systematic: set<string>
    ghost var history: seq<Comparison>

    ghost predicate Valid(polls: int)
      reads this
    {
      CountsOf(history) && TracksRuns(differenceRuns, systematic, polls, history)
    }

    constructor (ghost polls: int)
      ensures Valid(polls) && history == []
    {
      comparisons, exact, differing, maxAbsoluteDelta, sumAbsoluteDelta, eventuallyConsistent := 0, 0, 0, 0, 0, 0;
      differenceRuns, systematic, history := map[], {}, [];
    }

    /** The systematic keys are those whose trailing difference run has reached the threshold. */
    method Observe(key: string, left: int, right: int, polls: int)
      requires Valid(polls)
      modifies this
      ensures Valid(polls) && history == old(history) + [Comparison(key, left, right)]
    {
      var c := Comparison(key, left, right);
      if Delta(c) == 0 {
        Agree(c, polls);
      } else {
        Differ(c, polls);
      }
    }

    method Agree(c: Comparison, ghost polls: int)
      requires Valid(polls) && Delta(c) == 0
      modifies this
      ensures Valid(polls) && history == old(history) + [c]
    {
      CountComparison(c);
      ForgetDifference(c, polls);
      history := history + [c];
    }

    method Differ(c: Comparison, polls: int)
      requires Valid(polls) && Delta(c) != 0
      modifies this
      ensures Valid(polls) && history == old(history) + [c]
    {
      CountComparison(c);
      RecordDifference(c, polls);
      history := history + [c];
    }

    // The counters of `seen`, whether or not it is the whole history yet.
    ghost predicate CountsOf(seen: seq<Comparison>)
      reads this
    {
      && comparisons == |seen| && differing == CountIf(seen, Differs()) && exact + differing == comparisons
      && maxAbsoluteDelta == MaxDelta(seen) && sumAbsoluteDelta == SumDeltas(seen)
      && eventuallyConsistent == Recoveries(seen)
    }

    method CountComparison(c: Comparison)
      requires CountsOf(history)
      requires DifferenceRun(history, c.key) == (if c.key in differenceRuns then differenceRuns[c.key] else 0)
      modifies this`comparisons, this`exact, this`differing, this`maxAbsoluteDelta, this`sumAbsoluteDelta,
        this`eventuallyConsistent
      ensures CountsOf(history + [c])
    {
      HistoryOneMore(history, c);
      var delta := Delta(c);
      comparisons := comparisons + 1;
      if delta == 0 {
        exact := exact + 1;
        if c.key in differenceRuns && differenceRuns[c.key] > 0 {
          eventuallyConsistent := eventuallyConsistent + 1;
        }
      } else {
        differing := differing + 1;
        maxAbsoluteDelta := if delta > maxAbsoluteDelta then delta else maxAbsoluteDelta;
        sumAbsoluteDelta := sumAbsoluteDelta + delta;
      }
    }

    method ForgetDifference(c: Comparison, ghost polls: int)
      requires TracksRuns(differenceRuns, systematic, polls, history) && Delta(c) == 0
      modifies this`differenceRuns, this`systematic
      ensures TracksRuns(differenceRuns, systematic, polls, history + [c])
    {
      RunEnds(differenceRuns, systematic, polls, history, c);
      differenceRuns := differenceRuns - {c.key};
      systematic := systematic - {c.key};
    }

    method RecordDifference(c: Comparison, polls: int)
      requires TracksRuns(differenceRuns, systematic, polls, history) && Delta(c) != 0
      modifies this`differenceRuns, this`systematic
      ensures TracksRuns(differenceRuns, systematic, polls, history + [c])
    {
      var run := (if c.key in differenceRuns then differenceRuns[c.key] else 0) + 1;
      RunGrows(differenceRuns, systematic, polls, history, c, run);
      differenceRuns := differenceRuns[c.key := run];
      if run >= polls {
        systematic := systematic + {c.key};
      }
    }
  }

  // The runs of every key, a missing one being zero, and the keys whose run has reached the threshold.
  ghost predicate TracksRuns(runs: map<string, nat>, systematic: set<string>, polls: int, history: seq<Comparison>) {
    && (forall k :: DifferenceRun(history, k) == if k in runs then runs[k] else 0)
    && (forall k :: k in systematic <==> DifferenceRun(history, k) > 0 && DifferenceRun(history, k) >= polls)
  }

  lemma RunEnds(runs: map<string, nat>, systematic: set<string>, polls: int, history: seq<Comparison>, c: Comparison)
    requires TracksRuns(runs, systematic, polls, history) && Delta(c) == 0
    ensures TracksRuns(runs - {c.key}, systematic - {c.key}, polls, history + [c])
  {
    HistoryOneMore(history, c);
  }

  lemma RunGrows(runs: map<string, nat>, systematic: set<string>, polls: int, history: seq<Comparison>, c: Comparison,
                 run: nat)
    requires TracksRuns(runs, systematic, polls, history) && Delta(c) != 0
    requires run == (if c.key in runs then runs[c.key] else 0) + 1
    ensures TracksRuns(runs[c.key := run], if run >= polls then systematic + {c.key} else systematic,
                       polls, history + [c])
  {
    HistoryOneMore(history, c);
  }

  lemma HistoryOneMore(history: seq<Comparison>, c: Comparison)
    ensures var more := history + [c];
      && CountIf(more, Differs()) == CountIf(history, Differs()) + (if Delta(c) != 0 then 1 else 0)
      && MaxDelta(more) == (if Delta(c) > MaxDelta(history) then Delta(c) else MaxDelta(history))
      && SumDeltas(more) == SumDeltas(history) + Delta(c)
      && Recoveries(more) == Recoveries(history) + (if Delta(c) == 0 && DifferenceRun(history, c.key) > 0 then 1 else 0)
    ensures forall k :: k != c.key ==> DifferenceRun(history + [c], k) == DifferenceRun(history, k)
    ensures DifferenceRun(history + [c], c.key) == if Delta(c) == 0 then 0 else 1 + DifferenceRun(history, c.key)
  {
    assert (history + [c])[..|history|] == history;
  }

  // The keys whose latest comparison differed.
  function OpenKeys(history: seq<Comparison>): set<string> {
    if history == [] then {}
    else
      var front, last := history[..|history| - 1], history[|history| - 1];
      if Delta(last) == 0 then OpenKeys(front) - {last.key} else OpenKeys(front) + {last.key}
  }

  lemma {:induction false} OpenKeysHaveRuns(history: seq<Comparison>, key: string)
    ensures key in OpenKeys(history) <==> DifferenceRun(history, key) > 0
  {
    if history != [] {
      OpenKeysHaveRuns(history[..|history| - 1], key);
    }
  }

  /** Every recovery, and every key still differing, has a difference of its own behind it. */
  lemma {:induction false} RecoveriesArePaid(history: seq<Comparison>)
    ensures Recoveries(history) + |OpenKeys(history)| <= CountIf(history, Differs())
  {
    if history != [] {
      var front, last := history[..|history| - 1], history[|history| - 1];
      RecoveriesArePaid(front);
      OpenKeysHaveRuns(front, last.key);
      if Delta(last) == 0 && last.key in OpenKeys(front) {
        assert OpenKeys(front) == OpenKeys(history) + {last.key};
      }
    }
  }
}
