/** Stored AdminLog events, the ranges matches select them by, and the naive range query. */
module AdminLogEvents {
  import opened Options
  import opened Counting

  // The five event types that belong to a match; boundary events live in BoundaryPairing.
  datatype Kind = Kill | TeamSwitch | Connected | Disconnected | Chat

  // A field the parser left out and an empty one are both falsy in the source: both are "".
  datatype Payload = Payload(
    killerId: string, killerName: string, killerTeam: string,
    victimId: string, victimName: string, victimTeam: string, weapon: string,
    playerId: string, playerName: string, toTeam: string, chatTeam: string)

  // One row with a non-null server time.
  datatype Event = Event(id: int, time: int, kind: Kind, payload: Payload)

  // The server-time bounds of a match; a missing bound does not restrict.
  datatype Bounds = Bounds(lower: Option<int>, upper: Option<int>)

  predicate HasBound(b: Bounds) {
    b.lower.Some? || b.upper.Some?
  }

  predicate Within(t: int, b: Bounds) {
    && (b.lower.Some? ==> b.lower.value <= t)
    && (b.upper.Some? ==> t <= b.upper.value)
  }

  ghost predicate TimeSorted(es: seq<Event>) {
    forall i, j :: 0 <= i <= j < |es| ==> es[i].time <= es[j].time
  }

  /** The range query the source sends to the database, on rows already in (time, id) order. */
  function Select(es: seq<Event>, b: Bounds): seq<Event> {
    if es == [] then []
    else Select(es[..|es| - 1], b) + (if Within(es[|es| - 1].time, b) then [es[|es| - 1]] else [])
  }

  function IsKill(): Event -> bool {
    (e: Event) => e.kind.Kill?
  }

  function Kills(es: seq<Event>): nat {
    CountIf(es, IsKill())
  }

  lemma {:induction false} SelectConcat(xs: seq<Event>, ys: seq<Event>, b: Bounds)
    ensures Select(xs + ys, b) == Select(xs, b) + Select(ys, b)
  {
    if ys == [] {
      assert xs + ys == xs;
    } else {
      SelectConcat(xs, ys[..|ys| - 1], b);
      assert (xs + ys)[..|xs + ys| - 1] == xs + ys[..|ys| - 1];
    }
  }

  lemma {:induction false} SelectAll(es: seq<Event>, b: Bounds)
    requires forall e :: e in es ==> Within(e.time, b)
    ensures Select(es, b) == es
  {
    if es != [] {
      SelectAll(es[..|es| - 1], b);
    }
  }

  lemma {:induction false} SelectNone(es: seq<Event>, b: Bounds)
    requires forall e :: e in es ==> !Within(e.time, b)
    ensures Select(es, b) == []
  {
    if es != [] {
      SelectNone(es[..|es| - 1], b);
    }
  }

  /** The query keeps exactly the rows inside the bounds, in the stored order. */
  lemma {:induction false} SelectKeepsExactly(es: seq<Event>, b: Bounds, e: Event)
    ensures e in Select(es, b) <==> e in es && Within(e.time, b)
  {
    if es != [] {
      SelectKeepsExactly(es[..|es| - 1], b, e);
      assert es == es[..|es| - 1] + [es[|es| - 1]];
    }
  }

  lemma {:induction false} SelectKeepsOrder(es: seq<Event>, b: Bounds)
    requires TimeSorted(es)
    ensures TimeSorted(Select(es, b))
  {
    if es != [] {
      var front := es[..|es| - 1];
      SelectKeepsOrder(front, b);
      forall i | 0 <= i < |Select(front, b)| ensures Select(front, b)[i].time <= es[|es| - 1].time {
        SelectKeepsExactly(front, b, Select(front, b)[i]);
      }
    }
  }

  // `n` splits the time-sorted rows into those strictly before `point` and the rest.
  ghost predicate CutBefore(es: seq<Event>, n: nat, point: int) {
    && n <= |es|
    && (forall i :: 0 <= i < n ==> es[i].time < point)
    && (forall i :: n <= i < |es| ==> point <= es[i].time)
  }

  // `n` splits the time-sorted rows into those at or before `point` and the rest.
  ghost predicate CutThrough(es: seq<Event>, n: nat, point: int) {
    && n <= |es|
    && (forall i :: 0 <= i < n ==> es[i].time <= point)
    && (forall i :: n <= i < |es| ==> point < es[i].time)
  }

  ghost predicate Cuts(es: seq<Event>, lo: nat, hi: nat, b: Bounds) {
    && (if b.lower.Some? then CutBefore(es, lo, b.lower.value) else lo == 0)
    && (if b.upper.Some? then CutThrough(es, hi, b.upper.value) else hi == |es|)
  }

  lemma SelectOfSegments(xs: seq<Event>, ys: seq<Event>, zs: seq<Event>, b: Bounds)
    requires forall e :: e in xs ==> !Within(e.time, b)
    requires forall e :: e in ys ==> Within(e.time, b)
    requires forall e :: e in zs ==> !Within(e.time, b)
    ensures Select(xs + ys + zs, b) == ys
  {
    SelectConcat(xs + ys, zs, b);
    SelectConcat(xs, ys, b);
    SelectNone(xs, b);
    SelectAll(ys, b);
    SelectNone(zs, b);
  }

  /** A range query on sorted rows is the slice between two prefix positions, or nothing. */
  lemma SelectIsSlice(es: seq<Event>, lo: nat, hi: nat, b: Bounds)
    requires Cuts(es, lo, hi, b)
    ensures lo <= |es| && hi <= |es|
    ensures Select(es, b) == if lo <= hi then es[lo..hi] else []
  {
    if lo <= hi {
      OutsideCuts(es, lo, hi, b);
      SelectOfSegments(es[..lo], es[lo..hi], es[hi..], b);
      ThreeParts(es, lo, hi);
    } else {
      CrossedCuts(es, lo, hi, b);
      SelectNone(es, b);
    }
  }

  lemma ThreeParts(es: seq<Event>, lo: nat, hi: nat)
    requires lo <= hi <= |es|
    ensures es[..lo] + es[lo..hi] + es[hi..] == es
  {
  }

  lemma OutsideCuts(es: seq<Event>, lo: nat, hi: nat, b: Bounds)
    requires Cuts(es, lo, hi, b) && lo <= hi
    ensures hi <= |es|
    ensures forall e :: e in es[..lo] ==> !Within(e.time, b)
    ensures forall e :: e in es[lo..hi] ==> Within(e.time, b)
    ensures forall e :: e in es[hi..] ==> !Within(e.time, b)
  {
  }

  lemma CrossedCuts(es: seq<Event>, lo: nat, hi: nat, b: Bounds)
    requires Cuts(es, lo, hi, b) && hi < lo
    ensures forall e :: e in es ==> !Within(e.time, b)
  {
  }

  lemma KillsOfPrefix(es: seq<Event>, lo: nat, hi: nat)
    requires lo <= hi <= |es|
    ensures Kills(es[..hi]) == Kills(es[..lo]) + Kills(es[lo..hi])
  {
    assert es[..hi] == es[..lo] + es[lo..hi];
    CountIfConcat(es[..lo], es[lo..hi], IsKill());
  }
}
