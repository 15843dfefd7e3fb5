/**
 How long a player was active in a match: the connection-interval clock
 (_calculate_connection_interval_active_seconds), specified by counting connected seconds, and
 the payload that falls back to the span of the player's events.
 */
module ActiveTime {
  import opened Options
  import opened Counting
  import opened AdminLogEvents

  // A connect or disconnect of one player.
  datatype Link = Link(connected: bool, time: int)

  datatype Source = Unavailable | EventSpan | Intervals | IntervalsCarryover

  ghost predicate Ascending(links: seq<Link>) {
    forall i, j :: 0 <= i <= j < |links| ==> links[i].time <= links[j].time
  }

  // ---------- Specification: connected seconds ----------

  // Whether the last link at or before `t` (or the carried-over state) leaves the player connected.
  function ConnectedAt(links: seq<Link>, prior: bool, t: int): bool {
    if links == [] then prior
    else if links[|links| - 1].time <= t then links[|links| - 1].connected
    else ConnectedAt(links[..|links| - 1], prior, t)
  }

  // The number of seconds t in [from, until) at which the player is connected.
  function ConnectedSeconds(links: seq<Link>, prior: bool, from: int, until: int): nat
    decreases until - from
  {
    if until <= from then 0
    else ConnectedSeconds(links, prior, from, until - 1) + if ConnectedAt(links, prior, until - 1) then 1 else 0
  }

  lemma {:induction false} SteadySeconds(links: seq<Link>, prior: bool, from: int, mid: int, until: int,
      connected: bool)
    requires from <= mid <= until
    requires forall t :: mid <= t < until ==> ConnectedAt(links, prior, t) == connected
    ensures ConnectedSeconds(links, prior, from, until)
      == ConnectedSeconds(links, prior, from, mid) + (if connected then until - mid else 0)
    decreases until - mid
  {
    if mid < until {
      SteadySeconds(links, prior, from, mid, until - 1, connected);
    }
  }

  lemma {:induction false} SameSeconds(xs: seq<Link>, p: bool, ys: seq<Link>, q: bool, from: int, until: int)
    requires forall t :: from <= t < until ==> ConnectedAt(xs, p, t) == ConnectedAt(ys, q, t)
    ensures ConnectedSeconds(xs, p, from, until) == ConnectedSeconds(ys, q, from, until)
    decreases until - from
  {
    if from < until {
      SameSeconds(xs, p, ys, q, from, until - 1);
    }
  }

  lemma {:induction false} SecondsSplit(links: seq<Link>, prior: bool, from: int, mid: int, until: int)
    requires from <= mid <= until
    ensures ConnectedSeconds(links, prior, from, until)
      == ConnectedSeconds(links, prior, from, mid) + ConnectedSeconds(links, prior, mid, until)
    decreases until - mid
  {
    if mid < until {
      SecondsSplit(links, prior, from, mid, until - 1);
    }
  }

  lemma {:induction false} SecondsAreBounded(links: seq<Link>, prior: bool, from: int, until: int)
    ensures ConnectedSeconds(links, prior, from, until) <= (if from <= until then until - from else 0)
    decreases until - from
  {
    if from < until {
      SecondsAreBounded(links, prior, from, until - 1);
    }
  }

  // ---------- The clock ----------

  function Clamp(start: int, end: int, t: int): int {
    var capped := if t <= end then t else end;
    if start <= capped then capped else start
  }

  function Positive(n: int): nat {
    if n < 0 then 0 else n
  }

  // The running state after some links: seconds before `mark` are counted, and from `mark` on
  // the player stays as `open` says.
  ghost predicate ClockState(links: seq<Link>, prior: bool, start: int, end: int, mark: int, total: int,
                             open: Option<int>) {
    && start <= mark && (mark <= end || mark == start)
    && (links != [] ==> mark <= Clamp(start, end, links[|links| - 1].time))
    && (links == [] ==> mark == start)
    && (open.Some? ==> open.value == mark)
    && total == ConnectedSeconds(links, prior, start, mark)
    && (forall t :: mark <= t < end ==> ConnectedAt(links, prior, t) == open.Some?)
  }

  lemma ClockStep(links: seq<Link>, link: Link, prior: bool, start: int, end: int, mark: int, total: int,
                  open: Option<int>)
    requires Ascending(links + [link]) && ClockState(links, prior, start, end, mark, total, open)
    ensures var c := Clamp(start, end, link.time);
      && mark <= c
      && (link.connected == open.Some? ==> ClockState(links + [link], prior, start, end, mark, total, open))
      && (link.connected && open.None? ==> ClockState(links + [link], prior, start, end, c, total, Some(c)))
      && (!link.connected && open.Some? ==> ClockState(links + [link], prior, start, end, c, total + (c - mark), None))
  {
    var c, after := Clamp(start, end, link.time), links + [link];
    assert after[..|links|] == links;
    if links != [] {
      assert after[|links| - 1].time <= after[|links|].time;
    }
    assert mark <= c;
    SteadySeconds(links, prior, start, mark, c, open.Some?);
    SameSeconds(after, prior, links, prior, start, mark);
    SameSeconds(after, prior, links, prior, start, c);
  }

  /** Seconds the player was connected during [start, end); None without any interval evidence. */
  method CalculateConnectionIntervalActiveSeconds(start: int, end: int, prior: bool, links: seq<Link>)
    returns (seconds: Option<int>, source: Source)
    ensures seconds.None? <==> !prior && forall l :: l in links ==> !l.connected
    ensures seconds.Some? && Ascending(links) ==> seconds.value == ConnectedSeconds(links, prior, start, end)
    ensures source == if seconds.None? then Unavailable else if prior then IntervalsCarryover else Intervals
  {
    var open := if prior then Some(start) else None;
    var total := 0;
    var reliable := prior;
    ghost var mark := start;
    for i := 0 to |links|
      invariant Ascending(links) ==> ClockState(links[..i], prior, start, end, mark, total, open)
      invariant open.Some? ==> reliable
      invariant reliable <==> prior || exists l :: l in links[..i] && l.connected
    {
      var link := links[i];
      assert links[..i + 1] == links[..i] + [link];
      var clamped := Clamp(start, end, link.time);
      if Ascending(links) {
        ClockStep(links[..i], link, prior, start, end, mark, total, open);
      }
      if link.connected {
        if open.None? {
          open, mark := Some(clamped), clamped;
          reliable := true;
        }
        continue;
      }
      if open.None? {
        continue;
      }
      total := total + Positive(clamped - open.value);
      open, mark := None, clamped;
      reliable := true;
    }
    assert links[..|links|] == links;
    if Ascending(links) {
      ClockEnds(links, prior, start, end, mark, total, open);
    }
    if open.Some? {
      total := total + Positive(end - open.value);
    }
    if !reliable {
      return None, Unavailable;
    }
    return Some(total), if prior then IntervalsCarryover else Intervals;
  }

  lemma ClockEnds(links: seq<Link>, prior: bool, start: int, end: int, mark: int, total: int, open: Option<int>)
    requires ClockState(links, prior, start, end, mark, total, open)
    ensures ConnectedSeconds(links, prior, start, end) == total + if open.Some? then Positive(end - mark) else 0
  {
    if mark <= end {
      SteadySeconds(links, prior, start, mark, end, open.Some?);
    }
  }

  // ---------- Splitting a match, and the whole log ----------

  function Through(links: seq<Link>, t: int): seq<Link> {
    if links == [] then []
    else Through(links[..|links| - 1], t) + (if links[|links| - 1].time <= t then [links[|links| - 1]] else [])
  }

  function From(links: seq<Link>, t: int): seq<Link> {
    if links == [] then []
    else From(links[..|links| - 1], t) + (if t <= links[|links| - 1].time then [links[|links| - 1]] else [])
  }

  lemma {:induction false} ThroughDecides(links: seq<Link>, prior: bool, until: int, t: int)
    requires t <= until
    ensures ConnectedAt(Through(links, until), prior, t) == ConnectedAt(links, prior, t)
  {
    if links != [] {
      var front, last := links[..|links| - 1], links[|links| - 1];
      ThroughDecides(front, prior, until, t);
      var kept := Through(front, until);
      assert (kept + [last])[..|kept|] == kept;
      assert kept + [] == kept;
    }
  }

  lemma {:induction false} FromDecides(links: seq<Link>, prior: bool, since: int, t: int)
    requires Ascending(links) && since <= t
    ensures ConnectedAt(From(links, since), ConnectedAt(links, prior, since - 1), t) == ConnectedAt(links, prior, t)
  {
    if links != [] {
      var front, last := links[..|links| - 1], links[|links| - 1];
      FromDecides(front, prior, since, t);
      var kept := From(front, since);
      assert (kept + [last])[..|kept|] == kept;
      assert kept + [] == kept;
      if last.time < since {
        NothingFrom(front, since);
      }
    }
  }

  lemma {:induction false} NothingFrom(links: seq<Link>, since: int)
    requires forall l :: l in links ==> l.time < since
    ensures From(links, since) == []
  {
    if links != [] {
      NothingFrom(links[..|links| - 1], since);
    }
  }

  /**
   Splitting a match at any instant splits its active seconds: the second half starts from the
   state before the instant, exactly what the carry-over query supplies.
   */
  lemma SplittingAMatch(links: seq<Link>, prior: bool, start: int, mid: int, end: int)
    requires Ascending(links) && start <= mid <= end
    ensures ConnectedSeconds(links, prior, start, end)
         == ConnectedSeconds(Through(links, mid), prior, start, mid)
          + ConnectedSeconds(From(links, mid), ConnectedAt(links, prior, mid - 1), mid, end)
  {
    SecondsSplit(links, prior, start, mid, end);
    forall t | start <= t < mid ensures ConnectedAt(Through(links, mid), prior, t) == ConnectedAt(links, prior, t) {
      ThroughDecides(links, prior, mid, t);
    }
    SameSeconds(Through(links, mid), prior, links, prior, start, mid);
    forall t | mid <= t < end
      ensures ConnectedAt(From(links, mid), ConnectedAt(links, prior, mid - 1), t) == ConnectedAt(links, prior, t)
    {
      FromDecides(links, prior, mid, t);
    }
    SameSeconds(From(links, mid), ConnectedAt(links, prior, mid - 1), links, prior, mid, end);
  }

  // The connect and disconnect rows of one player.
  function LinksOf(rows: seq<Event>, player: string): seq<Link> {
    if rows == [] then []
    else
      var e := rows[|rows| - 1];
      LinksOf(rows[..|rows| - 1], player) +
      (if (e.kind.Connected? || e.kind.Disconnected?) && e.payload.playerId == player
       then [Link(e.kind.Connected?, e.time)]
       else [])
  }

  // No link comes after the time `t`.
  ghost predicate LinksUpTo(links: seq<Link>, t: int) {
    forall l :: l in links ==> l.time <= t
  }

  lemma {:induction false} LinksComeFromRows(rows: seq<Event>, player: string, t: int)
    requires forall i :: 0 <= i < |rows| ==> rows[i].time <= t
    ensures LinksUpTo(LinksOf(rows, player), t)
  {
    if rows != [] {
      LinksComeFromRows(rows[..|rows| - 1], player, t);
    }
  }

  lemma {:induction false} LinksAscend(rows: seq<Event>, player: string)
    requires TimeSorted(rows)
    ensures Ascending(LinksOf(rows, player))
  {
    if rows != [] {
      var front, e := rows[..|rows| - 1], rows[|rows| - 1];
      LinksAscend(front, player);
      LinksComeFromRows(front, player, e.time);
      AscendingGrows(LinksOf(front, player), e.time);
    }
  }

  lemma AscendingGrows(links: seq<Link>, t: int)
    requires Ascending(links) && LinksUpTo(links, t)
    ensures forall on :: Ascending(links + [Link(on, t)])
  {
    assert forall i :: 0 <= i < |links| ==> links[i] in links;
  }

  lemma AppendedLink(links: seq<Link>, last: Link, t: int)
    ensures Through(links + [last], t) == if last.time <= t then Through(links, t) + [last] else Through(links, t)
    ensures From(links + [last], t) == if t <= last.time then From(links, t) + [last] else From(links, t)
  {
    assert (links + [last])[..|links|] == links;
    assert Through(links, t) + [] == Through(links, t) && From(links, t) + [] == From(links, t);
  }

  lemma {:induction false} LinksOfSelection(log: seq<Event>, lower: int, upper: int, player: string)
    ensures LinksOf(Select(log, Bounds(Some(lower), Some(upper))), player)
      == Through(From(LinksOf(log, player), lower), upper)
  {
    if log != [] {
      LinksOfSelection(log[..|log| - 1], lower, upper, player);
      assert log == log[..|log| - 1] + [log[|log| - 1]];
      LinksOfSelectionStep(log[..|log| - 1], log[|log| - 1], lower, upper, player);
    }
  }

  lemma LinksOfSelectionStep(log: seq<Event>, e: Event, lower: int, upper: int, player: string)
    requires LinksOf(Select(log, Bounds(Some(lower), Some(upper))), player)
      == Through(From(LinksOf(log, player), lower), upper)
    ensures LinksOf(Select(log + [e], Bounds(Some(lower), Some(upper))), player)
      == Through(From(LinksOf(log + [e], player), lower), upper)
  {
    var b, links, link := Bounds(Some(lower), Some(upper)), LinksOf(log, player), Link(e.kind.Connected?, e.time);
    SelectOneMore(log, e, b);
    LinksOfPush(log, e, player);
    LinksOfPush(Select(log, b), e, player);
    if Toggles(e, player) {
      AppendedLink(links, link, lower);
      AppendedLink(From(links, lower), link, upper);
    }
  }

  lemma SelectOneMore(log: seq<Event>, e: Event, b: Bounds)
    ensures Select(log + [e], b) == if Within(e.time, b) then Select(log, b) + [e] else Select(log, b)
  {
    assert (log + [e])[..|log|] == log;
  }

  /**
   Measured on the match's own rows with the state carried over from before it, the connected
   seconds are those of the player's whole history inside the match.
   */
  lemma MatchSecondsAreHistorySeconds(log: seq<Event>, lower: int, upper: int, player: string)
    requires TimeSorted(log)
    ensures var history := LinksOf(log, player);
      ConnectedSeconds(LinksOf(Select(log, Bounds(Some(lower), Some(upper))), player),
                       ConnectedAt(history, false, lower - 1), lower, upper)
      == ConnectedSeconds(history, false, lower, upper)
  {
    var history := LinksOf(log, player);
    var prior, from := ConnectedAt(history, false, lower - 1), From(history, lower);
    LinksAscend(log, player);
    LinksOfSelection(log, lower, upper, player);
    forall t | lower <= t < upper
      ensures ConnectedAt(Through(from, upper), prior, t) == ConnectedAt(history, false, t)
    {
      ThroughDecides(from, prior, upper, t);
      FromDecides(history, false, lower, t);
    }
    SameSeconds(Through(from, upper), prior, history, false, lower, upper);
  }

  // ---------- The payload ----------

  predicate IsNameKey(player: string) {
    "name:" <= player
  }

  // The clock is used for closed matches and players with an id.
  predicate UsesClock(b: Bounds, player: string) {
    b.lower.Some? && b.upper.Some? && b.lower.value <= b.upper.value && player != "" && !IsNameKey(player)
  }

  /** The connect and disconnect rows of one player among a match's rows. */
  method CollectPlayerConnectionEvents(rows: seq<Event>, player: string) returns (links: seq<Link>)
    ensures links == LinksOf(rows, player)
  {
    links := [];
    for i := 0 to |rows|
      invariant links == LinksOf(rows[..i], player)
    {
      assert rows[..i + 1][..i] == rows[..i];
      var e := rows[i];
      if e.kind.Connected? || e.kind.Disconnected? {
        if e.payload.playerId == player {
          links := links + [Link(e.kind.Connected?, e.time)];
        }
      }
    }
    assert rows[..|rows|] == rows;
  }

  /** The last connect or disconnect strictly before the match, false when there is none. */
  method WasConnectedAtMatchStart(log: seq<Event>, player: string, start: int) returns (connected: bool)
    ensures connected == ConnectedAt(LinksOf(log, player), false, start - 1)
  {
    var links := CollectPlayerConnectionEvents(log, player);
    var i: nat := |links|;
    assert links[..i] == links;
    while i > 0 && start <= links[i - 1].time
      invariant i <= |links|
      invariant ConnectedAt(links, false, start - 1) == ConnectedAt(links[..i], false, start - 1)
    {
      assert links[..i][..i - 1] == links[..i - 1];
      i := i - 1;
    }
    connected := i > 0 && links[i - 1].connected;
  }

  // ---------- Active time, read off the log ----------

  predicate Toggles(e: Event, player: string) {
    e.payload.playerId == player && (e.kind.Connected? || e.kind.Disconnected?)
  }

  // The last row at or before `t` that connects or disconnects the player.
  ghost predicate IsLatestToggle(log: seq<Event>, player: string, t: int, i: int) {
    && 0 <= i < |log| && Toggles(log[i], player) && log[i].time <= t
    && forall j :: i < j < |log| && Toggles(log[j], player) ==> t < log[j].time
  }

  ghost predicate Online(log: seq<Event>, player: string, t: int) {
    exists i :: IsLatestToggle(log, player, t, i) && log[i].kind.Connected?
  }

  ghost function OnlineSeconds(log: seq<Event>, player: string, from: int, until: int): set<int> {
    set t | from <= t < until && Online(log, player, t)
  }

  ghost predicate ConnectsWithin(log: seq<Event>, player: string, from: int, to: int) {
    exists e :: e in log && e.kind.Connected? && e.payload.playerId == player && from <= e.time <= to
  }

  // There is a match with two ends, a player with an id, and a connection seen before or in it.
  ghost predicate IsMeasured(log: seq<Event>, b: Bounds, player: string) {
    && b.lower.Some? && b.upper.Some? && b.lower.value <= b.upper.value
    && player != "" && !(|player| >= 5 && player[..5] == "name:")
    && (Online(log, player, b.lower.value - 1) || ConnectsWithin(log, player, b.lower.value, b.upper.value))
  }

  /** The seconds online within the match when they can be measured, and else the span of the player's events. */
  ghost predicate TimesPlayer(log: seq<Event>, b: Bounds, player: string, first: int, last: int, seconds: int,
                              source: Source) {
    if IsMeasured(log, b, player) then
      && seconds == |OnlineSeconds(log, player, b.lower.value, b.upper.value)|
      && source == if Online(log, player, b.lower.value - 1) then IntervalsCarryover else Intervals
    else seconds == (if first <= last then last - first else 0) && source == EventSpan
  }

  lemma OnlineOneMore(front: seq<Event>, e: Event, player: string, t: int)
    ensures Online(front + [e], player, t)
      <==> if Toggles(e, player) && e.time <= t then e.kind.Connected? else Online(front, player, t)
  {
    var log, n := front + [e], |front|;
    assert forall j :: 0 <= j < n ==> log[j] == front[j];
    if Toggles(e, player) && e.time <= t {
      assert IsLatestToggle(log, player, t, n);
    } else {
      assert forall i :: IsLatestToggle(log, player, t, i) <==> IsLatestToggle(front, player, t, i);
    }
  }

  lemma {:induction false} OnlineIsConnected(log: seq<Event>, player: string, t: int)
    ensures Online(log, player, t) <==> ConnectedAt(LinksOf(log, player), false, t)
    decreases |log|
  {
    if log != [] {
      var front, e := SplitLast(log);
      OnlineIsConnected(front, player, t);
      ConnectedAfterPush(front, e, player, t);
      OnlineOneMore(front, e, player, t);
    }
  }

  lemma LinksOfPush(front: seq<Event>, e: Event, player: string)
    ensures var links := LinksOf(front, player);
      LinksOf(front + [e], player) == if Toggles(e, player) then links + [Link(e.kind.Connected?, e.time)] else links
  {
    assert (front + [e])[..|front|] == front;
    assert LinksOf(front, player) + [] == LinksOf(front, player);
  }

  lemma ConnectedAfterPush(front: seq<Event>, e: Event, player: string, t: int)
    ensures ConnectedAt(LinksOf(front + [e], player), false, t)
      == if Toggles(e, player) && e.time <= t then e.kind.Connected? else ConnectedAt(LinksOf(front, player), false, t)
  {
    LinksOfPush(front, e, player);
    var links, last := LinksOf(front, player), Link(e.kind.Connected?, e.time);
    assert (links + [last])[..|links|] == links;
  }

  lemma {:induction false} SecondsAreOnline(log: seq<Event>, player: string, from: int, until: int)
    ensures ConnectedSeconds(LinksOf(log, player), false, from, until) == |OnlineSeconds(log, player, from, until)|
    decreases until - from
  {
    if from < until {
      SecondsAreOnline(log, player, from, until - 1);
      OnlineIsConnected(log, player, until - 1);
      assert OnlineSeconds(log, player, from, until)
        == OnlineSeconds(log, player, from, until - 1) + if Online(log, player, until - 1) then {until - 1} else {};
    }
  }

  lemma {:induction false} LinksAreToggles(rows: seq<Event>, player: string, l: Link)
    ensures l in LinksOf(rows, player) <==>
      exists e :: e in rows && Toggles(e, player) && Link(e.kind.Connected?, e.time) == l
  {
    if rows != [] {
      var front, e := rows[..|rows| - 1], rows[|rows| - 1];
      LinksAreToggles(front, player, l);
      LinksOfPush(front, e, player);
      assert rows == front + [e];
    }
  }

  lemma ConnectsAreLinks(log: seq<Event>, b: Bounds, player: string)
    requires b.lower.Some? && b.upper.Some?
    ensures ConnectsWithin(log, player, b.lower.value, b.upper.value)
      <==> exists l :: l in LinksOf(Select(log, b), player) && l.connected
  {
    if ConnectsWithin(log, player, b.lower.value, b.upper.value) {
      var e :| e in log && e.kind.Connected? && e.payload.playerId == player
        && b.lower.value <= e.time <= b.upper.value;
      SelectKeepsExactly(log, b, e);
      LinksAreToggles(Select(log, b), player, Link(true, e.time));
    }
    if l :| l in LinksOf(Select(log, b), player) && l.connected {
      LinksAreToggles(Select(log, b), player, l);
      var e :| e in Select(log, b) && Toggles(e, player) && Link(e.kind.Connected?, e.time) == l;
      SelectKeepsExactly(log, b, e);
    }
  }

  lemma OnlineBefore(log: seq<Event>, b: Bounds, player: string)
    requires b.lower.Some? && b.upper.Some?
    ensures Online(log, player, b.lower.value - 1)
      <==> ConnectedAt(LinksOf(log, player), false, b.lower.value - 1)
    ensures ConnectsWithin(log, player, b.lower.value, b.upper.value)
      <==> exists l :: l in LinksOf(Select(log, b), player) && l.connected
    ensures ConnectedSeconds(LinksOf(log, player), false, b.lower.value, b.upper.value)
      == |OnlineSeconds(log, player, b.lower.value, b.upper.value)|
  {
    OnlineIsConnected(log, player, b.lower.value - 1);
    ConnectsAreLinks(log, b, player);
    SecondsAreOnline(log, player, b.lower.value, b.upper.value);
  }

  /** player_active_seconds and its source, for a player first and last seen at the given times. */
  method BuildPlayerActiveTime(log: seq<Event>, b: Bounds, player: string, first: int, last: int)
    returns (seconds: int, source: Source)
    requires TimeSorted(log)
    ensures source == EventSpan || source == Intervals || source == IntervalsCarryover
    ensures source == EventSpan ==> seconds == Positive(last - first)
    ensures source != EventSpan ==> UsesClock(b, player)
    ensures source != EventSpan ==>
      seconds == ConnectedSeconds(LinksOf(log, player), false, b.lower.value, b.upper.value)
    ensures UsesClock(b, player) ==> (source == EventSpan <==>
      !ConnectedAt(LinksOf(log, player), false, b.lower.value - 1)
      && forall l :: l in LinksOf(Select(log, b), player) ==> !l.connected)
    ensures Within(first, b) && Within(last, b) && b.lower.Some? && b.upper.Some? && b.lower.value <= b.upper.value
      ==> 0 <= seconds <= b.upper.value - b.lower.value
    ensures TimesPlayer(log, b, player, first, last, seconds, source)
  {
    seconds, source := Positive(last - first), EventSpan;
    if !UsesClock(b, player) {
      return;
    }
    OnlineBefore(log, b, player);
    var start, end := b.lower.value, b.upper.value;
    var rows := Select(log, b);
    SelectKeepsOrder(log, b);
    LinksAscend(rows, player);
    var links := CollectPlayerConnectionEvents(rows, player);
    var prior := WasConnectedAtMatchStart(log, player, start);
    var measured, kind := CalculateConnectionIntervalActiveSeconds(start, end, prior, links);
    assert b == Bounds(Some(start), Some(end));
    if measured.Some? {
      MatchSecondsAreHistorySeconds(log, start, end, player);
      SecondsAreBounded(LinksOf(log, player), false, start, end);
      seconds, source := measured.value, kind;
    }
  }
}
