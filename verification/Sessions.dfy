/**
 Live samples folded into competitive windows as they arrive (postgres_rcon_storage): the windows of
 a target are the maximal runs of its samples with one map and no long gap.
 */
module Sessions {
  import opened Options
  import opened Counting

  const GAP_SECONDS := 1800

  datatype Sample = Sample(target: int, at: int, mapName: string, players: int, maxPlayers: Option<int>, status: string)

  // One competitive window; `last` is the payload of the newest sample in it.
  datatype Window = Window(target: int, sessionKey: int, mapName: string, firstSeen: int, lastSeen: int,
                           sampleCount: int, totalPlayers: int, peakPlayers: int, last: Sample)

  datatype Names = Names(strip: string -> string, normalized: string -> string)

  // ---------- The windows a target should have ----------

  predicate HasMap(n: Names, s: Sample) {
    n.strip(s.mapName) != ""
  }

  predicate Linked(n: Names, a: Sample, b: Sample) {
    n.normalized(n.strip(a.mapName)) == n.normalized(n.strip(b.mapName)) && b.at - a.at <= GAP_SECONDS
  }

  ghost predicate IsRun(n: Names, run: seq<Sample>) {
    run != [] && forall i :: 0 < i < |run| ==> Linked(n, run[i - 1], run[i])
  }

  function Flatten<T>(runs: seq<seq<T>>): seq<T> {
    if runs == [] then [] else Flatten(runs[..|runs| - 1]) + runs[|runs| - 1]
  }

  ghost predicate Separated(n: Names, a: seq<Sample>, b: seq<Sample>) {
    a != [] && b != [] && !Linked(n, a[|a| - 1], b[0])
  }

  /** `runs` cuts `samples` into runs that cannot be joined. */
  ghost predicate MaximalRuns(n: Names, samples: seq<Sample>, runs: seq<seq<Sample>>) {
    && Flatten(runs) == samples
    && (forall k :: 0 <= k < |runs| ==> IsRun(n, runs[k]))
    && (forall k :: 0 < k < |runs| ==> Separated(n, runs[k - 1], runs[k]))
  }

  function TotalPlayers(run: seq<Sample>): int {
    if run == [] then 0 else TotalPlayers(run[..|run| - 1]) + run[|run| - 1].players
  }

  function PeakPlayers(run: seq<Sample>): int
    requires run != []
  {
    var last := run[|run| - 1].players;
    if |run| == 1 then last
    else if PeakPlayers(run[..|run| - 1]) >= last then PeakPlayers(run[..|run| - 1]) else last
  }

  function WindowOf(n: Names, run: seq<Sample>): Window
    requires run != []
  {
    var last := run[|run| - 1];
    Window(last.target, run[0].at, n.strip(last.mapName), run[0].at, last.at, |run|, TotalPlayers(run),
           PeakPlayers(run), last)
  }

  // The samples of a target that name a map.
  function MappedSamples(n: Names, samples: seq<Sample>, target: int): seq<Sample> {
    if samples == [] then []
    else
      var last := samples[|samples| - 1];
      MappedSamples(n, samples[..|samples| - 1], target)
        + (if last.target == target && HasMap(n, last) then [last] else [])
  }

  function WindowsOf(windows: seq<Window>, target: int): seq<Window> {
    if windows == [] then []
    else
      var last := windows[|windows| - 1];
      WindowsOf(windows[..|windows| - 1], target) + (if last.target == target then [last] else [])
  }

  // ---------- One arriving sample ----------

  // ORDER BY last_seen_at DESC, id DESC LIMIT 1 among the windows of the target.
  function Latest(windows: seq<Window>, target: int): (r: Option<nat>)
    ensures r.Some? ==> r.value < |windows| && windows[r.value].target == target
    ensures r.None? ==> forall i :: 0 <= i < |windows| ==> windows[i].target != target
    ensures r.Some? ==> forall i :: 0 <= i < |windows| && windows[i].target == target ==>
      windows[i].lastSeen < windows[r.value].lastSeen
        || (windows[i].lastSeen == windows[r.value].lastSeen && i <= r.value)
  {
    if windows == [] then None
    else
      var front, last := windows[..|windows| - 1], windows[|windows| - 1];
      var earlier := Latest(front, target);
      if last.target == target && (earlier.None? || front[earlier.value].lastSeen <= last.lastSeen) then Some(|front|)
        else earlier
  }

  predicate Extends(n: Names, w: Window, s: Sample) {
    n.normalized(w.mapName) == n.normalized(n.strip(s.mapName)) && s.at - w.lastSeen <= GAP_SECONDS
  }

  function Extended(n: Names, w: Window, s: Sample): Window {
    w.(mapName := n.strip(s.mapName), lastSeen := s.at, sampleCount := w.sampleCount + 1,
       totalPlayers := w.totalPlayers + s.players,
       peakPlayers := if w.peakPlayers >= s.players then w.peakPlayers else s.players, last := s)
  }

  function Opened(n: Names, s: Sample): Window {
    Window(s.target, s.at, n.strip(s.mapName), s.at, s.at, 1, s.players, s.players, s)
  }

  function AfterSample(n: Names, windows: seq<Window>, s: Sample): seq<Window> {
    if !HasMap(n, s) then windows
    else
      var latest := Latest(windows, s.target);
      if latest.Some? && Extends(n, windows[latest.value], s)
      then windows[latest.value := Extended(n, windows[latest.value], s)]
      else windows + [Opened(n, s)]
  }

  predicate IsStored(samples: seq<Sample>, s: Sample) {
    exists t <- samples :: t.target == s.target && t.at == s.at
  }

  // The samples kept of a feed: the first of each target and instant.
  function Stored(feed: seq<Sample>): seq<Sample> {
    if feed == [] then []
    else
      var before, s := Stored(feed[..|feed| - 1]), feed[|feed| - 1];
      if IsStored(before, s) then before else before + [s]
  }

  function WindowsAfter(n: Names, samples: seq<Sample>): seq<Window> {
    if samples == [] then [] else AfterSample(n, WindowsAfter(n, samples[..|samples| - 1]), samples[|samples| - 1])
  }

  lemma StoredOneMore(feed: seq<Sample>, i: nat, read: seq<Sample>, before: seq<Sample>, after: seq<Sample>,
                      inserted: int, duplicates: int)
    requires i < |feed| && read == feed[..i] && before == Stored(read)
    requires inserted == (if IsStored(before, feed[i]) then 0 else 1) && duplicates == 1 - inserted
    requires after == if IsStored(before, feed[i]) then before else before + [feed[i]]
    ensures after == Stored(feed[..i + 1]) && |after| == |before| + inserted && inserted + duplicates == 1
  {
    assert feed[..i + 1][..i] == feed[..i];
  }

  lemma WindowsOneMore(n: Names, samples: seq<Sample>, s: Sample)
    ensures WindowsAfter(n, samples + [s]) == AfterSample(n, WindowsAfter(n, samples), s)
  {
    assert (samples + [s])[..|samples|] == samples;
  }

  /** The sample and window tables. */
  class SampleStore {
    var samples: seq<Sample>
    var windows: seq<Window>

    constructor ()
      ensures samples == [] && windows == []
    {
      samples, windows := [], [];
    }

    method UpsertCompetitiveWindow(n: Names, s: Sample)
      modifies this`windows
      ensures windows == AfterSample(n, old(windows), s)
    {
      var currentMap := n.strip(s.mapName);
      if currentMap == "" {
        return;
      }
      var latest := Latest(windows, s.target);
      if latest.Some? {
        var w := windows[latest.value];
        if n.normalized(w.mapName) == n.normalized(currentMap) && s.at - w.lastSeen <= GAP_SECONDS {
          var peak := if w.peakPlayers >= s.players then w.peakPlayers else s.players;
          windows := windows[latest.value := Window(w.target, w.sessionKey, currentMap, w.firstSeen, s.at,
            w.sampleCount + 1, w.totalPlayers + s.players, peak, s)];
          return;
        }
      }
      windows := windows + [Window(s.target, s.at, currentMap, s.at, s.at, 1, s.players, s.players, s)];
    }

    // The windows are what the stored samples give, one at a time.
    ghost predicate Folded(n: Names)
      reads this
    {
      windows == WindowsAfter(n, samples)
    }

    /** persist_sample: a sample already stored changes nothing; a new one is stored and folded in. */
    method PersistSample(n: Names, s: Sample) returns (inserted: int, duplicates: int)
      requires Folded(n)
      modifies this
      ensures Folded(n)
      ensures inserted == (if IsStored(old(samples), s) then 0 else 1) && duplicates == 1 - inserted
      ensures samples == if IsStored(old(samples), s) then old(samples) else old(samples) + [s]
      ensures IsStored(old(samples), s) ==> windows == old(windows)
    {
      if IsStored(samples, s) {
        return 0, 1;
      }
      WindowsOneMore(n, samples, s);
      samples := samples + [s];
      UpsertCompetitiveWindow(n, s);
      return 1, 0;
    }

    /** A whole feed, one sample at a time. */
    method PersistFeed(n: Names, feed: seq<Sample>) returns (inserted: int, duplicates: int)
      requires samples == [] && windows == []
      modifies this
      ensures samples == Stored(feed) && Folded(n)
      ensures inserted == |Stored(feed)| && inserted + duplicates == |feed|
    {
      inserted, duplicates := 0, 0;
      for i := 0 to |feed|
        invariant samples == Stored(feed[..i]) && Folded(n)
        invariant inserted == |samples| && inserted + duplicates == i
      {
        ghost var before, read := samples, feed[..i];
        var more, again := PersistSample(n, feed[i]);
        StoredOneMore(feed, i, read, before, samples, more, again);
        inserted, duplicates := inserted + more, duplicates + again;
      }
      assert feed[..|feed|] == feed;
    }
  }

  // ---------- The windows are the maximal runs ----------

  // Samples of one target arrive in time order; different targets interleave freely.
  ghost predicate InTimeOrder(samples: seq<Sample>) {
    forall i, j :: 0 <= i < j < |samples| && samples[i].target == samples[j].target ==> samples[i].at < samples[j].at
  }

  function RunsOf(n: Names, samples: seq<Sample>): seq<seq<Sample>> {
    if samples == [] then [] else JoinOrOpen(n, RunsOf(n, samples[..|samples| - 1]), samples[|samples| - 1])
  }

  // The sample joins the last run, or opens one.
  function JoinOrOpen(n: Names, runs: seq<seq<Sample>>, s: Sample): seq<seq<Sample>> {
    if runs != [] && runs[|runs| - 1] != [] && Linked(n, runs[|runs| - 1][|runs[|runs| - 1]| - 1], s)
    then runs[..|runs| - 1] + [runs[|runs| - 1] + [s]]
    else runs + [[s]]
  }

  function WindowsOfRuns(n: Names, runs: seq<seq<Sample>>): seq<Window>
    requires forall k :: 0 <= k < |runs| ==> runs[k] != []
  {
    seq(|runs|, k requires 0 <= k < |runs| => WindowOf(n, runs[k]))
  }

  lemma JoiningIsMaximal(n: Names, front: seq<Sample>, runs: seq<seq<Sample>>, s: Sample)
    requires MaximalRuns(n, front, runs) && runs != [] && runs[|runs| - 1] != []
    requires Linked(n, runs[|runs| - 1][|runs[|runs| - 1]| - 1], s)
    ensures MaximalRuns(n, front + [s], runs[..|runs| - 1] + [runs[|runs| - 1] + [s]])
  {
    var last := runs[|runs| - 1];
    var now := runs[..|runs| - 1] + [last + [s]];
    assert now[..|now| - 1] == runs[..|runs| - 1];
    assert Flatten(now) == Flatten(runs[..|runs| - 1]) + (last + [s]) == front + [s];
    forall i | 0 < i < |last + [s]| ensures Linked(n, (last + [s])[i - 1], (last + [s])[i]) {
      assert IsRun(n, last) && (i < |last| ==> Linked(n, last[i - 1], last[i]));
    }
    forall k | 0 < k < |now| ensures Separated(n, now[k - 1], now[k]) {
      assert Separated(n, runs[k - 1], runs[k]);
    }
  }

  lemma OpeningIsMaximal(n: Names, front: seq<Sample>, runs: seq<seq<Sample>>, s: Sample)
    requires MaximalRuns(n, front, runs)
    requires runs != [] ==> runs[|runs| - 1] == [] || !Linked(n, runs[|runs| - 1][|runs[|runs| - 1]| - 1], s)
    ensures MaximalRuns(n, front + [s], runs + [[s]])
  {
    var now := runs + [[s]];
    assert now[..|now| - 1] == runs;
    forall k | 0 < k < |now| ensures Separated(n, now[k - 1], now[k]) {
      assert k < |runs| ==> Separated(n, runs[k - 1], runs[k]);
      assert IsRun(n, runs[k - 1]);
    }
  }

  /** RunsOf is such a cut. */
  lemma {:induction false} RunsAreMaximal(n: Names, samples: seq<Sample>)
    ensures MaximalRuns(n, samples, RunsOf(n, samples))
  {
    if samples != [] {
      var front, s := samples[..|samples| - 1], samples[|samples| - 1];
      var runs := RunsOf(n, front);
      RunsAreMaximal(n, front);
      assert samples == front + [s];
      if runs != [] && runs[|runs| - 1] != [] && Linked(n, runs[|runs| - 1][|runs[|runs| - 1]| - 1], s) {
        JoiningIsMaximal(n, front, runs, s);
      } else {
        OpeningIsMaximal(n, front, runs, s);
      }
    }
  }

  // A partition without its last sample.
  function Shortened(runs: seq<seq<Sample>>): seq<seq<Sample>>
    requires runs != [] && runs[|runs| - 1] != []
  {
    var last := runs[|runs| - 1];
    runs[..|runs| - 1] + (if |last| == 1 then [] else [last[..|last| - 1]])
  }

  lemma ShortenedIsMaximal(n: Names, samples: seq<Sample>, runs: seq<seq<Sample>>)
    requires MaximalRuns(n, samples, runs) && samples != []
    ensures runs != [] && runs[|runs| - 1] != [] && MaximalRuns(n, samples[..|samples| - 1], Shortened(runs))
  {
    var front, last := runs[..|runs| - 1], runs[|runs| - 1];
    assert IsRun(n, last);
    var shorter := Shortened(runs);
    if |last| == 1 {
      assert shorter == front;
      assert samples[..|samples| - 1] == Flatten(front);
    } else {
      assert shorter[..|shorter| - 1] == front;
      var cut := last[..|last| - 1];
      assert samples[..|samples| - 1] == Flatten(front) + cut;
      forall i | 0 < i < |cut| ensures Linked(n, cut[i - 1], cut[i]) {
        assert Linked(n, last[i - 1], last[i]);
      }
    }
    forall k | 0 < k < |shorter| ensures Separated(n, shorter[k - 1], shorter[k]) {
      assert Separated(n, runs[k - 1], runs[k]);
    }
  }

  lemma RunsHoldSamples(n: Names, samples: seq<Sample>, runs: seq<seq<Sample>>)
    requires MaximalRuns(n, samples, runs)
    ensures runs != [] ==> samples != []
  {
    assert |runs| > 0 ==> IsRun(n, runs[|runs| - 1]);
  }

  /** There is only one way to cut samples into maximal runs. */
  lemma {:induction false} MaximalRunsAreUnique(n: Names, samples: seq<Sample>, runs: seq<seq<Sample>>)
    requires MaximalRuns(n, samples, runs)
    ensures runs == RunsOf(n, samples)
  {
    RunsHoldSamples(n, samples, runs);
    if samples != [] {
      ShortenedIsMaximal(n, samples, runs);
      MaximalRunsAreUnique(n, samples[..|samples| - 1], Shortened(runs));
      var front, last := runs[..|runs| - 1], runs[|runs| - 1];
      assert last[|last| - 1] == samples[|samples| - 1];
      assert last == last[..|last| - 1] + [last[|last| - 1]] && runs == front + [last];
      if |last| == 1 {
        assert Shortened(runs) == front;
        assert |front| > 0 ==> Separated(n, runs[|front| - 1], last);
      } else {
        assert IsRun(n, last) && Linked(n, last[|last| - 2], last[|last| - 1]);
        assert Shortened(runs)[..|front|] == front;
      }
    }
  }

  lemma {:induction false} WindowsOfHolds(windows: seq<Window>, target: int, i: int)
    requires 0 <= i < |windows| && windows[i].target == target
    ensures windows[i] in WindowsOf(windows, target)
  {
    if i < |windows| - 1 {
      WindowsOfHolds(windows[..|windows| - 1], target, i);
    }
  }

  lemma {:induction false} UpdateOther(windows: seq<Window>, target: int, i: int, w: Window)
    requires 0 <= i < |windows| && windows[i].target != target && w.target != target
    ensures WindowsOf(windows[i := w], target) == WindowsOf(windows, target)
  {
    var front := windows[..|windows| - 1];
    if i < |front| {
      UpdateOther(front, target, i, w);
      assert windows[i := w][..|front|] == front[i := w];
    } else {
      assert windows[i := w][..|front|] == front;
    }
  }

  // When the newest window of a target is the last one made, it is the one an extension changes.
  lemma {:induction false} LatestIsLast(windows: seq<Window>, target: int, w: Window)
    requires var ws := WindowsOf(windows, target);
      ws != [] && forall k :: 0 <= k < |ws| ==> ws[k].lastSeen <= ws[|ws| - 1].lastSeen
    requires w.target == target
    ensures var ws, latest := WindowsOf(windows, target), Latest(windows, target);
      latest.Some? && windows[latest.value] == ws[|ws| - 1]
      && WindowsOf(windows[latest.value := w], target) == ws[..|ws| - 1] + [w]
  {
    var front, last := windows[..|windows| - 1], windows[|windows| - 1];
    var ws := WindowsOf(windows, target);
    if last.target == target {
      var earlier := Latest(front, target);
      if earlier.Some? {
        WindowsOfHolds(front, target, earlier.value);
        var k :| 0 <= k < |WindowsOf(front, target)| && WindowsOf(front, target)[k] == front[earlier.value];
        assert ws[k] == front[earlier.value];
      }
      assert windows[|front| := w][..|front|] == front;
    } else {
      assert ws == WindowsOf(front, target);
      LatestIsLast(front, target, w);
      var i := Latest(front, target).value;
      assert windows[i := w][..|front|] == front[i := w];
    }
  }

  // The runs of a time-ordered target, with the instants their windows end at.
  ghost predicate EndsInOrder(runs: seq<seq<Sample>>, newest: Option<int>) {
    && (forall k :: 0 <= k < |runs| ==> runs[k] != [])
    && (forall k :: 0 <= k < |runs| ==> newest.Some? && runs[k][|runs[k]| - 1].at <= newest.value)
    && (runs != [] ==> newest == Some(runs[|runs| - 1][|runs[|runs| - 1]| - 1].at))
  }

  function NewestAt(samples: seq<Sample>): Option<int> {
    if samples == [] then None else Some(samples[|samples| - 1].at)
  }

  ghost predicate Ascending(samples: seq<Sample>) {
    forall i, j :: 0 <= i < j < |samples| ==> samples[i].at < samples[j].at
  }

  lemma {:induction false} RunsEndInOrder(n: Names, samples: seq<Sample>)
    requires Ascending(samples)
    ensures EndsInOrder(RunsOf(n, samples), NewestAt(samples))
  {
    if samples != [] {
      var front, s := samples[..|samples| - 1], samples[|samples| - 1];
      RunsEndInOrder(n, front);
      OneMoreEndsInOrder(n, RunsOf(n, front), NewestAt(front), s);
    }
  }

  lemma OneMoreEndsInOrder(n: Names, runs: seq<seq<Sample>>, newest: Option<int>, s: Sample)
    requires EndsInOrder(runs, newest) && (newest.Some? ==> newest.value < s.at)
    ensures EndsInOrder(runs + [[s]], Some(s.at))
    ensures runs != [] ==> EndsInOrder(runs[..|runs| - 1] + [runs[|runs| - 1] + [s]], Some(s.at))
  {
  }

  lemma {:induction false} MappedAreAscending(n: Names, samples: seq<Sample>, target: int)
    requires InTimeOrder(samples)
    ensures Ascending(MappedSamples(n, samples, target))
    ensures forall s :: s in MappedSamples(n, samples, target) ==> s in samples && s.target == target && HasMap(n, s)
    ensures var mapped := MappedSamples(n, samples, target);
      forall i :: 0 <= i < |mapped| ==> mapped[i].target == target
  {
    if samples != [] {
      var front, last := samples[..|samples| - 1], samples[|samples| - 1];
      MappedAreAscending(n, front, target);
      forall s | s in MappedSamples(n, front, target) && last.target == target ensures s.at < last.at {
        var i :| 0 <= i < |front| && front[i] == s;
        assert samples[i] == s;
      }
      var mapped := MappedSamples(n, front, target);
      forall i | 0 <= i < |mapped| ensures mapped[i] in mapped {
      }
    }
  }

  lemma WindowOfLonger(n: Names, run: seq<Sample>, s: Sample)
    requires run != [] && run[|run| - 1].target == s.target
    ensures WindowOf(n, run + [s]) == Extended(n, WindowOf(n, run), s)
    ensures Extends(n, WindowOf(n, run), s) == Linked(n, run[|run| - 1], s)
  {
    assert (run + [s])[..|run|] == run;
  }

  lemma WindowOfFirst(n: Names, s: Sample)
    ensures WindowOf(n, [s]) == Opened(n, s)
  {
    assert [s][..0] == [];
    assert TotalPlayers([s]) == TotalPlayers([s][..0]) + s.players;
  }

  lemma ExtendingLastRun(n: Names, runs: seq<seq<Sample>>, s: Sample)
    requires (forall k :: 0 <= k < |runs| ==> runs[k] != []) && runs != []
    requires runs[|runs| - 1][|runs[|runs| - 1]| - 1].target == s.target
    ensures var last, ws := runs[|runs| - 1], WindowsOfRuns(n, runs);
      WindowsOfRuns(n, runs[..|runs| - 1] + [last + [s]]) == ws[..|ws| - 1] + [Extended(n, ws[|ws| - 1], s)]
  {
    WindowOfLonger(n, runs[|runs| - 1], s);
  }

  lemma OpeningRun(n: Names, runs: seq<seq<Sample>>, s: Sample)
    requires forall k :: 0 <= k < |runs| ==> runs[k] != []
    ensures WindowsOfRuns(n, runs + [[s]]) == WindowsOfRuns(n, runs) + [Opened(n, s)]
  {
    WindowOfFirst(n, s);
  }

  // The newest window of the target and the windows after an extension of it.
  lemma NewestWindow(n: Names, windows: seq<Window>, runs: seq<seq<Sample>>, newest: Option<int>, s: Sample)
    requires EndsInOrder(runs, newest) && WindowsOf(windows, s.target) == WindowsOfRuns(n, runs) && runs != []
    requires runs[|runs| - 1][|runs[|runs| - 1]| - 1].target == s.target
    ensures var latest, w := Latest(windows, s.target), WindowOf(n, runs[|runs| - 1]);
      && latest.Some? && windows[latest.value] == w
      && Extends(n, w, s) == Linked(n, runs[|runs| - 1][|runs[|runs| - 1]| - 1], s)
      && WindowsOf(windows[latest.value := Extended(n, w, s)], s.target)
        == WindowsOfRuns(n, runs[..|runs| - 1] + [runs[|runs| - 1] + [s]])
  {
    var ws := WindowsOf(windows, s.target);
    LatestIsLast(windows, s.target, Extended(n, ws[|ws| - 1], s));
    WindowOfLonger(n, runs[|runs| - 1], s);
    ExtendingLastRun(n, runs, s);
  }

  // One more mapped sample of the target, on the windows its runs have so far.
  lemma SampleExtendsRuns(n: Names, windows: seq<Window>, mapped: seq<Sample>, s: Sample)
    requires EndsInOrder(RunsOf(n, mapped), NewestAt(mapped))
    requires (forall i :: 0 <= i < |mapped| ==> mapped[i].target == s.target)
    requires WindowsOf(windows, s.target) == WindowsOfRuns(n, RunsOf(n, mapped)) && HasMap(n, s)
    ensures EndsInOrder(RunsOf(n, mapped + [s]), Some(s.at)) ==>
      WindowsOf(AfterSample(n, windows, s), s.target) == WindowsOfRuns(n, RunsOf(n, mapped + [s]))
  {
    var runs := RunsOf(n, mapped);
    RunsOneMore(n, mapped, s);
    WindowsOfOneMore(windows, Opened(n, s));
    OpeningRun(n, runs, s);
    if mapped == [] {
      NoWindowOfTarget(windows, s.target);
    } else {
      LastSampleOfRuns(n, mapped);
      NewestWindow(n, windows, runs, NewestAt(mapped), s);
    }
  }

  lemma RunsOneMore(n: Names, mapped: seq<Sample>, s: Sample)
    ensures RunsOf(n, mapped + [s]) == JoinOrOpen(n, RunsOf(n, mapped), s)
  {
    assert (mapped + [s])[..|mapped|] == mapped;
  }

  lemma WindowsOfOneMore(windows: seq<Window>, w: Window)
    ensures WindowsOf(windows + [w], w.target) == WindowsOf(windows, w.target) + [w]
  {
    assert (windows + [w])[..|windows|] == windows;
  }

  lemma LastSampleOfRuns(n: Names, mapped: seq<Sample>)
    requires mapped != []
    ensures var runs := RunsOf(n, mapped);
      runs != [] && runs[|runs| - 1] != [] && runs[|runs| - 1][|runs[|runs| - 1]| - 1] == mapped[|mapped| - 1]
  {
  }

  lemma {:induction false} NoWindowOfTarget(windows: seq<Window>, target: int)
    requires WindowsOf(windows, target) == []
    ensures Latest(windows, target).None?
  {
    if windows != [] {
      NoWindowOfTarget(windows[..|windows| - 1], target);
    }
  }

  lemma OtherSampleChangesNothing(n: Names, windows: seq<Window>, s: Sample, target: int)
    requires s.target != target
    ensures WindowsOf(AfterSample(n, windows, s), target) == WindowsOf(windows, target)
  {
    var latest := Latest(windows, s.target);
    if HasMap(n, s) {
      if latest.Some? {
        UpdateOther(windows, target, latest.value, Extended(n, windows[latest.value], s));
      }
      assert (windows + [Opened(n, s)])[..|windows|] == windows;
    }
  }

  // The windows of the target are those of its runs.
  ghost predicate ShowsRuns(n: Names, samples: seq<Sample>, target: int) {
    var runs := RunsOf(n, MappedSamples(n, samples, target));
    && (forall k :: 0 <= k < |runs| ==> runs[k] != [])
    && WindowsOf(WindowsAfter(n, samples), target) == WindowsOfRuns(n, runs)
  }

  lemma MappedRunsEndInOrder(n: Names, samples: seq<Sample>, target: int)
    requires InTimeOrder(samples)
    ensures var mapped := MappedSamples(n, samples, target);
      EndsInOrder(RunsOf(n, mapped), NewestAt(mapped)) && forall i :: 0 <= i < |mapped| ==> mapped[i].target == target
  {
    MappedAreAscending(n, samples, target);
    RunsEndInOrder(n, MappedSamples(n, samples, target));
  }

  lemma UnrelatedSample(n: Names, front: seq<Sample>, s: Sample, target: int)
    requires ShowsRuns(n, front, target) && !(s.target == target && HasMap(n, s))
    ensures ShowsRuns(n, front + [s], target)
  {
    assert (front + [s])[..|front|] == front;
    assert MappedSamples(n, front + [s], target) == MappedSamples(n, front, target);
    if s.target != target {
      OtherSampleChangesNothing(n, WindowsAfter(n, front), s, target);
    }
  }

  lemma MappedSample(n: Names, front: seq<Sample>, s: Sample)
    requires InTimeOrder(front + [s]) && InTimeOrder(front) && ShowsRuns(n, front, s.target) && HasMap(n, s)
    ensures ShowsRuns(n, front + [s], s.target)
  {
    var mapped := MappedSamples(n, front, s.target);
    MappedPush(n, front, s);
    WindowsOneMore(n, front, s);
    MappedRunsEndInOrder(n, front + [s], s.target);
    MappedRunsEndInOrder(n, front, s.target);
    SampleExtendsRuns(n, WindowsAfter(n, front), mapped, s);
    assert NewestAt(mapped + [s]) == Some(s.at);
  }

  lemma MappedPush(n: Names, front: seq<Sample>, s: Sample)
    requires HasMap(n, s)
    ensures MappedSamples(n, front + [s], s.target) == MappedSamples(n, front, s.target) + [s]
  {
    assert (front + [s])[..|front|] == front;
  }

  lemma {:induction false} SamplesShowRuns(n: Names, samples: seq<Sample>, target: int)
    requires InTimeOrder(samples)
    ensures ShowsRuns(n, samples, target)
  {
    if samples != [] {
      var front := samples[..|samples| - 1];
      SamplesShowRuns(n, front, target);
      var s := samples[|front|];
      assert samples == front + [s];
      if s.target == target && HasMap(n, s) {
        MappedSample(n, front, s);
      } else {
        UnrelatedSample(n, front, s, target);
      }
    }
  }

  /** The windows of a target, whatever other targets send between its samples, are its only cut into maximal runs. */
  lemma WindowsAreTheRuns(n: Names, samples: seq<Sample>, target: int, runs: seq<seq<Sample>>)
    requires InTimeOrder(samples) && MaximalRuns(n, MappedSamples(n, samples, target), runs)
    ensures (forall k :: 0 <= k < |runs| ==> runs[k] != [])
    ensures WindowsOf(WindowsAfter(n, samples), target) == WindowsOfRuns(n, runs)
  {
    MaximalRunsAreUnique(n, MappedSamples(n, samples, target), runs);
    SamplesShowRuns(n, samples, target);
  }

  // ---------- Every sample is counted once ----------

  function SampleCount(windows: seq<Window>): int {
    if windows == [] then 0 else SampleCount(windows[..|windows| - 1]) + windows[|windows| - 1].sampleCount
  }

  lemma {:induction false} CountAfterUpdate(windows: seq<Window>, i: int, w: Window)
    requires 0 <= i < |windows|
    ensures SampleCount(windows[i := w]) == SampleCount(windows) - windows[i].sampleCount + w.sampleCount
  {
    var front := windows[..|windows| - 1];
    if i < |front| {
      CountAfterUpdate(front, i, w);
      assert windows[i := w][..|front|] == front[i := w];
    } else {
      assert windows[i := w][..|front|] == front;
    }
  }

  function MappedCount(n: Names, samples: seq<Sample>): int {
    if samples == [] then 0
      else MappedCount(n, samples[..|samples| - 1]) + (if HasMap(n, samples[|samples| - 1]) then 1 else 0)
  }

  /** In whatever order the samples come, the windows together count each stored sample with a map once. */
  lemma {:induction false} SamplesAreConserved(n: Names, samples: seq<Sample>)
    ensures SampleCount(WindowsAfter(n, samples)) == MappedCount(n, samples)
  {
    if samples != [] {
      var windows, s := WindowsAfter(n, samples[..|samples| - 1]), samples[|samples| - 1];
      SamplesAreConserved(n, samples[..|samples| - 1]);
      assert (windows + [Opened(n, s)])[..|windows|] == windows;
      var latest := Latest(windows, s.target);
      if latest.Some? {
        CountAfterUpdate(windows, latest.value, Extended(n, windows[latest.value], s));
      }
    }
  }

  /** The peak of a window is the most players of a sample of its run. */
  lemma {:induction false} PeakIsAttained(run: seq<Sample>)
    requires run != []
    ensures forall i :: 0 <= i < |run| ==> run[i].players <= PeakPlayers(run)
    ensures exists i :: 0 <= i < |run| && run[i].players == PeakPlayers(run)
  {
    var front := run[..|run| - 1];
    if front != [] {
      PeakIsAttained(front);
      var i :| 0 <= i < |front| && front[i].players == PeakPlayers(front);
      assert run[i] == front[i];
      assert forall k :: 0 <= k < |front| ==> run[k] == front[k];
    }
    assert run[|run| - 1].players <= PeakPlayers(run);
  }

  // ---------- Which samples are stored, and which share a window ----------

  // No earlier sample of the feed has the target and the instant of the `i`-th.
  ghost predicate IsFirstReport(feed: seq<Sample>, i: int) {
    && 0 <= i < |feed|
    && forall j :: 0 <= j < i ==> feed[j].target != feed[i].target || feed[j].at != feed[i].at
  }

  // `at` lists the first reports of the feed in order.
  ghost predicate ListsFirstReports(feed: seq<Sample>, at: seq<int>) {
    && (forall k :: 0 <= k < |at| ==> IsFirstReport(feed, at[k]))
    && (forall k, l :: 0 <= k < l < |at| ==> at[k] < at[l])
    && (forall i :: IsFirstReport(feed, i) ==> i in at)
  }

  lemma FirstReportsOneMore(feed: seq<Sample>, s: Sample, at: seq<int>)
    requires ListsFirstReports(feed, at)
    ensures ListsFirstReports(feed + [s], if IsFirstReport(feed + [s], |feed|) then at + [|feed|] else at)
  {
    var more := feed + [s];
    forall i | 0 <= i < |feed| ensures IsFirstReport(more, i) <==> IsFirstReport(feed, i) {
      assert forall j :: 0 <= j <= i ==> more[j] == feed[j];
    }
    assert forall k :: 0 <= k < |at| ==> IsFirstReport(feed, at[k]);
  }

  lemma StoredIsReported(feed: seq<Sample>, s: Sample, at: seq<int>)
    requires ListsFirstReports(feed, at) && IndexesStored(feed, at)
    ensures IsStored(Stored(feed), s) <==> !IsFirstReport(feed + [s], |feed|)
  {
    if IsStored(Stored(feed), s) {
      var k :| 0 <= k < |at| && Stored(feed)[k].target == s.target && Stored(feed)[k].at == s.at;
      assert IsFirstReport(feed, at[k]) && (feed + [s])[at[k]] == feed[at[k]];
    }
    if !IsFirstReport(feed + [s], |feed|) {
      var j :| 0 <= j < |feed| && feed[j].target == s.target && feed[j].at == s.at;
      var i := FirstLikeIt(feed, j);
      var k :| 0 <= k < |at| && at[k] == i;
      assert Stored(feed)[k] in Stored(feed);
    }
  }

  lemma {:induction false} FirstLikeIt(feed: seq<Sample>, j: int) returns (i: int)
    requires 0 <= j < |feed|
    ensures IsFirstReport(feed, i) && feed[i].target == feed[j].target && feed[i].at == feed[j].at
    decreases j
  {
    i := j;
    if !IsFirstReport(feed, j) {
      var earlier :| 0 <= earlier < j && feed[earlier].target == feed[j].target && feed[earlier].at == feed[j].at;
      i := FirstLikeIt(feed, earlier);
    }
  }

  ghost predicate IndexesStored(feed: seq<Sample>, at: seq<int>) {
    |at| == |Stored(feed)| && forall k :: 0 <= k < |at| ==> 0 <= at[k] < |feed| && Stored(feed)[k] == feed[at[k]]
  }

  lemma StoredPush(feed: seq<Sample>, s: Sample)
    ensures Stored(feed + [s]) == if IsStored(Stored(feed), s) then Stored(feed) else Stored(feed) + [s]
  {
    assert (feed + [s])[..|feed|] == feed;
  }

  lemma IndexesOneMore(feed: seq<Sample>, s: Sample, at: seq<int>)
    requires IndexesStored(feed, at)
    ensures IndexesStored(feed + [s], if IsStored(Stored(feed), s) then at else at + [|feed|])
  {
    StoredPush(feed, s);
  }

  ghost predicate IsFirstStored(feed: seq<Sample>, at: seq<int>) {
    ListsFirstReports(feed, at) && IndexesStored(feed, at)
  }

  lemma FirstStoredOneMore(feed: seq<Sample>, s: Sample, at: seq<int>)
    requires IsFirstStored(feed, at)
    ensures IsFirstStored(feed + [s], if IsStored(Stored(feed), s) then at else at + [|feed|])
  {
    StoredIsReported(feed, s, at);
    FirstReportsOneMore(feed, s, at);
    IndexesOneMore(feed, s, at);
  }

  /** What is stored of a feed are its first reports of each target and instant, in the order they came. */
  lemma {:induction false} StoredAreFirstReports(feed: seq<Sample>) returns (at: seq<int>)
    ensures IsFirstStored(feed, at)
    decreases |feed|
  {
    if feed == [] {
      at := [];
    } else {
      var front, s := SplitLast(feed);
      assert |front| < |feed|;
      at := StoredAreFirstReports(front);
      FirstStoredOneMore(front, s, at);
      at := if IsStored(Stored(front), s) then at else at + [|front|];
    }
  }

  /** Two samples in a row share a window exactly when their maps read alike and half an hour has not passed. */
  lemma TwoSamplesShareIff(n: Names, a: Sample, b: Sample)
    requires a.target == b.target && n.strip(a.mapName) != "" && n.strip(b.mapName) != ""
    ensures |WindowsAfter(n, [a, b])| == 1 <==>
      n.normalized(n.strip(a.mapName)) == n.normalized(n.strip(b.mapName)) && b.at <= a.at + 30 * 60
  {
    WindowsOneMore(n, [], a);
    WindowsOneMore(n, [a], b);
    assert [] + [a] == [a] && [a] + [b] == [a, b];
    assert WindowsAfter(n, []) == [] && WindowsAfter(n, [a]) == [Opened(n, a)];
  }
}
