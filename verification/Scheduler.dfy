/**
 The public refresh scheduler of historical_runner: which slot is current, which jobs a cycle runs, and
 what every run of cycles and historical refreshes with a clock that does not go back keeps.
 */
module Scheduler {
  const HOUR := 3600
  const DAY := 86400

  // Instants are seconds of local wall-clock time on a calendar of 24-hour days.
  function HourOfDay(t: int): int {
    t / HOUR % 24
  }

  // ---------- The current slot ----------

  // `minute` past an hour that the interval allows.
  predicate Aligned(t: int, minute: int, hourInterval: int)
    requires hourInterval > 0
  {
    t % HOUR == minute * 60 && HourOfDay(t) % hourInterval == 0
  }

  ghost predicate IsLatest(r: int, now: int, aligned: int -> bool) {
    r <= now && aligned(r) && forall t :: r < t <= now ==> !aligned(t)
  }

  function AlignedTo(minute: int, hourInterval: int): int -> bool
    requires hourInterval > 0
  {
    t => Aligned(t, minute, hourInterval)
  }

  lemma HourBack(t: int)
    ensures (t - HOUR) % HOUR == t % HOUR
    ensures HourOfDay(t) > 0 ==> HourOfDay(t - HOUR) == HourOfDay(t) - 1
    ensures 0 <= HourOfDay(t) < 24
  {
    assert (t - HOUR) / HOUR == t / HOUR - 1;
  }

  ghost predicate NoneAligned(after: int, now: int, minute: int, hourInterval: int)
    requires hourInterval > 0
  {
    forall t :: after < t <= now ==> !Aligned(t, minute, hourInterval)
  }

  lemma NoneWithinTheHour(t: int, candidate: int)
    requires candidate - HOUR < t < candidate || candidate < t < candidate + HOUR
    ensures t % HOUR != candidate % HOUR
  {
  }

  lemma HourSkipped(candidate: int, now: int, minute: int, hourInterval: int)
    requires hourInterval > 0 && candidate % HOUR == minute * 60 && HourOfDay(candidate) % hourInterval != 0
    requires NoneAligned(candidate, now, minute, hourInterval)
    ensures NoneAligned(candidate - HOUR, now, minute, hourInterval)
  {
    forall t | candidate - HOUR < t <= now ensures !Aligned(t, minute, hourInterval) {
      if t < candidate {
        NoneWithinTheHour(t, candidate);
      }
    }
  }

  lemma FirstCandidate(now: int, minute: int)
    requires 0 <= minute < 60
    ensures var first := now - now % HOUR + minute * 60;
      var candidate := if now < first then first - HOUR else first;
      candidate <= now < candidate + HOUR && candidate % HOUR == minute * 60
  {
    assert now - now % HOUR == now / HOUR * HOUR;
    assert (now / HOUR * HOUR + minute * 60) / HOUR == now / HOUR;
    assert (now / HOUR * HOUR + minute * 60 - HOUR) / HOUR == now / HOUR - 1;
  }

  lemma StartOfSearch(now: int, candidate: int, minute: int, hourInterval: int)
    requires candidate <= now < candidate + HOUR && candidate % HOUR == minute * 60 && hourInterval > 0
    ensures NoneAligned(candidate, now, minute, hourInterval)
  {
    forall t | candidate < t <= now ensures !Aligned(t, minute, hourInterval) {
      NoneWithinTheHour(t, candidate);
    }
  }

  /** _resolve_latest_hourly_schedule_slot: the greatest aligned instant that is not in the future. */
  method ResolveLatestHourlySlot(now: int, minute: int, hourInterval: int) returns (candidate: int)
    requires 0 <= minute < 60 && hourInterval > 0
    ensures IsLatest(candidate, now, AlignedTo(minute, hourInterval))
  {
    candidate := now - now % HOUR + minute * 60;
    if now < candidate {
      candidate := candidate - HOUR;
    }
    FirstCandidate(now, minute);
    StartOfSearch(now, candidate, minute, hourInterval);
    while HourOfDay(candidate) % hourInterval != 0
      invariant candidate <= now && candidate % HOUR == minute * 60 && NoneAligned(candidate, now, minute, hourInterval)
      decreases HourOfDay(candidate)
    {
      HourBack(candidate);
      HourSkipped(candidate, now, minute, hourInterval);
      candidate := candidate - HOUR;
    }
  }

  // ---------- The daily slots ----------

  function DailyAt(offsets: seq<int>): int -> bool {
    t => t % DAY in offsets
  }

  lemma NoneWithinTheDay(t: int, candidate: int)
    requires candidate < t < candidate + DAY
    ensures t % DAY != candidate % DAY
  {
  }

  lemma TodayOrYesterday(now: int, offset: int)
    requires 0 <= offset < DAY
    ensures var today := now - now % DAY + offset;
      var candidate := if today > now then today - DAY else today;
      candidate <= now < candidate + DAY && candidate % DAY == offset
  {
    assert now - now % DAY == now / DAY * DAY;
    assert (now / DAY * DAY + offset) / DAY == now / DAY;
    assert (now / DAY * DAY + offset - DAY) / DAY == now / DAY - 1;
  }

  lemma LatestOfOneTime(now: int, offset: int, candidate: int)
    requires candidate <= now < candidate + DAY && candidate % DAY == offset
    ensures forall t :: candidate < t <= now ==> t % DAY != offset
  {
    forall t | candidate < t <= now ensures t % DAY != offset {
      NoneWithinTheDay(t, candidate);
    }
  }

  /** _resolve_latest_daily_schedule_slot: the greatest instant at one of the times that is not in the future. */
  method ResolveLatestDailySlot(now: int, offsets: seq<int>) returns (best: int)
    requires offsets != [] && forall o :: o in offsets ==> 0 <= o < DAY
    ensures IsLatest(best, now, DailyAt(offsets))
  {
    var candidates: seq<int> := [];
    for i := 0 to |offsets|
      invariant |candidates| == i
      invariant forall k :: 0 <= k < i ==> candidates[k] <= now && candidates[k] % DAY == offsets[k]
      invariant forall k :: 0 <= k < i ==> forall t :: candidates[k] < t <= now ==> t % DAY != offsets[k]
    {
      var offset := offsets[i];
      assert offset in offsets;
      var candidate := now - now % DAY + offset;
      if candidate > now {
        candidate := candidate - DAY;
      }
      TodayOrYesterday(now, offset);
      LatestOfOneTime(now, offset, candidate);
      candidates := candidates + [candidate];
    }
    best := candidates[0];
    for i := 1 to |candidates|
      invariant best in candidates && forall k :: 0 <= k < i ==> candidates[k] <= best
    {
      if candidates[i] > best {
        best := candidates[i];
      }
    }
  }

  /** An hourly slot lies within the last hour, at its minute; a daily one within the last day, at one of its times. */
  lemma SlotsAreRecent(now: int, minute: int, offsets: seq<int>, hourly: int, daily: int)
    requires 0 <= minute < 60 && offsets != [] && forall o :: o in offsets ==> 0 <= o < 86400
    requires IsLatest(hourly, now, AlignedTo(minute, 1)) && IsLatest(daily, now, DailyAt(offsets))
    ensures hourly <= now < hourly + 3600 && hourly % 3600 == minute * 60
    ensures daily <= now < daily + 86400 && daily % 86400 in offsets
  {
    assert AlignedTo(minute, 1)(hourly + HOUR) by {
      HourBack(hourly + HOUR);
      HourBack(hourly);
    }
    assert (daily + DAY) % DAY == daily % DAY by {
      assert (daily + DAY) / DAY == daily / DAY + 1;
    }
    assert DailyAt(offsets)(daily + DAY);
  }

  // ---------- One cycle ----------

  datatype Job =
    Full | RankingAnnual | RankingMonthly | RankingWeekly | HistoricalWeekly | HistoricalMonthly | RecentMatches

  const HEAVY: set<Job> := {Full, RankingAnnual, RankingMonthly}

  // The order in which a cycle looks at its jobs.
  const ORDER: seq<Job> := [Full, RankingMonthly, RankingWeekly, HistoricalWeekly, HistoricalMonthly, RecentMatches]

  datatype Status = Fine | Partial | Failed | Unstated

  datatype Outcome = Returns(status: Status) | Raises

  datatype Result = NotDue | AfterHeavy | Overlapping | Blocked | Ran(status: Status) | Threw | NotReached

  datatype Config = Config(fullEnabled: bool, fullTime: int, rankingMonthlyTimes: seq<int>, rankingWeeklyMinute: int,
                           historicalWeeklyMinute: int, historicalMonthlyMinute: int, historicalMonthlyHours: int,
                             recentInterval: int)

  ghost predicate ValidConfig(c: Config) {
    && c.rankingMonthlyTimes != [] && (forall o :: o in c.rankingMonthlyTimes ==> 0 <= o < DAY)
    && 0 <= c.rankingWeeklyMinute < 60 && 0 <= c.historicalWeeklyMinute < 60 && 0 <= c.historicalMonthlyMinute < 60
    && c.historicalMonthlyHours > 0 && c.recentInterval > 0
  }

  // What a cycle does when it looks at the clock: the day for the full refresh, the instant for the recent matches.
  ghost predicate IsSlot(c: Config, job: Job, now: int, slot: int)
    requires ValidConfig(c)
  {
    match job
    case Full => slot == now / DAY
    case RankingMonthly => IsLatest(slot, now, DailyAt(c.rankingMonthlyTimes))
    case RankingWeekly => IsLatest(slot, now, AlignedTo(c.rankingWeeklyMinute, 1))
    case HistoricalWeekly => IsLatest(slot, now, AlignedTo(c.historicalWeeklyMinute, 1))
    case HistoricalMonthly => IsLatest(slot, now, AlignedTo(c.historicalMonthlyMinute, c.historicalMonthlyHours))
    case RecentMatches => slot == now
    case RankingAnnual => false
  }

  // One look of the scheduler: the clock, its slots and how each callback would end.
  datatype Tick = Tick(now: int, slots: map<Job, int>, outcomes: Job -> Outcome, inProgress: set<Job>)

  // A completed slot; recent matches are polled, or refreshed by a historical refresh that started at `slot`.
  datatype Completion = Completion(job: Job, slot: int, polled: bool)

  // The last completed slots, and every completion in order.
  datatype Progress = Progress(last: map<Job, int>, completions: seq<Completion>)

  predicate LastIs(last: map<Job, int>, job: Job, slot: int) {
    job in last && last[job] == slot
  }

  predicate IsDue(c: Config, last: map<Job, int>, job: Job, now: int, slot: int) {
    match job
    case Full => c.fullEnabled && now % DAY >= c.fullTime && !LastIs(last, job, slot)
    case RecentMatches => job !in last || now - last[job] >= c.recentInterval
    case _ => !LastIs(last, job, slot)
  }

  function Blockers(job: Job): set<Job> {
    match job
    case Full => HEAVY - {Full}
    case RankingMonthly => HEAVY - {RankingMonthly}
    case RankingWeekly => HEAVY
    case HistoricalWeekly => HEAVY + {HistoricalMonthly}
    case HistoricalMonthly => HEAVY + {HistoricalWeekly}
    case _ => {}
  }

  predicate Completes(job: Job, status: Status) {
    if job == Full then status == Fine || status == Partial else status != Failed
  }

  predicate CountsAsExecuted(r: Result) {
    r == Ran(Fine) || r == Ran(Partial)
  }

  predicate Started(r: Result) {
    r.Ran? || r.Threw?
  }

  // Whether a heavy job has been executed among the first results of a cycle; only two jobs set the flag.
  predicate HeavyRan(results: seq<Result>) {
    (|results| > 0 && CountsAsExecuted(results[0])) || (|results| > 1 && CountsAsExecuted(results[1]))
  }

  // The recent matches are refreshed whether or not a heavy job ran.
  function ResultOf(c: Config, p: Progress, t: Tick, job: Job, before: seq<Result>): Result {
    if exists r <- before :: r.Threw? then NotReached
    else if job !in t.slots || !IsDue(c, p.last, job, t.now, t.slots[job]) then NotDue
    else if HeavyRan(before) && job != RecentMatches then AfterHeavy
    else if job in t.inProgress then Overlapping
    else if Blockers(job) * t.inProgress != {} then Blocked
    else if t.outcomes(job).Raises? then Threw
    else Ran(t.outcomes(job).status)
  }

  function Recorded(p: Progress, job: Job, slot: int, r: Result, entry: Completion): Progress {
    if r.Ran? && Completes(job, r.status) then Progress(p.last[job := slot], p.completions + [entry]) else p
  }

  function Completed(p: Progress, job: Job, slot: int, r: Result): Progress {
    Recorded(p, job, slot, r, Completion(job, slot, true))
  }

  // The results of the first `k` jobs of a cycle and the progress after them.
  function AfterJobs(c: Config, p: Progress, t: Tick, k: nat): (Progress, seq<Result>)
    requires k <= |ORDER|
  {
    if k == 0 then (p, [])
    else
      var (before, results) := AfterJobs(c, p, t, k - 1);
      var job := ORDER[k - 1];
      var r := ResultOf(c, before, t, job, results);
      (if job in t.slots then Completed(before, job, t.slots[job], r) else before, results + [r])
  }

  function Cycle(c: Config, p: Progress, t: Tick): (Progress, seq<Result>) {
    AfterJobs(c, p, t, |ORDER|)
  }

  // ---------- A historical refresh ----------

  // One try of a historical refresh: how its refresh of the recent matches ends at `at`, when its capture
  // calls for one,
  // and whether the try raises afterwards.
  datatype Try = Try(at: int, refreshes: bool, outcome: Outcome, raises: bool)

  function RefreshResult(a: Try, inProgress: set<Job>): Result {
    if !a.refreshes then NotDue
    else if RecentMatches in inProgress then Overlapping
    else if a.outcome.Raises? then Threw
    else Ran(a.outcome.status)
  }

  function AfterTry(p: Progress, now: int, a: Try, inProgress: set<Job>): Progress {
    Recorded(p, RecentMatches, a.at, RefreshResult(a, inProgress), Completion(RecentMatches, now, false))
  }

  // A refresh that raises fails its try.
  predicate Fails(a: Try, inProgress: set<Job>) {
    a.raises || RefreshResult(a, inProgress).Threw?
  }

  // The tries up to the first that does not fail; its refresh is recorded under the start of the whole
  // historical refresh.
  function AfterTries(p: Progress, now: int, tries: seq<Try>, inProgress: set<Job>): Progress
    decreases |tries|
  {
    if tries == [] then p
    else
      var q, r := AfterTry(p, now, tries[0], inProgress), RefreshResult(tries[0], inProgress);
      if Fails(tries[0], inProgress) then AfterTries(q, now, tries[1..], inProgress)
      else if r.Ran? && Completes(RecentMatches, r.status) then q.(last := q.last[RecentMatches := now])
      else q
  }

  /** The globals of the scheduler. */
  class PublicScheduler {
    const config: Config
    var last: map<Job, int>
    var inProgress: set<Job>
    ghost var completions: seq<Completion>

    ghost function State(): Progress
      reads this
    {
      Progress(last, completions)
    }

    constructor (c: Config)
      ensures config == c && State() == Progress(map[], []) && inProgress == {}
    {
      config := c;
      last, inProgress, completions := map[], {}, [];
    }

    /**
     _run_non_overlapping_public_refresh: whatever the callback does, the in-progress set is as before; `during` is
     the set while it runs.
     */
    method RunNonOverlapping(job: Job, blockedBy: set<Job>, slot: int, outcome: Outcome, ghost entry: Completion)
      returns (r: Result, ghost during: set<Job>)
      modifies this
      ensures inProgress == old(inProgress)
      ensures r.Ran? || r.Threw? ==> during == inProgress + {job}
      ensures r == if job in inProgress then Overlapping
                   else if blockedBy * inProgress != {} then Blocked
                   else if outcome.Raises? then Threw
                   else Ran(outcome.status)
      ensures State() == Recorded(old(State()), job, slot, r, entry)
    {
      during := {};
      if job in inProgress {
        return Overlapping, during;
      }
      if blockedBy * inProgress != {} {
        return Blocked, during;
      }
      inProgress := inProgress + {job};
      during := inProgress;
      match outcome {
        case Raises => r := Threw;
        case Returns(status) =>
          if Completes(job, status) {
            last := last[job := slot];
            completions := completions + [entry];
          }
          r := Ran(status);
      }
      inProgress := inProgress - {job};
    }

    // One block of the cycle, the `k`-th; nothing after an exception is reached.
    method LookAt(k: nat, job: Job, now: int, slot: int, outcome: Outcome, results: seq<Result>, ghost start: Progress,
                  ghost t: Tick)
      returns (results': seq<Result>)
      requires k < |ORDER| && job == ORDER[k] && t.now == now && t.outcomes(job) == outcome
      requires t.inProgress == inProgress
      requires job in t.slots && t.slots[job] == slot && (State(), results) == AfterJobs(config, start, t, k)
      modifies this
      ensures inProgress == old(inProgress) && (State(), results') == AfterJobs(config, start, t, k + 1)
    {
      var r := NotDue;
      if exists r <- results :: r.Threw? {
        r := NotReached;
      } else if IsDue(config, last, job, now, slot) {
        if HeavyRan(results) && job != RecentMatches {
          r := AfterHeavy;
        } else {
          ghost var during;
          r, during := RunNonOverlapping(job, Blockers(job), slot, outcome, Completion(job, slot, true));
        }
      }
      results' := results + [r];
    }

    // The slots of an instant, as the cycle resolves them.
    method ResolveSlots(now: int) returns (slots: map<Job, int>)
      requires ValidConfig(config)
      ensures slots.Keys == set j | j in ORDER
      ensures forall j :: j in ORDER ==> IsSlot(config, j, now, slots[j])
    {
      var rankingMonthly := ResolveLatestDailySlot(now, config.rankingMonthlyTimes);
      var rankingWeekly := ResolveLatestHourlySlot(now, config.rankingWeeklyMinute, 1);
      var historicalWeekly := ResolveLatestHourlySlot(now, config.historicalWeeklyMinute, 1);
      var historicalMonthly :=
        ResolveLatestHourlySlot(now, config.historicalMonthlyMinute, config.historicalMonthlyHours);
      slots := map[Full := now / DAY, RankingMonthly := rankingMonthly, RankingWeekly := rankingWeekly,
        HistoricalWeekly := historicalWeekly, HistoricalMonthly := historicalMonthly, RecentMatches := now];
    }

    /** _maybe_run_public_read_model_refreshes. */
    method RunCycle(now: int, outcomes: Job -> Outcome) returns (results: seq<Result>, ghost t: Tick)
      requires ValidConfig(config)
      modifies this
      ensures inProgress == old(inProgress)
      ensures t.now == now && t.outcomes == outcomes && t.inProgress == inProgress && IsTick(config, t)
      ensures (State(), results) == Cycle(config, old(State()), t)
    {
      var slots := ResolveSlots(now);
      t := Tick(now, slots, outcomes, inProgress);
      ghost var p := State();
      results := LookAt(0, Full, now, slots[Full], outcomes(Full), [], p, t);
      results := LookAt(1, RankingMonthly, now, slots[RankingMonthly], outcomes(RankingMonthly), results, p, t);
      results := LookAt(2, RankingWeekly, now, slots[RankingWeekly], outcomes(RankingWeekly), results, p, t);
      results := LookAt(3, HistoricalWeekly, now, slots[HistoricalWeekly], outcomes(HistoricalWeekly), results, p, t);
      results := LookAt(4, HistoricalMonthly, now, slots[HistoricalMonthly], outcomes(HistoricalMonthly), results, p,
                        t);
      results := LookAt(5, RecentMatches, now, slots[RecentMatches], outcomes(RecentMatches), results, p, t);
    }

    // _maybe_refresh_recent_matches_after_capture
    method RefreshAfterCapture(now: int, a: Try) returns (r: Result)
      modifies this
      ensures inProgress == old(inProgress) && r == RefreshResult(a, inProgress)
      ensures State() == AfterTry(old(State()), now, a, inProgress)
    {
      r := NotDue;
      if a.refreshes {
        ghost var during;
        r, during := RunNonOverlapping(RecentMatches, {}, a.at, a.outcome, Completion(RecentMatches, now, false));
      }
    }

    /** _run_refresh_with_retries and _record_public_refreshes_from_cycle, as far as they concern the recent matches. */
    method RunHistoricalRefresh(now: int, tries: seq<Try>)
      modifies this
      ensures inProgress == old(inProgress) && State() == AfterTries(old(State()), now, tries, inProgress)
    {
      for i := 0 to |tries|
        invariant inProgress == old(inProgress)
        invariant AfterTries(State(), now, tries[i..], inProgress) == AfterTries(old(State()), now, tries, inProgress)
      {
        assert tries[i..][1..] == tries[i + 1..];
        var r := RefreshAfterCapture(now, tries[i]);
        if !Fails(tries[i], inProgress) {
          if r.Ran? && r.status != Failed {
            last := last[RecentMatches := now];
          }
          return;
        }
      }
    }
  }

  // The slots of a tick are those of its clock.
  ghost predicate IsTick(c: Config, t: Tick)
    requires ValidConfig(c)
  {
    t.slots.Keys == (set j | j in ORDER) && forall j :: j in ORDER ==> IsSlot(c, j, t.now, t.slots[j])
  }

  // ---------- What every run of cycles keeps ----------

  // One turn of the loop: a look at the public refreshes, or a historical refresh that ends at `finish`.
  datatype Turn = Poll(t: Tick) | Historical(now: int, tries: seq<Try>, inProgress: set<Job>, finish: int)

  function Begins(turn: Turn): int {
    match turn case Poll(t) => t.now case Historical(now, _, _, _) => now
  }

  function Ends(turn: Turn): int {
    match turn case Poll(t) => t.now case Historical(_, _, _, finish) => finish
  }

  function AfterTurn(c: Config, p: Progress, turn: Turn): Progress {
    match turn
    case Poll(t) => Cycle(c, p, t).0
    case Historical(now, tries, inProgress, _) => AfterTries(p, now, tries, inProgress)
  }

  function AfterTurns(c: Config, turns: seq<Turn>): Progress {
    if turns == [] then Progress(map[], []) else AfterTurn(c, AfterTurns(c, turns[..|turns| - 1]), turns[|turns| - 1])
  }

  // How far the slots of two completions of one job are at least apart.
  function Gap(c: Config, later: Completion): int {
    if later.job != RecentMatches then 1 else if later.polled then c.recentInterval else 0
  }

  predicate Spaced(c: Config, a: Completion, b: Completion) {
    a.job == b.job ==> a.slot + Gap(c, b) <= b.slot
  }

  ghost predicate SlotBy(c: Config, job: Job, clock: int, slot: int)
    requires ValidConfig(c)
  {
    exists t :: t <= clock && IsSlot(c, job, t, slot)
  }

  ghost predicate AllSpaced(c: Config, completions: seq<Completion>) {
    forall i, j :: 0 <= i < j < |completions| ==> Spaced(c, completions[i], completions[j])
  }

  ghost predicate Covers(last: map<Job, int>, a: Completion) {
    a.job in last && a.slot <= last[a.job]
  }

  ghost predicate Progressing(c: Config, p: Progress, clock: int)
    requires ValidConfig(c)
  {
    && AllSpaced(c, p.completions)
    && (forall i :: 0 <= i < |p.completions| ==> Covers(p.last, p.completions[i]))
    && (forall j :: j in p.last ==> SlotBy(c, j, clock, p.last[j]))
  }

  lemma SlotsAreMonotone(c: Config, job: Job, now: int, later: int, a: int, b: int)
    requires ValidConfig(c) && now <= later && IsSlot(c, job, now, a) && IsSlot(c, job, later, b)
    ensures a <= b
  {
  }

  lemma OneMoreCompletion(c: Config, p: Progress, clock: int, job: Job, slot: int, entry: Completion, later: int)
    requires ValidConfig(c) && Progressing(c, p, clock) && clock <= later
    requires entry.job == job && entry.slot <= slot && SlotBy(c, job, later, slot)
    requires job in p.last ==> p.last[job] + Gap(c, entry) <= entry.slot
    ensures Progressing(c, Progress(p.last[job := slot], p.completions + [entry]), later)
  {
    var more := p.completions + [entry];
    forall i, j | 0 <= i < j < |more| ensures Spaced(c, more[i], more[j]) {
      assert Covers(p.last, p.completions[i]);
      if j < |p.completions| {
        assert Spaced(c, p.completions[i], p.completions[j]);
      }
    }
    forall i | 0 <= i < |more| ensures Covers(p.last[job := slot], more[i]) {
      if i < |p.completions| {
        assert Covers(p.last, p.completions[i]);
      }
    }
    ClockMayAdvance(c, p, clock, later);
  }

  lemma CompletionProgresses(c: Config, p: Progress, job: Job, now: int, slot: int, r: Result)
    requires ValidConfig(c) && Progressing(c, p, now) && IsSlot(c, job, now, slot)
    requires r.Ran? ==> IsDue(c, p.last, job, now, slot)
    ensures Progressing(c, Completed(p, job, slot, r), now)
  {
    if r.Ran? && Completes(job, r.status) {
      if job in p.last {
        assert SlotBy(c, job, now, p.last[job]);
        var t :| t <= now && IsSlot(c, job, t, p.last[job]);
        SlotsAreMonotone(c, job, t, now, p.last[job], slot);
      }
      assert SlotBy(c, job, now, slot);
      OneMoreCompletion(c, p, now, job, slot, Completion(job, slot, true), now);
    }
  }

  lemma ClockMayAdvance(c: Config, p: Progress, clock: int, later: int)
    requires ValidConfig(c) && Progressing(c, p, clock) && clock <= later
    ensures Progressing(c, p, later)
  {
    forall j | j in p.last ensures SlotBy(c, j, later, p.last[j]) {
      assert SlotBy(c, j, clock, p.last[j]);
      var t :| t <= clock && IsSlot(c, j, t, p.last[j]);
      assert IsSlot(c, j, t, p.last[j]);
    }
  }

  lemma {:induction false} JobsProgress(c: Config, p: Progress, t: Tick, k: nat)
    requires ValidConfig(c) && Progressing(c, p, t.now) && IsTick(c, t) && k <= |ORDER|
    ensures Progressing(c, AfterJobs(c, p, t, k).0, t.now)
  {
    if k > 0 {
      JobsProgress(c, p, t, k - 1);
      var (before, results) := AfterJobs(c, p, t, k - 1);
      var job := ORDER[k - 1];
      assert job in ORDER && job in t.slots;
      CompletionProgresses(c, before, job, t.now, t.slots[job], ResultOf(c, before, t, job, results));
    }
  }

  // The tries of a historical refresh follow one another between its start and its end.
  ghost predicate InSequence(now: int, tries: seq<Try>, finish: int) {
    && now <= finish && (forall i :: 0 <= i < |tries| ==> now <= tries[i].at <= finish)
    && (forall i, j :: 0 <= i < j < |tries| ==> tries[i].at <= tries[j].at)
  }

  // All completions so far lie by `now`, and what is recorded by `clock`.
  ghost predicate Underway(c: Config, p: Progress, now: int, clock: int)
    requires ValidConfig(c)
  {
    && Progressing(c, p, clock) && now <= clock
    && forall i :: 0 <= i < |p.completions| && p.completions[i].job == RecentMatches ==> p.completions[i].slot <= now
  }

  lemma TryProgresses(c: Config, p: Progress, now: int, clock: int, a: Try, inProgress: set<Job>)
    requires ValidConfig(c) && Underway(c, p, now, clock) && clock <= a.at
    ensures Underway(c, AfterTry(p, now, a, inProgress), now, a.at)
  {
    var r, entry := RefreshResult(a, inProgress), Completion(RecentMatches, now, false);
    ClockMayAdvance(c, p, clock, a.at);
    if r.Ran? && Completes(RecentMatches, r.status) {
      LaterRecord(c, p, a.at, entry, now);
    }
  }

  // A completion by a historical refresh, recorded at `at`.
  lemma LaterRecord(c: Config, p: Progress, at: int, entry: Completion, now: int)
    requires ValidConfig(c) && Progressing(c, p, at) && now <= at && entry == Completion(RecentMatches, now, false)
    requires forall i :: 0 <= i < |p.completions| && p.completions[i].job == RecentMatches ==>
      p.completions[i].slot <= now
    ensures Progressing(c, Progress(p.last[RecentMatches := at], p.completions + [entry]), at)
  {
    var more, last := p.completions + [entry], p.last[RecentMatches := at];
    forall i, j | 0 <= i < j < |more| ensures Spaced(c, more[i], more[j]) {
      if j < |p.completions| {
        assert Spaced(c, p.completions[i], p.completions[j]);
      }
    }
    forall i | 0 <= i < |more| ensures Covers(last, more[i]) {
      if i < |p.completions| {
        assert Covers(p.last, p.completions[i]);
      }
    }
    assert IsSlot(c, RecentMatches, at, at);
    forall j | j in last ensures SlotBy(c, j, at, last[j]) {
      if j != RecentMatches {
        assert SlotBy(c, j, at, p.last[j]);
      }
    }
  }

  // The refresh that succeeds is recorded under the start, which every completion so far has reached.
  lemma StartIsRecorded(c: Config, p: Progress, now: int, clock: int)
    requires ValidConfig(c) && Underway(c, p, now, clock)
    ensures Progressing(c, p.(last := p.last[RecentMatches := now]), clock)
  {
    var last := p.last[RecentMatches := now];
    forall i | 0 <= i < |p.completions| ensures Covers(last, p.completions[i]) {
      assert Covers(p.last, p.completions[i]);
    }
    assert IsSlot(c, RecentMatches, now, now);
    forall j | j in last ensures SlotBy(c, j, clock, last[j]) {
      if j != RecentMatches {
        assert SlotBy(c, j, clock, p.last[j]);
      }
    }
  }

  lemma {:induction false} TriesProgress(c: Config, p: Progress, now: int, clock: int, tries: seq<Try>,
      inProgress: set<Job>, finish: int)
    requires ValidConfig(c) && Underway(c, p, now, clock) && InSequence(now, tries, finish)
    requires clock <= finish && (tries != [] ==> clock <= tries[0].at)
    ensures Progressing(c, AfterTries(p, now, tries, inProgress), finish)
    decreases |tries|
  {
    if tries == [] {
      ClockMayAdvance(c, p, clock, finish);
    } else {
      var q := AfterTry(p, now, tries[0], inProgress);
      TryProgresses(c, p, now, clock, tries[0], inProgress);
      if Fails(tries[0], inProgress) {
        TriesProgress(c, q, now, tries[0].at, tries[1..], inProgress, finish);
      } else {
        StartIsRecorded(c, q, now, tries[0].at);
        ClockMayAdvance(c, q, tries[0].at, finish);
        ClockMayAdvance(c, q.(last := q.last[RecentMatches := now]), tries[0].at, finish);
      }
    }
  }

  ghost predicate IsTurn(c: Config, turn: Turn)
    requires ValidConfig(c)
  {
    match turn
    case Poll(t) => IsTick(c, t)
    case Historical(now, tries, _, finish) => InSequence(now, tries, finish)
  }

  // The turns of a loop whose clock never goes back.
  ghost predicate Ticking(c: Config, turns: seq<Turn>)
    requires ValidConfig(c)
  {
    && (forall i :: 0 <= i < |turns| ==> IsTurn(c, turns[i]))
    && (forall i, j :: 0 <= i < j < |turns| ==> Ends(turns[i]) <= Begins(turns[j]))
  }

  lemma RecentCompletionsAreBy(c: Config, p: Progress, clock: int)
    requires ValidConfig(c) && Progressing(c, p, clock)
    ensures Underway(c, p, clock, clock)
  {
    forall i | 0 <= i < |p.completions| && p.completions[i].job == RecentMatches
      ensures p.completions[i].slot <= clock
    {
      assert Covers(p.last, p.completions[i]);
      assert SlotBy(c, RecentMatches, clock, p.last[RecentMatches]);
    }
  }

  lemma TurnProgresses(c: Config, p: Progress, turn: Turn)
    requires ValidConfig(c) && IsTurn(c, turn) && Progressing(c, p, Begins(turn))
    ensures Progressing(c, AfterTurn(c, p, turn), Ends(turn))
  {
    match turn
    case Poll(t) => JobsProgress(c, p, t, |ORDER|);
    case Historical(now, tries, inProgress, finish) =>
      RecentCompletionsAreBy(c, p, now);
      TriesProgress(c, p, now, now, tries, inProgress, finish);
  }

  /**
   With a clock that never goes back no slot completes twice, whatever fails, raises or is blocked; and the recent
   matches are polled an interval after every earlier poll and after the start of every historical refresh that
   refreshed them.
   */
  lemma {:induction false} EachSlotCompletesOnce(c: Config, turns: seq<Turn>)
    requires ValidConfig(c) && Ticking(c, turns)
    ensures AllSpaced(c, AfterTurns(c, turns).completions)
    ensures turns != [] ==> Progressing(c, AfterTurns(c, turns), Ends(turns[|turns| - 1]))
  {
    if turns != [] {
      var front, turn := turns[..|turns| - 1], turns[|turns| - 1];
      EachSlotCompletesOnce(c, front);
      if front != [] {
        ClockMayAdvance(c, AfterTurns(c, front), Ends(front[|front| - 1]), Begins(turn));
      }
      TurnProgresses(c, AfterTurns(c, front), turn);
    }
  }

  // The `k`-th result, and what it was decided from.
  lemma {:induction false} ResultAt(c: Config, p: Progress, t: Tick, n: nat, k: nat)
    requires k < n <= |ORDER|
    ensures |AfterJobs(c, p, t, k).1| == k && |AfterJobs(c, p, t, n).1| == n
    ensures AfterJobs(c, p, t, n).1[..k] == AfterJobs(c, p, t, k).1
    ensures AfterJobs(c, p, t, n).1[k] == ResultOf(c, AfterJobs(c, p, t, k).0, t, ORDER[k], AfterJobs(c, p, t, k).1)
  {
    if k < n - 1 {
      ResultAt(c, p, t, n - 1, k);
    } else if k > 0 {
      ResultAt(c, p, t, k, k - 1);
    }
  }

  /** A heavy job that is executed keeps every later slot job of its cycle, heavy or not, from starting. */
  lemma HeavyJobsExclude(c: Config, p: Progress, t: Tick, r: seq<Result>, i: nat, k: nat)
    requires r == Cycle(c, p, t).1 && i < k < |ORDER| && ORDER[i] in HEAVY && ORDER[k] != RecentMatches
    ensures |r| == |ORDER|
    ensures CountsAsExecuted(r[i]) ==> !Started(r[k])
  {
    ResultAt(c, p, t, |ORDER|, k);
    assert AfterJobs(c, p, t, k).1[i] == r[..k][i];
    assert i == 0 || i == 1;
  }

  // ---------- What failing jobs delay and fine ones catch up ----------

  ghost predicate AllFine(t: Tick) {
    t.inProgress == {} && forall j :: t.outcomes(j) == Returns(Fine)
  }

  lemma {:induction false} NothingThrown(c: Config, p: Progress, t: Tick, k: nat)
    requires AllFine(t) && k <= |ORDER|
    ensures forall r :: r in AfterJobs(c, p, t, k).1 ==> !r.Threw?
  {
    if k > 0 {
      NothingThrown(c, p, t, k - 1);
    }
  }

  // A job that is not due at a tick is not due later in the same tick.
  lemma {:induction false} StaysDone(c: Config, p: Progress, t: Tick, from: nat, k: nat, job: Job)
    requires from <= k <= |ORDER| && job in t.slots && LastIs(AfterJobs(c, p, t, from).0.last, job, t.slots[job])
    ensures LastIs(AfterJobs(c, p, t, k).0.last, job, t.slots[job])
  {
    if from < k {
      StaysDone(c, p, t, from, k - 1, job);
    }
  }

  // The `k`-th job is done in a cycle of fine jobs unless a heavy job went first.
  lemma DoneUnlessHeavy(c: Config, p: Progress, t: Tick, k: nat)
    requires ValidConfig(c) && IsTick(c, t) && AllFine(t) && k < 5
    requires !HeavyRan(AfterJobs(c, p, t, k).1)
    ensures IsDue(c, AfterJobs(c, p, t, k).0.last, ORDER[k], t.now, t.slots[ORDER[k]]) || k > 0 ==>
      LastIs(Cycle(c, p, t).0.last, ORDER[k], t.slots[ORDER[k]])
  {
    NothingThrown(c, p, t, k);
    ResultAt(c, p, t, k + 1, k);
    assert ORDER[k] in ORDER;
    var job := ORDER[k];
    if LastIs(AfterJobs(c, p, t, k + 1).0.last, job, t.slots[job]) {
      StaysDone(c, p, t, k + 1, |ORDER|, job);
    }
  }

  lemma FullSettles(c: Config, p: Progress, t: Tick)
    requires ValidConfig(c) && IsTick(c, t) && AllFine(t)
    ensures !IsDue(c, Cycle(c, p, t).0.last, Full, t.now, t.slots[Full])
  {
    if IsDue(c, p.last, Full, t.now, t.slots[Full]) {
      DoneUnlessHeavy(c, p, t, 0);
    } else if LastIs(p.last, Full, t.slots[Full]) {
      StaysDone(c, p, t, 0, |ORDER|, Full);
    }
  }

  lemma RankingMonthlySettles(c: Config, p: Progress, t: Tick)
    requires ValidConfig(c) && IsTick(c, t) && AllFine(t) && !IsDue(c, p.last, Full, t.now, t.slots[Full])
    ensures LastIs(Cycle(c, p, t).0.last, RankingMonthly, t.slots[RankingMonthly])
  {
    ResultAt(c, p, t, 1, 0);
    DoneUnlessHeavy(c, p, t, 1);
  }

  lemma LightJobsSettle(c: Config, p: Progress, t: Tick, k: nat)
    requires ValidConfig(c) && IsTick(c, t) && AllFine(t) && !IsDue(c, p.last, Full, t.now, t.slots[Full])
    requires LastIs(p.last, RankingMonthly, t.slots[RankingMonthly]) && 2 <= k < 5
    ensures LastIs(Cycle(c, p, t).0.last, ORDER[k], t.slots[ORDER[k]])
  {
    ResultAt(c, p, t, k, 0);
    ResultAt(c, p, t, k, 1);
    ResultAt(c, p, t, 1, 0);
    StaysDone(c, p, t, 0, 1, RankingMonthly);
    assert !HeavyRan(AfterJobs(c, p, t, k).1);
    DoneUnlessHeavy(c, p, t, k);
  }

  // ---------- What a cycle decides, read off the clock and what was completed before it ----------

  predicate IsHeavyJob(job: Job) {
    job == Full || job == RankingAnnual || job == RankingMonthly
  }

  // `job` may not start while `other` is in progress.
  predicate Conflicts(job: Job, other: Job) {
    || other == job || (job != RecentMatches && IsHeavyJob(other))
    || (job == HistoricalWeekly && other == HistoricalMonthly)
    || (job == HistoricalMonthly && other == HistoricalWeekly)
  }

  predicate DueAtStart(c: Config, p: Progress, t: Tick, job: Job)
    requires job in t.slots
  {
    if job == RecentMatches then job in p.last ==> p.last[job] + c.recentInterval <= t.now
    else
      && (job in p.last ==> p.last[job] != t.slots[job])
      && (job == Full ==> c.fullEnabled && t.now >= t.now / DAY * DAY + c.fullTime)
  }

  // How a job that starts must end to have completed its slot.
  predicate EndsWell(job: Job, r: Result) {
    r == Ran(Fine) || r == Ran(Partial) || (job != Full && r == Ran(Unstated))
  }

  lemma {:induction false} UntouchedSoFar(c: Config, p: Progress, t: Tick, k: nat, job: Job)
    requires k <= |ORDER| && job !in ORDER[..k]
    ensures LastOf(AfterJobs(c, p, t, k).0, job) == LastOf(p, job)
  {
    if k > 0 {
      assert forall j :: j in ORDER[..k - 1] ==> j in ORDER[..k];
      assert ORDER[k - 1] in ORDER[..k];
      UntouchedSoFar(c, p, t, k - 1, job);
    }
  }

  function LastOf(p: Progress, job: Job): (last: map<Job, int>) {
    if job in p.last then map[job := p.last[job]] else map[]
  }

  lemma BlockersConflict(job: Job, running: set<Job>)
    requires job in ORDER
    ensures job in running || Blockers(job) * running != {} <==>
      exists other :: other in running && Conflicts(job, other)
  {
    if Blockers(job) * running != {} {
      var other :| other in Blockers(job) * running;
      assert Conflicts(job, other);
    }
    if other :| other in running && Conflicts(job, other) && other != job {
      assert other in Blockers(job) * running;
    }
    assert Conflicts(job, job);
  }

  // No earlier job of the cycle threw, and none that is heavy was executed.
  ghost predicate NothingInTheWay(r: seq<Result>, k: nat, job: Job)
    requires k <= |r| == |ORDER|
  {
    && (forall i :: 0 <= i < k ==> !r[i].Threw?)
    && (job != RecentMatches ==>
        forall i :: 0 <= i < k && IsHeavyJob(ORDER[i]) ==> r[i] != Ran(Fine) && r[i] != Ran(Partial))
  }

  lemma ResultReads(c: Config, p: Progress, t: Tick, r: seq<Result>, k: nat)
    requires ValidConfig(c) && IsTick(c, t) && r == Cycle(c, p, t).1 && k < |ORDER|
    ensures |r| == |ORDER| && r[k] == ResultOf(c, AfterJobs(c, p, t, k).0, t, ORDER[k], r[..k])
    ensures ORDER[k] in t.slots
    ensures IsDue(c, AfterJobs(c, p, t, k).0.last, ORDER[k], t.now, t.slots[ORDER[k]])
      == DueAtStart(c, p, t, ORDER[k])
  {
    ResultAt(c, p, t, |ORDER|, k);
    DueIsUnchanged(c, p, t, k);
  }

  lemma DueIsUnchanged(c: Config, p: Progress, t: Tick, k: nat)
    requires ValidConfig(c) && IsTick(c, t) && k < |ORDER|
    ensures ORDER[k] in t.slots
    ensures IsDue(c, AfterJobs(c, p, t, k).0.last, ORDER[k], t.now, t.slots[ORDER[k]])
      == DueAtStart(c, p, t, ORDER[k])
  {
    var job := ORDER[k];
    assert job in ORDER && job !in ORDER[..k];
    UntouchedSoFar(c, p, t, k, job);
    DueReads(c, p, AfterJobs(c, p, t, k).0, t, job);
  }

  lemma DueReads(c: Config, p: Progress, before: Progress, t: Tick, job: Job)
    requires ValidConfig(c) && job in ORDER && job in t.slots && IsSlot(c, job, t.now, t.slots[job])
    requires LastOf(before, job) == LastOf(p, job)
    ensures IsDue(c, before.last, job, t.now, t.slots[job]) <==> DueAtStart(c, p, t, job)
  {
    assert job in before.last <==> job in LastOf(p, job);
    assert job in p.last ==> LastOf(before, job)[job] == before.last[job] == p.last[job];
  }

  lemma HeavyRanReads(r: seq<Result>, k: nat)
    requires k <= |r| == |ORDER|
    ensures HeavyRan(r[..k]) <==>
      exists i :: 0 <= i < k && IsHeavyJob(ORDER[i]) && (r[i] == Ran(Fine) || r[i] == Ran(Partial))
  {
    assert ORDER[0] == Full && ORDER[1] == RankingMonthly;
    assert forall i :: 0 <= i < |ORDER| && IsHeavyJob(ORDER[i]) ==> i == 0 || i == 1;
  }

  /** A job starts exactly when it is due and nothing earlier in its cycle and nothing in progress is in its way. */
  lemma JobStartsIff(c: Config, p: Progress, t: Tick, r: seq<Result>, k: nat)
    requires ValidConfig(c) && IsTick(c, t) && r == Cycle(c, p, t).1 && k < |ORDER|
    ensures |r| == |ORDER| && ORDER[k] in t.slots
    ensures r[k].Ran? || r[k].Threw? <==>
      && DueAtStart(c, p, t, ORDER[k]) && NothingInTheWay(r, k, ORDER[k])
      && forall other :: other in t.inProgress ==> !Conflicts(ORDER[k], other)
    ensures r[k].Ran? ==> t.outcomes(ORDER[k]) == Returns(r[k].status)
    ensures r[k].Threw? ==> t.outcomes(ORDER[k]).Raises?
  {
    assert ORDER[k] in ORDER;
    ResultReads(c, p, t, r, k);
    HeavyRanReads(r, k);
    BlockersConflict(ORDER[k], t.inProgress);
    assert forall i :: 0 <= i < k ==> r[..k][i] == r[i];
  }

  lemma JobRecords(c: Config, p: Progress, t: Tick, k: nat)
    requires k < |ORDER| && ORDER[k] in t.slots
    ensures var job, r := ORDER[k], ResultOf(c, AfterJobs(c, p, t, k).0, t, ORDER[k], AfterJobs(c, p, t, k).1);
      LastOf(AfterJobs(c, p, t, k + 1).0, job) == if EndsWell(job, r) then map[job := t.slots[job]] else LastOf(p, job)
  {
    var job, before := ORDER[k], AfterJobs(c, p, t, k);
    var r := ResultOf(c, before.0, t, job, before.1);
    assert job !in ORDER[..k];
    UntouchedSoFar(c, p, t, k, job);
    assert AfterJobs(c, p, t, k + 1).0 == Completed(before.0, job, t.slots[job], r);
    assert EndsWell(job, r) <==> r.Ran? && Completes(job, r.status);
  }

  /** After a cycle the last slot of a job is the current one if it ended well, and else as before. */
  lemma CycleRecords(c: Config, p: Progress, t: Tick, k: nat)
    requires ValidConfig(c) && IsTick(c, t) && k < |ORDER|
    ensures ORDER[k] in t.slots && |Cycle(c, p, t).1| == |ORDER|
    ensures var (after, r) := Cycle(c, p, t);
      LastOf(after, ORDER[k])
        == if EndsWell(ORDER[k], r[k]) then map[ORDER[k] := t.slots[ORDER[k]]] else LastOf(p, ORDER[k])
  {
    assert ORDER[k] in ORDER;
    ResultAt(c, p, t, |ORDER|, k);
    JobRecords(c, p, t, k);
    UntouchedAfter(c, p, t, k + 1, |ORDER|, ORDER[k]);
  }

  lemma {:induction false} UntouchedAfter(c: Config, p: Progress, t: Tick, from: nat, k: nat, job: Job)
    requires from <= k <= |ORDER| && forall i :: from <= i < k ==> ORDER[i] != job
    ensures LastOf(AfterJobs(c, p, t, k).0, job) == LastOf(AfterJobs(c, p, t, from).0, job)
  {
    if from < k {
      UntouchedAfter(c, p, t, from, k - 1, job);
    }
  }

  /** After any past, three undisturbed cycles at one instant leave no job due. */
  lemma ThreeCyclesCatchUp(c: Config, p: Progress, t: Tick, p1: Progress, p2: Progress, p3: Progress)
    requires ValidConfig(c) && IsTick(c, t) && AllFine(t)
    requires p1 == Cycle(c, p, t).0 && p2 == Cycle(c, p1, t).0 && p3 == Cycle(c, p2, t).0
    ensures forall j :: j in ORDER ==> j in t.slots && !DueAtStart(c, p3, t, j)
  {
    RecentSettles(c, p2, t);
    FullSettles(c, p, t);
    FullSettles(c, p1, t);
    FullSettles(c, p2, t);
    RankingMonthlySettles(c, p1, t);
    StaysDone(c, p2, t, 0, |ORDER|, RankingMonthly);
    LightJobsSettle(c, p2, t, 2);
    LightJobsSettle(c, p2, t, 3);
    LightJobsSettle(c, p2, t, 4);
    forall j | j in ORDER ensures j in t.slots && !DueAtStart(c, p3, t, j) {
      assert IsSlot(c, j, t.now, t.slots[j]);
      DueReads(c, p3, p3, t, j);
    }
  }

  lemma RecentSettles(c: Config, p: Progress, t: Tick)
    requires ValidConfig(c) && IsTick(c, t) && AllFine(t)
    ensures RecentMatches in ORDER && !IsDue(c, Cycle(c, p, t).0.last, RecentMatches, t.now, t.slots[RecentMatches])
  {
    assert ORDER[5] == RecentMatches && IsSlot(c, RecentMatches, t.now, t.slots[RecentMatches]);
    var (after, r) := Cycle(c, p, t);
    NothingThrown(c, p, t, |ORDER|);
    JobStartsIff(c, p, t, r, 5);
    CycleRecords(c, p, t, 5);
    assert r[5] in r;
    assert RecentMatches in LastOf(after, RecentMatches) <==> RecentMatches in after.last;
    assert RecentMatches in p.last ==> LastOf(p, RecentMatches)[RecentMatches] == p.last[RecentMatches];
    assert RecentMatches in after.last ==> LastOf(after, RecentMatches)[RecentMatches] == after.last[RecentMatches];
  }


  // ---------- What a historical refresh records ----------

  // `free` says that no refresh of the recent matches is in progress.
  predicate TryFails(a: Try, free: bool) {
    a.raises || (a.refreshes && free && a.outcome.Raises?)
  }

  predicate TryRefreshes(a: Try, free: bool) {
    a.refreshes && free && a.outcome.Returns? && a.outcome.status != Failed
  }

  // The tries made: up to and including the first that does not fail.
  predicate AreMade(tries: seq<Try>, made: nat, free: bool) {
    && made <= |tries| && (forall i :: 0 <= i < made - 1 ==> TryFails(tries[i], free))
    && (made == 0 ==> tries == []) && (0 < made < |tries| ==> !TryFails(tries[made - 1], free))
  }

  function Refreshes(tries: seq<Try>, free: bool): nat {
    if tries == [] then 0 else (if TryRefreshes(tries[0], free) then 1 else 0) + Refreshes(tries[1..], free)
  }

  ghost predicate IsLastRefresh(tries: seq<Try>, free: bool, i: int) {
    0 <= i < |tries| && TryRefreshes(tries[i], free) && forall j :: i < j < |tries| ==> !TryRefreshes(tries[j], free)
  }

  /**
   When the recent matches were last refreshed after a historical refresh that began at `now` and made these
   tries: its start if its last try succeeded and refreshed them, else the instant of the last refresh, if any.
   */
  ghost predicate LastRefreshIs(before: map<Job, int>, after: map<Job, int>, now: int, made: seq<Try>, free: bool) {
    if made != [] && !TryFails(made[|made| - 1], free) && TryRefreshes(made[|made| - 1], free) then
      after == before[RecentMatches := now]
    else if exists i :: 0 <= i < |made| && TryRefreshes(made[i], free) then
      exists i :: IsLastRefresh(made, free, i) && after == before[RecentMatches := made[i].at]
    else after == before
  }

  // `n` copies of the completion by a historical refresh.
  function Copies(now: int, n: nat): seq<Completion> {
    seq(n, i requires 0 <= i < n => Completion(RecentMatches, now, false))
  }

  lemma LaterTries(before: map<Job, int>, first: Try, rest: seq<Try>, now: int, free: bool, after: map<Job, int>)
    requires TryFails(first, free)
    requires LastRefreshIs(if TryRefreshes(first, free) then before[RecentMatches := first.at] else before, after, now,
                           rest, free)
    ensures LastRefreshIs(before, after, now, [first] + rest, free)
  {
    var made := [first] + rest;
    if rest != [] && !TryFails(rest[|rest| - 1], free) && TryRefreshes(rest[|rest| - 1], free) {
      assert made[|made| - 1] == rest[|rest| - 1];
    } else if i :| 0 <= i < |rest| && TryRefreshes(rest[i], free) {
      var k :| IsLastRefresh(rest, free, k)
        && after == (if TryRefreshes(first, free) then before[RecentMatches := first.at] else before)[
          RecentMatches := rest[k].at];
      LastRefreshShifts(first, rest, free, k);
    } else {
      NoneAfterFirst(first, rest, free);
    }
  }

  lemma LastRefreshShifts(first: Try, rest: seq<Try>, free: bool, k: int)
    requires IsLastRefresh(rest, free, k)
    ensures IsLastRefresh([first] + rest, free, k + 1) && ([first] + rest)[k + 1] == rest[k]
  {
    var made := [first] + rest;
    forall j | k + 1 < j < |made| ensures !TryRefreshes(made[j], free) {
      assert made[j] == rest[j - 1];
    }
  }

  lemma NoneAfterFirst(first: Try, rest: seq<Try>, free: bool)
    requires forall i :: 0 <= i < |rest| ==> !TryRefreshes(rest[i], free)
    ensures forall j :: 1 <= j < |[first] + rest| ==> !TryRefreshes(([first] + rest)[j], free)
    ensures TryRefreshes(first, free) ==> IsLastRefresh([first] + rest, free, 0)
  {
    var made := [first] + rest;
    forall j | 1 <= j < |made| ensures !TryRefreshes(made[j], free) {
      assert made[j] == rest[j - 1];
    }
  }

  /** Which tries are made, how often they complete, and what is recorded of them. */
  lemma {:induction false} HistoricalRefreshRecords(p: Progress, now: int, tries: seq<Try>, inProgress: set<Job>)
    returns (made: nat)
    ensures var free, after := RecentMatches !in inProgress, AfterTries(p, now, tries, inProgress);
      && AreMade(tries, made, free)
      && after.completions == p.completions + Copies(now, Refreshes(tries[..made], free))
      && LastRefreshIs(p.last, after.last, now, tries[..made], free)
    decreases |tries|
  {
    var free := RecentMatches !in inProgress;
    if tries == [] {
      made := 0;
    } else if TryFails(tries[0], free) {
      var q := AfterTry(p, now, tries[0], inProgress);
      var rest := HistoricalRefreshRecords(q, now, tries[1..], inProgress);
      made := rest + 1;
      assert tries[..made] == [tries[0]] + tries[1..][..rest];
      assert tries[..made][1..] == tries[1..][..rest];
      assert forall i :: 0 < i < made ==> tries[i] == tries[1..][i - 1];
      LaterTries(p.last, tries[0], tries[1..][..rest], now, free, AfterTries(q, now, tries[1..], inProgress).last);
    } else {
      made := 1;
      assert tries[..1] == [tries[0]] && tries[..1][1..] == [];
      assert Refreshes([], free) == 0;
    }
  }
}
