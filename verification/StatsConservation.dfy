/**
 What the derived statistics of a match add up to: kills against deaths over all players, each
 player's counters against the totals, exact counter entries, and the seen-times.
 */
module StatsConservation {
  import opened Options
  import opened Counting
  import opened AdminLogEvents
  import opened PlayerStats

  // ---------- Credits handed to players add up to the rows that give credit ----------

  function CreditsOf(order: seq<string>, rows: seq<Event>, credit: Event -> Option<string>): nat {
    if order == [] then 0
    else CreditsOf(order[..|order| - 1], rows, credit) + CountIf(rows, CreditedTo(credit, order[|order| - 1]))
  }

  ghost predicate Distinct(order: seq<string>) {
    forall i, j :: 0 <= i < j < |order| ==> order[i] != order[j]
  }

  lemma {:induction false} CreditsOfOneMoreRow(order: seq<string>, rows: seq<Event>, e: Event,
      credit: Event -> Option<string>)
    requires Distinct(order)
    ensures CreditsOf(order, rows + [e], credit)
         == CreditsOf(order, rows, credit) + if credit(e).Some? && credit(e).value in order then 1 else 0
  {
    assert (rows + [e])[..|rows|] == rows;
    if order != [] {
      var front, last := order[..|order| - 1], order[|order| - 1];
      CreditsOfOneMoreRow(front, rows, e, credit);
      assert order == front + [last] && last !in front;
    }
  }

  lemma {:induction false} NoRowsNoCredits(order: seq<string>, credit: Event -> Option<string>)
    ensures CreditsOf(order, [], credit) == 0
  {
    if order != [] {
      NoRowsNoCredits(order[..|order| - 1], credit);
    }
  }

  lemma {:induction false} CreditsAddUp(order: seq<string>, rows: seq<Event>, credit: Event -> Option<string>)
    requires Distinct(order)
    requires forall e :: e in rows && credit(e).Some? ==> credit(e).value in order
    ensures CreditsOf(order, rows, credit) == CountIf(rows, HasCredit(credit))
  {
    if rows == [] {
      NoRowsNoCredits(order, credit);
    } else {
      var front, e := rows[..|rows| - 1], rows[|rows| - 1];
      CreditsAddUp(order, front, credit);
      CreditsOfOneMoreRow(order, front, e, credit);
      assert rows == front + [e];
    }
  }

  lemma {:induction false} MentionedIsSeen(rows: seq<Event>, e: Event, p: string, key: Keying)
    requires e in rows && Mentions(e, p, key)
    ensures SeenAt(rows, p, key) != []
  {
    var front := rows[..|rows| - 1];
    assert rows == front + [rows[|rows| - 1]];
    if e in front {
      MentionedIsSeen(front, e, p, key);
    }
  }

  // ---------- Totals over the statistics rows ----------

  datatype Totals = Totals(kills: nat, deaths: nat, teamkills: nat, deathsByTeamkill: nat)

  function TotalsOf(stats: seq<Stat>): Totals {
    if stats == [] then Totals(0, 0, 0, 0)
    else
      var t, s := TotalsOf(stats[..|stats| - 1]), stats[|stats| - 1].tally;
      Totals(t.kills + s.kills, t.deaths + s.deaths, t.teamkills + s.teamkills, t.deathsByTeamkill + s.deathsByTeamkill)
  }

  lemma {:induction false} TotalsAreCredits(stats: seq<Stat>, order: seq<string>, rows: seq<Event>, key: Keying)
    requires |stats| == |order|
    requires forall i :: 0 <= i < |order| ==> stats[i].tally == TallyOf(rows, order[i], key)
    ensures TotalsOf(stats) == Totals(
      CreditsOf(order, rows, KillCredit(key)), CreditsOf(order, rows, DeathCredit(key)),
      CreditsOf(order, rows, TeamkillCredit(key)), CreditsOf(order, rows, TeamkillDeathCredit(key)))
  {
    if order != [] {
      TotalsAreCredits(stats[..|order| - 1], order[..|order| - 1], rows, key);
    }
  }

  lemma {:induction false} KillsSplitByTeam(rows: seq<Event>, key: Keying)
    ensures CountIf(rows, HasCredit(KillCredit(key))) + CountIf(rows, HasCredit(TeamkillCredit(key))) == Kills(rows)
    ensures CountIf(rows, HasCredit(DeathCredit(key))) == Kills(rows)
    ensures CountIf(rows, HasCredit(TeamkillDeathCredit(key))) == CountIf(rows, HasCredit(TeamkillCredit(key)))
  {
    if rows != [] {
      KillsSplitByTeam(rows[..|rows| - 1], key);
    }
  }

  /**
   Over the players of a match, kills and teamkills together equal deaths and equal the kill
   rows read, and teamkills equal deaths by teamkill; self-kills included.
   */
  lemma KillsAreConserved(stats: seq<Stat>, rows: seq<Event>, key: Keying)
    requires IsStatsOf(stats, rows, key)
    ensures var t := TotalsOf(stats);
      t.kills + t.teamkills == t.deaths == Kills(rows) && t.teamkills == t.deathsByTeamkill
  {
    var order := Appearance(rows, key);
    AppearanceListsMentioned(rows, key);
    TotalsAreCredits(stats, order, rows, key);
    forall e | e in rows && e.kind.Kill? ensures Killer(e, key) in order && Victim(e, key) in order {
      MentionedIsSeen(rows, e, Killer(e, key), key);
      MentionedIsSeen(rows, e, Victim(e, key), key);
    }
    CreditsAddUp(order, rows, KillCredit(key));
    CreditsAddUp(order, rows, DeathCredit(key));
    CreditsAddUp(order, rows, TeamkillCredit(key));
    CreditsAddUp(order, rows, TeamkillDeathCredit(key));
    KillsSplitByTeam(rows, key);
  }

  // ---------- Counters ----------

  ghost function Total(c: Counter): nat {
    if c == map[] then 0
    else
      var k :| k in c;
      c[k] + Total(c - {k})
  }

  lemma {:induction false} TotalTakes(c: Counter, k: string)
    requires k in c
    ensures Total(c) == c[k] + Total(c - {k})
    decreases |c|
  {
    var first :| first in c && Total(c) == c[first] + Total(c - {first});
    if first != k {
      assert |c - {first}| < |c| && |c - {k}| < |c| by {
        assert (c - {first}).Keys == c.Keys - {first} && (c - {k}).Keys == c.Keys - {k};
        assert |c.Keys - {first}| < |c.Keys| && |c.Keys - {k}| < |c.Keys|;
      }
      TotalTakes(c - {first}, k);
      TotalTakes(c - {k}, first);
      assert c - {first} - {k} == c - {k} - {first};
    }
  }

  lemma TotalOfBump(c: Counter, k: string)
    ensures Total(Bump(c, k)) == Total(c) + 1
  {
    TotalTakes(Bump(c, k), k);
    if k in c {
      TotalTakes(c, k);
      assert Bump(c, k) - {k} == c - {k};
    } else {
      assert Bump(c, k) - {k} == c;
    }
  }

  lemma TotalOfBumpIf(c: Counter, condition: bool, k: string)
    ensures Total(BumpIf(c, condition, k)) == Total(c) + One(condition)
  {
    TotalOfBump(c, k);
  }

  lemma {:induction false} CountersMatchTallies(rows: seq<Event>, p: string, key: Keying)
    ensures var t := TallyOf(rows, p, key);
      && Total(WeaponsOf(rows, p, key)) == t.kills + t.teamkills == Total(VictimsOf(rows, p, key))
      && Total(DeathWeaponsOf(rows, p, key)) == t.deaths == Total(KillersOf(rows, p, key))
  {
    if rows != [] {
      var front, e := rows[..|rows| - 1], rows[|rows| - 1];
      CountersMatchTallies(front, p, key);
      var kills, dies := e.kind.Kill? && Killer(e, key) == p, e.kind.Kill? && Victim(e, key) == p;
      TotalOfBumpIf(WeaponsOf(front, p, key), kills, Weapon(e));
      TotalOfBumpIf(DeathWeaponsOf(front, p, key), dies, Weapon(e));
      TotalOfBumpIf(VictimsOf(front, p, key), kills, NameOf(rows, Victim(e, key), key));
      TotalOfBumpIf(KillersOf(front, p, key), dies, NameOf(rows, Killer(e, key), key));
    }
  }

  /** Each player's weapon and victim counters sum to kills plus teamkills, the death counters to deaths. */
  lemma PlayerCountersAddUp(stats: seq<Stat>, rows: seq<Event>, key: Keying, i: int)
    requires IsStatsOf(stats, rows, key) && 0 <= i < |stats|
    ensures var s := stats[i];
      && Total(s.counters.weapons) == Total(s.counters.mostKilled) == s.tally.kills + s.tally.teamkills
      && Total(s.counters.deathByWeapons) == Total(s.counters.deathBy) == s.tally.deaths
  {
    CountersMatchTallies(rows, Appearance(rows, key)[i], key);
  }

  function KilledWith(key: Keying, p: string, weapon: string): Event -> bool {
    (e: Event) => e.kind.Kill? && Killer(e, key) == p && Weapon(e) == weapon
  }

  /** A weapon counter entry is the number of the player's kill rows with that weapon. */
  lemma {:induction false} WeaponEntryIsExact(rows: seq<Event>, p: string, key: Keying, weapon: string)
    ensures Get(WeaponsOf(rows, p, key), weapon) == CountIf(rows, KilledWith(key, p, weapon))
  {
    if rows != [] {
      WeaponEntryIsExact(rows[..|rows| - 1], p, key, weapon);
    }
  }

  // ---------- Seen times ----------

  lemma {:induction false} SeenTimesAreRowTimes(rows: seq<Event>, p: string, key: Keying, b: Bounds)
    requires forall e :: e in rows ==> Within(e.time, b)
    ensures SeenAt(rows, p, key) != [] ==>
      Within(Smallest(SeenAt(rows, p, key)), b) && Within(Largest(SeenAt(rows, p, key)), b)
      && Smallest(SeenAt(rows, p, key)) <= Largest(SeenAt(rows, p, key))
  {
    if rows != [] {
      var front, e := rows[..|rows| - 1], rows[|rows| - 1];
      assert e in rows;
      SeenTimesAreRowTimes(front, p, key, b);
      var seen := SeenAt(front, p, key);
      assert seen + [] == seen;
      assert (seen + [e.time])[..|seen|] == seen;
    }
  }

  /** Every player is first seen no later than last seen, both inside the match's bounds. */
  lemma SeenWithinMatch(stats: seq<Stat>, log: seq<Event>, b: Bounds, key: Keying, i: int)
    requires IsStatsOf(stats, Select(log, b), key) && 0 <= i < |stats|
    ensures Within(stats[i].first, b) && Within(stats[i].last, b) && stats[i].first <= stats[i].last
  {
    forall e | e in Select(log, b) ensures Within(e.time, b) {
      SelectKeepsExactly(log, b, e);
    }
    SeenTimesAreRowTimes(Select(log, b), Appearance(Select(log, b), key)[i], key, b);
  }

  // ---------- What a statistics row says, read off the rows of the match ----------

  predicate Slays(e: Event, p: string, key: Keying) {
    e.kind.Kill? && key(e.payload.killerId, e.payload.killerName) == p
  }

  predicate Dies(e: Event, p: string, key: Keying) {
    e.kind.Kill? && key(e.payload.victimId, e.payload.victimName) == p
  }

  // A switch of team without a player id is nobody's.
  predicate Acts(e: Event, p: string, key: Keying) {
    && !e.kind.Kill? && (e.kind.TeamSwitch? ==> e.payload.playerId != "")
    && key(e.payload.playerId, e.payload.playerName) == p
  }

  predicate TakesPart(e: Event, p: string, key: Keying) {
    Slays(e, p, key) || Dies(e, p, key) || Acts(e, p, key)
  }

  predicate WithinOneTeam(e: Event) {
    e.payload.killerTeam == e.payload.victimTeam && e.payload.victimTeam != ""
  }

  ghost predicate TalliesRows(t: Tally, rows: seq<Event>, p: string, key: Keying) {
    && t.kills == CountIf(rows, (e: Event) => Slays(e, p, key) && !WithinOneTeam(e))
    && t.teamkills == CountIf(rows, (e: Event) => Slays(e, p, key) && WithinOneTeam(e))
    && t.deaths == CountIf(rows, (e: Event) => Dies(e, p, key))
    && t.deathsByTeamkill == CountIf(rows, (e: Event) => Dies(e, p, key) && WithinOneTeam(e))
  }

  ghost predicate SeenFromTo(first: int, last: int, rows: seq<Event>, p: string, key: Keying) {
    && (forall e :: e in rows && TakesPart(e, p, key) ==> first <= e.time <= last)
    && (exists e :: e in rows && TakesPart(e, p, key) && e.time == first)
    && (exists e :: e in rows && TakesPart(e, p, key) && e.time == last)
  }

  // The entries of `c` are the positive ones among `counts`.
  ghost predicate Lists(c: Counter, counts: string -> nat) {
    forall k :: if k in c then c[k] == counts(k) > 0 else counts(k) == 0
  }

  function NamesWeapon(e: Event, weapon: string): bool {
    if e.payload.weapon == "" then weapon == "Unknown" else e.payload.weapon == weapon
  }

  // The name a row gives a player; in a kill of oneself the victim's.
  function NameIn(e: Event, p: string, key: Keying): string {
    if Dies(e, p, key) && e.payload.victimName != "" then e.payload.victimName
    else if Slays(e, p, key) then e.payload.killerName
    else if Acts(e, p, key) then e.payload.playerName
    else ""
  }

  // The last name given, or else the key.
  ghost predicate CarriesName(rows: seq<Event>, p: string, key: Keying, name: string) {
    if exists i :: 0 <= i < |rows| && NameIn(rows[i], p, key) != "" then
      exists i :: LastNamed(rows, p, key, i) && NameIn(rows[i], p, key) == name
    else name == p
  }

  ghost predicate LastNamed(rows: seq<Event>, p: string, key: Keying, i: int) {
    && 0 <= i < |rows| && NameIn(rows[i], p, key) != ""
    && forall j :: i < j < |rows| ==> NameIn(rows[j], p, key) == ""
  }

  // The team a row settles for a player, whatever was known before.
  function TeamIn(e: Event, p: string, key: Keying): string {
    if Dies(e, p, key) then e.payload.victimTeam
    else if Slays(e, p, key) then e.payload.killerTeam
    else if !Acts(e, p, key) then ""
    else if e.payload.toTeam != "" then e.payload.toTeam
    else e.payload.chatTeam
  }

  // The killer's team of a kill of oneself only counts while no team is known.
  function WeakTeamIn(e: Event, p: string, key: Keying): string {
    if Dies(e, p, key) && Slays(e, p, key) && e.payload.victimTeam == "" then e.payload.killerTeam else ""
  }

  ghost predicate LastTeamed(rows: seq<Event>, p: string, key: Keying, i: int) {
    && 0 <= i < |rows| && TeamIn(rows[i], p, key) != ""
    && forall j :: i < j < |rows| ==> TeamIn(rows[j], p, key) == ""
  }

  ghost predicate FirstWeak(rows: seq<Event>, p: string, key: Keying, i: int) {
    && 0 <= i < |rows| && WeakTeamIn(rows[i], p, key) != ""
    && forall j :: 0 <= j < i ==> WeakTeamIn(rows[j], p, key) == ""
  }

  /** The last settled team; without one the first that a kill of oneself suggests; or none. */
  ghost predicate CarriesTeam(rows: seq<Event>, p: string, key: Keying, team: string) {
    if exists i :: 0 <= i < |rows| && TeamIn(rows[i], p, key) != "" then
      exists i :: LastTeamed(rows, p, key, i) && TeamIn(rows[i], p, key) == team
    else if exists i :: 0 <= i < |rows| && WeakTeamIn(rows[i], p, key) != "" then
      exists i :: FirstWeak(rows, p, key, i) && WeakTeamIn(rows[i], p, key) == team
    else team == ""
  }

  // Row `i` is a kill by `p` whose victim carries the name `k` once the row is read; and likewise a death.
  ghost predicate SlaysNamed(rows: seq<Event>, p: string, key: Keying, k: string, i: int) {
    && 0 <= i < |rows| && Slays(rows[i], p, key)
    && CarriesName(rows[..i + 1], key(rows[i].payload.victimId, rows[i].payload.victimName), key, k)
  }

  ghost predicate DiesByNamed(rows: seq<Event>, p: string, key: Keying, k: string, i: int) {
    && 0 <= i < |rows| && Dies(rows[i], p, key)
    && CarriesName(rows[..i + 1], key(rows[i].payload.killerId, rows[i].payload.killerName), key, k)
  }

  ghost function KillsOfName(rows: seq<Event>, p: string, key: Keying, k: string): set<int> {
    set i | 0 <= i < |rows| && SlaysNamed(rows, p, key, k, i)
  }

  ghost function DeathsByName(rows: seq<Event>, p: string, key: Keying, k: string): set<int> {
    set i | 0 <= i < |rows| && DiesByNamed(rows, p, key, k, i)
  }

  lemma MentionsAreParts(e: Event, p: string, key: Keying)
    ensures Mentions(e, p, key) <==> TakesPart(e, p, key)
  {
  }

  lemma TallyReads(rows: seq<Event>, p: string, key: Keying)
    ensures TalliesRows(TallyOf(rows, p, key), rows, p, key)
  {
    CountIfSame(rows, CreditedTo(KillCredit(key), p), (e: Event) => Slays(e, p, key) && !WithinOneTeam(e));
    CountIfSame(rows, CreditedTo(TeamkillCredit(key), p), (e: Event) => Slays(e, p, key) && WithinOneTeam(e));
    CountIfSame(rows, CreditedTo(DeathCredit(key), p), (e: Event) => Dies(e, p, key));
    CountIfSame(rows, CreditedTo(TeamkillDeathCredit(key), p), (e: Event) => Dies(e, p, key) && WithinOneTeam(e));
  }

  lemma SeenOneMore(first: int, last: int, front: seq<Event>, e: Event, p: string, key: Keying)
    requires TakesPart(e, p, key)
    requires if exists x :: x in front && TakesPart(x, p, key) then SeenFromTo(first, last, front, p, key)
      else first == last == e.time
    ensures SeenFromTo(Min(first, e.time), Max(last, e.time), front + [e], p, key)
  {
    var rows := front + [e];
    assert e in rows && forall x :: x in front ==> x in rows;
    if exists x :: x in front && TakesPart(x, p, key) {
      var a :| a in front && TakesPart(a, p, key) && a.time == first;
      var b :| b in front && TakesPart(b, p, key) && b.time == last;
      assert a in rows && b in rows;
    }
  }

  lemma {:induction false} SeenAreParts(rows: seq<Event>, p: string, key: Keying)
    ensures SeenAt(rows, p, key) != [] <==> TakesPartIn(rows, p, key)
    ensures SeenAt(rows, p, key) != [] ==>
      SeenFromTo(Smallest(SeenAt(rows, p, key)), Largest(SeenAt(rows, p, key)), rows, p, key)
  {
    if rows != [] {
      var front, e := rows[..|rows| - 1], rows[|rows| - 1];
      SeenAreParts(front, p, key);
      MentionsAreParts(e, p, key);
      SeenAfterRow(front, e, p, key);
      BoundsOfMore(SeenAt(front, p, key), e.time);
      assert rows == front + [e] && e in rows;
      var seen := SeenAt(front, p, key);
      if TakesPart(e, p, key) {
        SeenOneMore(if seen == [] then e.time else Smallest(seen), if seen == [] then e.time else Largest(seen),
                    front, e, p, key);
      } else {
        assert seen + [] == seen;
        assert forall x :: x in rows && TakesPart(x, p, key) <==> x in front && TakesPart(x, p, key);
      }
    }
  }

  lemma CarriesNameOneMore(front: seq<Event>, e: Event, p: string, key: Keying, name: string)
    requires CarriesName(front, p, key, name)
    ensures CarriesName(front + [e], p, key, if NameIn(e, p, key) != "" then NameIn(e, p, key) else name)
  {
    var rows := front + [e];
    assert forall i :: 0 <= i < |front| ==> rows[i] == front[i];
    if NameIn(e, p, key) != "" {
      assert LastNamed(rows, p, key, |front|);
    } else if i :| LastNamed(front, p, key, i) && NameIn(front[i], p, key) == name {
      assert LastNamed(rows, p, key, i);
    }
  }

  lemma {:induction false} NameReads(rows: seq<Event>, p: string, key: Keying)
    ensures CarriesName(rows, p, key, NameOf(rows, p, key))
    decreases |rows|
  {
    if rows != [] {
      var front, e := SplitLast(rows);
      NameReads(front, p, key);
      CarriesNameOneMore(front, e, p, key, NameOf(front, p, key));
      NameOfOneMore(front, e, p, key);
    }
  }

  lemma NameOfOneMore(front: seq<Event>, e: Event, p: string, key: Keying)
    ensures NameOf(front + [e], p, key) == if NameIn(e, p, key) != "" then NameIn(e, p, key) else NameOf(front, p, key)
  {
    assert (front + [e])[..|front|] == front;
  }

  lemma TeamOfOneMore(front: seq<Event>, e: Event, p: string, key: Keying)
    ensures TeamOf(front + [e], p, key) == TeamAfter(TeamOf(front, p, key), e, p, key)
  {
    assert (front + [e])[..|front|] == front;
  }

  lemma CarriedNameIsUnique(rows: seq<Event>, p: string, key: Keying, a: string, b: string)
    requires CarriesName(rows, p, key, a) && CarriesName(rows, p, key, b)
    ensures a == b
  {
    if exists i :: 0 <= i < |rows| && NameIn(rows[i], p, key) != "" {
      var i :| LastNamed(rows, p, key, i) && NameIn(rows[i], p, key) == a;
      var j :| LastNamed(rows, p, key, j) && NameIn(rows[j], p, key) == b;
      assert i == j;
    }
  }

  lemma TeamAfterReads(team: string, e: Event, p: string, key: Keying)
    ensures TeamAfter(team, e, p, key)
      == if TeamIn(e, p, key) != "" then TeamIn(e, p, key) else if team != "" then team else WeakTeamIn(e, p, key)
  {
  }

  lemma CarriesTeamOneMore(front: seq<Event>, e: Event, p: string, key: Keying, team: string)
    requires CarriesTeam(front, p, key, team)
    ensures CarriesTeam(front + [e], p, key,
      if TeamIn(e, p, key) != "" then TeamIn(e, p, key) else if team != "" then team else WeakTeamIn(e, p, key))
  {
    var rows := front + [e];
    assert forall i :: 0 <= i < |front| ==> rows[i] == front[i];
    if TeamIn(e, p, key) != "" {
      assert LastTeamed(rows, p, key, |front|);
    } else if i :| LastTeamed(front, p, key, i) && TeamIn(front[i], p, key) == team {
      assert LastTeamed(rows, p, key, i);
    } else if i :| FirstWeak(front, p, key, i) && WeakTeamIn(front[i], p, key) == team {
      assert FirstWeak(rows, p, key, i);
    } else if WeakTeamIn(e, p, key) != "" {
      assert FirstWeak(rows, p, key, |front|);
    }
  }

  lemma {:induction false} TeamReads(rows: seq<Event>, p: string, key: Keying)
    ensures CarriesTeam(rows, p, key, TeamOf(rows, p, key))
    decreases |rows|
  {
    if rows != [] {
      var front, e := SplitLast(rows);
      TeamReads(front, p, key);
      CarriesTeamOneMore(front, e, p, key, TeamOf(front, p, key));
      TeamAfterReads(TeamOf(front, p, key), e, p, key);
      TeamOfOneMore(front, e, p, key);
    }
  }

  // ---------- The counters ----------

  lemma BumpListsOneMore(c: Counter, counts: string -> nat, condition: bool, k: string, after: string -> nat)
    requires Lists(c, counts)
    requires forall q :: after(q) == counts(q) + if condition && q == k then 1 else 0
    ensures Lists(BumpIf(c, condition, k), after)
  {
  }

  function SlainWith(p: string, key: Keying, rows: seq<Event>): string -> nat {
    k => CountIf(rows, (e: Event) => Slays(e, p, key) && NamesWeapon(e, k))
  }

  function DiedBy(p: string, key: Keying, rows: seq<Event>): string -> nat {
    k => CountIf(rows, (e: Event) => Dies(e, p, key) && NamesWeapon(e, k))
  }

  lemma WeaponsOneMore(front: seq<Event>, e: Event, p: string, key: Keying, k: string)
    ensures SlainWith(p, key, front + [e])(k)
      == SlainWith(p, key, front)(k) + (if Slays(e, p, key) && k == Weapon(e) then 1 else 0)
    ensures DiedBy(p, key, front + [e])(k)
      == DiedBy(p, key, front)(k) + (if Dies(e, p, key) && k == Weapon(e) then 1 else 0)
  {
    CountIfPush(front, e, (x: Event) => Slays(x, p, key) && NamesWeapon(x, k));
    CountIfPush(front, e, (x: Event) => Dies(x, p, key) && NamesWeapon(x, k));
  }

  lemma {:induction false} WeaponsRead(rows: seq<Event>, p: string, key: Keying)
    ensures Lists(WeaponsOf(rows, p, key), SlainWith(p, key, rows))
    ensures Lists(DeathWeaponsOf(rows, p, key), DiedBy(p, key, rows))
  {
    if rows != [] {
      var front, e := rows[..|rows| - 1], rows[|rows| - 1];
      WeaponsRead(front, p, key);
      assert rows == front + [e];
      forall k
        ensures SlainWith(p, key, rows)(k)
          == SlainWith(p, key, front)(k) + (if Slays(e, p, key) && k == Weapon(e) then 1 else 0)
        ensures DiedBy(p, key, rows)(k)
          == DiedBy(p, key, front)(k) + (if Dies(e, p, key) && k == Weapon(e) then 1 else 0)
      {
        WeaponsOneMore(front, e, p, key, k);
      }
      BumpListsOneMore(WeaponsOf(front, p, key), SlainWith(p, key, front), Slays(e, p, key), Weapon(e),
                       SlainWith(p, key, rows));
      BumpListsOneMore(DeathWeaponsOf(front, p, key), DiedBy(p, key, front), Dies(e, p, key), Weapon(e),
                       DiedBy(p, key, rows));
    }
  }

  ghost function SlainNamed(rows: seq<Event>, p: string, key: Keying): string -> nat {
    k => |KillsOfName(rows, p, key, k)|
  }

  ghost function SlainByName(rows: seq<Event>, p: string, key: Keying): string -> nat {
    k => |DeathsByName(rows, p, key, k)|
  }

  lemma EarlierNamed(front: seq<Event>, e: Event, p: string, key: Keying, k: string, i: int)
    requires 0 <= i < |front|
    ensures SlaysNamed(front + [e], p, key, k, i) <==> SlaysNamed(front, p, key, k, i)
    ensures DiesByNamed(front + [e], p, key, k, i) <==> DiesByNamed(front, p, key, k, i)
  {
    assert (front + [e])[..i + 1] == front[..i + 1];
  }

  lemma LastIsNamed(front: seq<Event>, e: Event, p: string, key: Keying, k: string)
    ensures var rows := front + [e];
      && (SlaysNamed(rows, p, key, k, |front|) <==> Slays(e, p, key) && k == NameOf(rows, Victim(e, key), key))
      && (DiesByNamed(rows, p, key, k, |front|) <==> Dies(e, p, key) && k == NameOf(rows, Killer(e, key), key))
  {
    var rows := front + [e];
    assert rows[..|front| + 1] == rows;
    IsCarried(rows, Victim(e, key), key, k);
    IsCarried(rows, Killer(e, key), key, k);
  }

  lemma KillsNamedOneMore(front: seq<Event>, e: Event, p: string, key: Keying, k: string)
    ensures KillsOfName(front + [e], p, key, k)
      == KillsOfName(front, p, key, k) + if SlaysNamed(front + [e], p, key, k, |front|) then {|front|} else {}
  {
    forall i | 0 <= i < |front| ensures SlaysNamed(front + [e], p, key, k, i) <==> SlaysNamed(front, p, key, k, i) {
      EarlierNamed(front, e, p, key, k, i);
    }
  }

  lemma DeathsNamedOneMore(front: seq<Event>, e: Event, p: string, key: Keying, k: string)
    ensures DeathsByName(front + [e], p, key, k)
      == DeathsByName(front, p, key, k) + if DiesByNamed(front + [e], p, key, k, |front|) then {|front|} else {}
  {
    forall i | 0 <= i < |front| ensures DiesByNamed(front + [e], p, key, k, i) <==> DiesByNamed(front, p, key, k, i) {
      EarlierNamed(front, e, p, key, k, i);
    }
  }

  lemma NamedOneMore(front: seq<Event>, e: Event, p: string, key: Keying, k: string)
    ensures var rows := front + [e];
      && SlainNamed(rows, p, key)(k) == SlainNamed(front, p, key)(k)
        + (if Slays(e, p, key) && k == NameOf(rows, Victim(e, key), key) then 1 else 0)
      && SlainByName(rows, p, key)(k) == SlainByName(front, p, key)(k)
        + (if Dies(e, p, key) && k == NameOf(rows, Killer(e, key), key) then 1 else 0)
  {
    LastIsNamed(front, e, p, key, k);
    KillsNamedOneMore(front, e, p, key, k);
    DeathsNamedOneMore(front, e, p, key, k);
  }

  lemma IsCarried(rows: seq<Event>, p: string, key: Keying, k: string)
    ensures CarriesName(rows, p, key, k) <==> k == NameOf(rows, p, key)
  {
    NameReads(rows, p, key);
    if CarriesName(rows, p, key, k) {
      CarriedNameIsUnique(rows, p, key, k, NameOf(rows, p, key));
    }
  }

  lemma {:induction false} NamesRead(rows: seq<Event>, p: string, key: Keying)
    ensures Lists(VictimsOf(rows, p, key), SlainNamed(rows, p, key))
    ensures Lists(KillersOf(rows, p, key), SlainByName(rows, p, key))
  {
    if rows == [] {
      assert forall k :: KillsOfName(rows, p, key, k) == {} && DeathsByName(rows, p, key, k) == {};
    } else {
      var front, e := rows[..|rows| - 1], rows[|rows| - 1];
      NamesRead(front, p, key);
      assert rows == front + [e];
      forall k ensures SlainNamed(rows, p, key)(k) == SlainNamed(front, p, key)(k)
          + (if Slays(e, p, key) && k == NameOf(rows, Victim(e, key), key) then 1 else 0)
        && SlainByName(rows, p, key)(k) == SlainByName(front, p, key)(k)
          + (if Dies(e, p, key) && k == NameOf(rows, Killer(e, key), key) then 1 else 0)
      {
        NamedOneMore(front, e, p, key, k);
      }
      BumpListsOneMore(VictimsOf(front, p, key), SlainNamed(front, p, key), Slays(e, p, key),
                       NameOf(rows, Victim(e, key), key), SlainNamed(rows, p, key));
      BumpListsOneMore(KillersOf(front, p, key), SlainByName(front, p, key), Dies(e, p, key),
                       NameOf(rows, Killer(e, key), key), SlainByName(rows, p, key));
    }
  }

  // ---------- Who is listed, and in which order ----------

  ghost predicate TakesPartIn(rows: seq<Event>, p: string, key: Keying) {
    exists e :: e in rows && TakesPart(e, p, key)
  }

  // Row `i` has `p` in it, no earlier one has `q`, and if it has both `p` is the killer.
  ghost predicate Introduces(rows: seq<Event>, p: string, q: string, key: Keying, i: int) {
    && 0 <= i < |rows| && TakesPart(rows[i], p, key)
    && (forall j :: 0 <= j < i ==> !TakesPart(rows[j], q, key))
    && (TakesPart(rows[i], q, key) ==> Slays(rows[i], p, key))
  }

  ghost predicate AppearsBefore(rows: seq<Event>, p: string, q: string, key: Keying) {
    exists i :: Introduces(rows, p, q, key, i)
  }

  lemma StillBefore(front: seq<Event>, e: Event, p: string, q: string, key: Keying)
    requires AppearsBefore(front, p, q, key)
    ensures AppearsBefore(front + [e], p, q, key)
  {
    var i :| Introduces(front, p, q, key, i);
    assert Introduces(front + [e], p, q, key, i);
  }

  lemma KnownBeforeNew(front: seq<Event>, e: Event, p: string, q: string, key: Keying)
    requires TakesPartIn(front, p, key) && !TakesPartIn(front, q, key)
    ensures AppearsBefore(front + [e], p, q, key)
  {
    var x :| x in front && TakesPart(x, p, key);
    var i :| 0 <= i < |front| && front[i] == x;
    assert Introduces(front + [e], p, q, key, i);
  }

  lemma KillerBeforeVictim(front: seq<Event>, e: Event, p: string, q: string, key: Keying)
    requires Slays(e, p, key) && !TakesPartIn(front, q, key)
    ensures AppearsBefore(front + [e], p, q, key)
  {
    assert Introduces(front + [e], p, q, key, |front|);
  }

  lemma NewOfRow(order: seq<string>, e: Event, key: Keying, a: int, b: int)
    requires var after := AppearanceAfter(order, e, key); |order| <= a < b < |after|
    ensures Slays(e, AppearanceAfter(order, e, key)[a], key)
  {
  }

  lemma {:induction false} AppearanceIsOrdered(rows: seq<Event>, key: Keying, a: int, b: int)
    requires 0 <= a < b < |Appearance(rows, key)|
    ensures AppearsBefore(rows, Appearance(rows, key)[a], Appearance(rows, key)[b], key)
  {
    var front, e := rows[..|rows| - 1], rows[|rows| - 1];
    var order, before := Appearance(rows, key), Appearance(front, key);
    AppearanceListsMentioned(front, key);
    AppearanceListsMentioned(rows, key);
    assert rows == front + [e] && order[..|before|] == before;
    if b < |before| {
      AppearanceIsOrdered(front, key, a, b);
      StillBefore(front, e, order[a], order[b], key);
    } else {
      SeenAreParts(front, order[b], key);
      assert order[b] !in before by {
        assert forall i :: 0 <= i < |before| ==> order[i] == before[i];
      }
      if a < |before| {
        SeenAreParts(front, order[a], key);
        assert order[a] == before[a];
        KnownBeforeNew(front, e, order[a], order[b], key);
      } else {
        NewOfRow(before, e, key, a, b);
        KillerBeforeVictim(front, e, order[a], order[b], key);
      }
    }
  }

  /** A statistics row says exactly what the rows of the match say about its player. */
  ghost predicate SaysWhatRowsSay(s: Stat, rows: seq<Event>, key: Keying) {
    && TalliesRows(s.tally, rows, s.id, key) && SeenFromTo(s.first, s.last, rows, s.id, key)
    && CarriesName(rows, s.id, key, s.name) && CarriesTeam(rows, s.id, key, s.team)
    && Lists(s.counters.weapons, SlainWith(s.id, key, rows))
    && Lists(s.counters.deathByWeapons, DiedBy(s.id, key, rows))
    && Lists(s.counters.mostKilled, SlainNamed(rows, s.id, key))
    && Lists(s.counters.deathBy, SlainByName(rows, s.id, key))
  }

  ghost predicate ListedByAppearance(stats: seq<Stat>, rows: seq<Event>, key: Keying) {
    forall i, j :: 0 <= i < j < |stats| ==>
      stats[i].id != stats[j].id && AppearsBefore(rows, stats[i].id, stats[j].id, key)
  }

  ghost predicate HasRow(stats: seq<Stat>, p: string) {
    exists i :: 0 <= i < |stats| && stats[i].id == p
  }

  lemma RecordSaysWhatRowsSay(rows: seq<Event>, p: string, key: Keying)
    requires SeenAt(rows, p, key) != []
    ensures SaysWhatRowsSay(RecordOf(rows, p, key), rows, key)
  {
    TallyReads(rows, p, key);
    SeenAreParts(rows, p, key);
    NameReads(rows, p, key);
    TeamReads(rows, p, key);
    WeaponsRead(rows, p, key);
    NamesRead(rows, p, key);
  }

  lemma ListedTakePart(stats: seq<Stat>, rows: seq<Event>, p: string, key: Keying)
    requires IsStatsOf(stats, rows, key)
    ensures TakesPartIn(rows, p, key) <==> HasRow(stats, p)
  {
    var order := Appearance(rows, key);
    AppearanceListsMentioned(rows, key);
    SeenAreParts(rows, p, key);
    if p in order {
      var i :| 0 <= i < |order| && order[i] == p;
      assert stats[i].id == p;
    }
  }

  lemma ListedInOrder(stats: seq<Stat>, rows: seq<Event>, key: Keying)
    requires IsStatsOf(stats, rows, key)
    ensures ListedByAppearance(stats, rows, key)
  {
    AppearanceListsMentioned(rows, key);
    forall i, j | 0 <= i < j < |stats|
      ensures stats[i].id != stats[j].id && AppearsBefore(rows, stats[i].id, stats[j].id, key)
    {
      AppearanceIsOrdered(rows, key, i, j);
    }
  }

  /**
   Every player who takes part in a row has one statistics row, in the order of their first rows,
   and it says what the rows say about the player.
   */
  lemma StatsSayWhatRowsSay(stats: seq<Stat>, rows: seq<Event>, key: Keying)
    requires IsStatsOf(stats, rows, key)
    ensures forall s :: s in stats ==> SaysWhatRowsSay(s, rows, key)
    ensures forall p :: TakesPartIn(rows, p, key) <==> HasRow(stats, p)
    ensures ListedByAppearance(stats, rows, key)
  {
    forall s | s in stats ensures SaysWhatRowsSay(s, rows, key) {
      var i :| 0 <= i < |stats| && stats[i] == s;
      RecordSaysWhatRowsSay(rows, Appearance(rows, key)[i], key);
    }
    forall p ensures TakesPartIn(rows, p, key) <==> HasRow(stats, p) {
      ListedTakePart(stats, rows, p, key);
    }
    ListedInOrder(stats, rows, key);
  }
}
