/**
 Per-player statistics of one match (_derive_player_stats_for_match): a shared dictionary of
 mutable player records, updated row by row, against a specification that follows each player
 alone. The killer and the victim of a row may be the same record.
 */
module PlayerStats {
  import opened Options
  import opened Counting
  import opened AdminLogEvents

  type Counter = map<string, nat>

  datatype Tally = Tally(kills: nat, deaths: nat, teamkills: nat, deathsByTeamkill: nat)

  datatype Counters = Counters(weapons: Counter, deathByWeapons: Counter, mostKilled: Counter, deathBy: Counter)

  // The statistics row of one player. An unknown team is "".
  datatype Stat = Stat(id: string, name: string, team: string, tally: Tally, counters: Counters, first: int, last: int)

  // The dictionary key made from a player id and a player name.
  type Keying = (string, string) -> string

  // Python's `a or b` on strings.
  function Or(a: string, b: string): string {
    if a != "" then a else b
  }

  function Get(c: Counter, k: string): nat {
    if k in c then c[k] else 0
  }

  function Bump(c: Counter, k: string): Counter {
    c[k := Get(c, k) + 1]
  }

  function Min(a: int, b: int): int {
    if a <= b then a else b
  }

  function Max(a: int, b: int): int {
    if a <= b then b else a
  }

  // ---------- What one row says about one player ----------

  function Killer(e: Event, key: Keying): string {
    key(e.payload.killerId, e.payload.killerName)
  }

  function Victim(e: Event, key: Keying): string {
    key(e.payload.victimId, e.payload.victimName)
  }

  // The player of a row that is not a kill; a team switch without a player id is skipped.
  predicate IsSkipped(e: Event) {
    e.kind.TeamSwitch? && e.payload.playerId == ""
  }

  function Subject(e: Event, key: Keying): string {
    key(e.payload.playerId, e.payload.playerName)
  }

  predicate IsTeamkill(e: Event) {
    e.payload.killerTeam != "" && e.payload.killerTeam == e.payload.victimTeam
  }

  predicate Mentions(e: Event, p: string, key: Keying) {
    if e.kind.Kill? then Killer(e, key) == p || Victim(e, key) == p
    else !IsSkipped(e) && Subject(e, key) == p
  }

  function NameAfter(name: string, e: Event, p: string, key: Keying): string {
    if e.kind.Kill? then
      var n := if Killer(e, key) == p then Or(e.payload.killerName, name) else name;
      if Victim(e, key) == p then Or(e.payload.victimName, n) else n
    else if Mentions(e, p, key) then Or(e.payload.playerName, name)
    else name
  }

  function TeamAfter(team: string, e: Event, p: string, key: Keying): string {
    if e.kind.Kill? then
      var t := if Killer(e, key) == p then Or(e.payload.killerTeam, team) else team;
      if Victim(e, key) == p then Or(Or(e.payload.victimTeam, team), t) else t
    else if Mentions(e, p, key) then Or(Or(e.payload.toTeam, e.payload.chatTeam), team)
    else team
  }

  // Who a row credits with a kill, a teamkill, a death, a death by teamkill.
  function KillCredit(key: Keying): Event -> Option<string> {
    (e: Event) => if e.kind.Kill? && !IsTeamkill(e) then Some(Killer(e, key)) else None
  }

  function TeamkillCredit(key: Keying): Event -> Option<string> {
    (e: Event) => if e.kind.Kill? && IsTeamkill(e) then Some(Killer(e, key)) else None
  }

  function DeathCredit(key: Keying): Event -> Option<string> {
    (e: Event) => if e.kind.Kill? then Some(Victim(e, key)) else None
  }

  function TeamkillDeathCredit(key: Keying): Event -> Option<string> {
    (e: Event) => if e.kind.Kill? && IsTeamkill(e) then Some(Victim(e, key)) else None
  }

  function CreditedTo(credit: Event -> Option<string>, p: string): Event -> bool {
    (e: Event) => credit(e) == Some(p)
  }

  function HasCredit(credit: Event -> Option<string>): Event -> bool {
    (e: Event) => credit(e).Some?
  }

  // ---------- Each player followed alone ----------

  // Players in order of first appearance, the killer of a row before its victim.
  function Appearance(rows: seq<Event>, key: Keying): seq<string> {
    if rows == [] then []
    else AppearanceAfter(Appearance(rows[..|rows| - 1], key), rows[|rows| - 1], key)
  }

  function Appended(order: seq<string>, p: string): seq<string> {
    if p in order then order else order + [p]
  }

  function AppearanceAfter(order: seq<string>, e: Event, key: Keying): seq<string> {
    if e.kind.Kill? then Appended(Appended(order, Killer(e, key)), Victim(e, key))
    else if IsSkipped(e) then order
    else Appended(order, Subject(e, key))
  }

  function Weapon(e: Event): string {
    Or(e.payload.weapon, "Unknown")
  }

  function Blank(p: string, time: int): Stat {
    Stat(p, p, "", Tally(0, 0, 0, 0), Counters(map[], map[], map[], map[]), time, time)
  }

  function One(b: bool): nat {
    if b then 1 else 0
  }

  function BumpIf(c: Counter, condition: bool, k: string): Counter {
    if condition then Bump(c, k) else c
  }

  function NameOf(rows: seq<Event>, p: string, key: Keying): string {
    if rows == [] then p else NameAfter(NameOf(rows[..|rows| - 1], p, key), rows[|rows| - 1], p, key)
  }

  function TeamOf(rows: seq<Event>, p: string, key: Keying): string {
    if rows == [] then "" else TeamAfter(TeamOf(rows[..|rows| - 1], p, key), rows[|rows| - 1], p, key)
  }

  function WeaponsOf(rows: seq<Event>, p: string, key: Keying): Counter {
    if rows == [] then map[]
    else
      var e := rows[|rows| - 1];
      BumpIf(WeaponsOf(rows[..|rows| - 1], p, key), e.kind.Kill? && Killer(e, key) == p, Weapon(e))
  }

  function DeathWeaponsOf(rows: seq<Event>, p: string, key: Keying): Counter {
    if rows == [] then map[]
    else
      var e := rows[|rows| - 1];
      BumpIf(DeathWeaponsOf(rows[..|rows| - 1], p, key), e.kind.Kill? && Victim(e, key) == p, Weapon(e))
  }

  // Victims are counted under the name they carry once the row has been read.
  function VictimsOf(rows: seq<Event>, p: string, key: Keying): Counter {
    if rows == [] then map[]
    else
      var e := rows[|rows| - 1];
      BumpIf(VictimsOf(rows[..|rows| - 1], p, key), e.kind.Kill? && Killer(e, key) == p,
             NameOf(rows, Victim(e, key), key))
  }

  function KillersOf(rows: seq<Event>, p: string, key: Keying): Counter {
    if rows == [] then map[]
    else
      var e := rows[|rows| - 1];
      BumpIf(KillersOf(rows[..|rows| - 1], p, key), e.kind.Kill? && Victim(e, key) == p,
             NameOf(rows, Killer(e, key), key))
  }

  // The times of the rows that mention the player.
  function SeenAt(rows: seq<Event>, p: string, key: Keying): seq<int> {
    if rows == [] then []
    else
      SeenAt(rows[..|rows| - 1], p, key)
      + (if Mentions(rows[|rows| - 1], p, key) then [rows[|rows| - 1].time] else [])
  }

  function Smallest(times: seq<int>): int
    requires times != []
  {
    if |times| == 1 then times[0] else Min(Smallest(times[..|times| - 1]), times[|times| - 1])
  }

  function Largest(times: seq<int>): int
    requires times != []
  {
    if |times| == 1 then times[0] else Max(Largest(times[..|times| - 1]), times[|times| - 1])
  }

  function TallyOf(rows: seq<Event>, p: string, key: Keying): Tally {
    Tally(
      CountIf(rows, CreditedTo(KillCredit(key), p)),
      CountIf(rows, CreditedTo(DeathCredit(key), p)),
      CountIf(rows, CreditedTo(TeamkillCredit(key), p)),
      CountIf(rows, CreditedTo(TeamkillDeathCredit(key), p)))
  }

  function CountersOf(rows: seq<Event>, p: string, key: Keying): Counters {
    Counters(WeaponsOf(rows, p, key), DeathWeaponsOf(rows, p, key), VictimsOf(rows, p, key), KillersOf(rows, p, key))
  }

  // The record a player should end with: counts over the rows, independent of other players.
  function RecordOf(rows: seq<Event>, p: string, key: Keying): Stat
    requires SeenAt(rows, p, key) != []
  {
    Stat(p, NameOf(rows, p, key), TeamOf(rows, p, key), TallyOf(rows, p, key), CountersOf(rows, p, key),
         Smallest(SeenAt(rows, p, key)), Largest(SeenAt(rows, p, key)))
  }

  lemma {:induction false} AppearanceListsMentioned(rows: seq<Event>, key: Keying)
    ensures var order := Appearance(rows, key);
      && (forall p :: p in order <==> SeenAt(rows, p, key) != [])
      && (forall i, j :: 0 <= i < j < |order| ==> order[i] != order[j])
  {
    if rows != [] {
      AppearanceListsMentioned(rows[..|rows| - 1], key);
    }
  }

  // ---------- One row's effect on a record ----------

  lemma {:induction false} UnseenRecord(rows: seq<Event>, p: string, key: Keying)
    requires SeenAt(rows, p, key) == []
    ensures NameOf(rows, p, key) == p && TeamOf(rows, p, key) == ""
    ensures TallyOf(rows, p, key) == Tally(0, 0, 0, 0)
    ensures CountersOf(rows, p, key) == Counters(map[], map[], map[], map[])
  {
    if rows != [] {
      UnseenRecord(rows[..|rows| - 1], p, key);
    }
  }

  // The record before a row, or a blank one first seen by it.
  function Before(rows: seq<Event>, e: Event, p: string, key: Keying): Stat {
    if SeenAt(rows, p, key) != [] then RecordOf(rows, p, key) else Blank(p, e.time)
  }

  function NextTally(t: Tally, kills: bool, dies: bool, teamkill: bool): Tally {
    Tally(t.kills + One(kills && !teamkill), t.deaths + One(dies),
          t.teamkills + One(kills && teamkill), t.deathsByTeamkill + One(dies && teamkill))
  }

  function NextCounters(c: Counters, kills: bool, dies: bool, weapon: string, victimName: string,
                        killerName: string): Counters {
    Counters(BumpIf(c.weapons, kills, weapon), BumpIf(c.deathByWeapons, dies, weapon),
             BumpIf(c.mostKilled, kills, victimName), BumpIf(c.deathBy, dies, killerName))
  }

  // One player's record after a row that mentions it; the names are those carried after the row.
  function NextRecord(r: Stat, e: Event, p: string, key: Keying, victimName: string, killerName: string): Stat {
    var kills, dies := e.kind.Kill? && Killer(e, key) == p, e.kind.Kill? && Victim(e, key) == p;
    Stat(p, NameAfter(r.name, e, p, key), TeamAfter(r.team, e, p, key),
         NextTally(r.tally, kills, dies, IsTeamkill(e)),
         NextCounters(r.counters, kills, dies, Weapon(e), victimName, killerName),
         Min(r.first, e.time), Max(r.last, e.time))
  }

  lemma SeenAfterRow(rows: seq<Event>, e: Event, p: string, key: Keying)
    ensures SeenAt(rows + [e], p, key) == SeenAt(rows, p, key) + if Mentions(e, p, key) then [e.time] else []
  {
    assert (rows + [e])[..|rows|] == rows;
  }

  lemma BoundsOfMore(times: seq<int>, t: int)
    ensures times == [] ==> Smallest(times + [t]) == t && Largest(times + [t]) == t
    ensures times != [] ==>
      Smallest(times + [t]) == Min(Smallest(times), t) && Largest(times + [t]) == Max(Largest(times), t)
  {
    assert (times + [t])[..|times|] == times;
  }

  lemma CountsAfterRow(rows: seq<Event>, e: Event, p: string, key: Keying)
    ensures var kills, dies := e.kind.Kill? && Killer(e, key) == p, e.kind.Kill? && Victim(e, key) == p;
      && TallyOf(rows + [e], p, key) == NextTally(TallyOf(rows, p, key), kills, dies, IsTeamkill(e))
      && CountersOf(rows + [e], p, key) == NextCounters(CountersOf(rows, p, key), kills, dies, Weapon(e),
           NameOf(rows + [e], Victim(e, key), key), NameOf(rows + [e], Killer(e, key), key))
      && NameOf(rows + [e], p, key) == NameAfter(NameOf(rows, p, key), e, p, key)
      && TeamOf(rows + [e], p, key) == TeamAfter(TeamOf(rows, p, key), e, p, key)
  {
    assert (rows + [e])[..|rows|] == rows;
  }

  lemma RecordAfterRow(rows: seq<Event>, e: Event, p: string, key: Keying)
    ensures var after := rows + [e];
      if Mentions(e, p, key) then
        && SeenAt(after, p, key) != []
        && RecordOf(after, p, key) == NextRecord(Before(rows, e, p, key), e, p, key,
                                                 NameOf(after, Victim(e, key), key), NameOf(after, Killer(e, key), key))
      else
        && SeenAt(after, p, key) == SeenAt(rows, p, key)
        && (SeenAt(rows, p, key) != [] ==> RecordOf(after, p, key) == RecordOf(rows, p, key))
  {
    CountsAfterRow(rows, e, p, key);
    SeenAfterRow(rows, e, p, key);
    if SeenAt(rows, p, key) == [] {
      UnseenRecord(rows, p, key);
    }
    BoundsOfMore(SeenAt(rows, p, key), e.time);
  }

  /** One mutable record of the players dictionary. */
  class Player {
    const id: string
    var name: string
    var team: string
    var tally: Tally
    var counters: Counters
    var first: int
    var last: int

    constructor (id: string, name: string, team: string, time: int)
      ensures this.id == id && this.name == Or(name, id) && this.team == team && first == last == time
      ensures tally == Tally(0, 0, 0, 0) && counters == Counters(map[], map[], map[], map[])
    {
      this.id, this.name, this.team := id, Or(name, id), team;
      tally, counters := Tally(0, 0, 0, 0), Counters(map[], map[], map[], map[]);
      first, last := time, time;
    }

    ghost predicate Holds(r: Stat)
      reads this
    {
      && id == r.id && name == r.name && team == r.team
      && tally == r.tally && counters == r.counters
      && first == r.first && last == r.last
    }

    /** _touch_player. */
    method Touch(time: int)
      modifies this`first, this`last
      ensures first == Min(old(first), time) && last == Max(old(last), time)
    {
      first, last := Min(first, time), Max(last, time);
    }

    /** The tail of _ensure_player, on a record that exists. */
    method Refresh(newName: string, newTeam: string, time: int)
      modifies this`name, this`team, this`first, this`last
      ensures name == Or(newName, old(name)) && team == Or(newTeam, old(team))
      ensures first == Min(old(first), time) && last == Max(old(last), time)
    {
      if newName != "" {
        name := newName;
      }
      if newTeam != "" {
        team := newTeam;
      }
      Touch(time);
    }
  }

  function Known(teams: map<string, string>, p: string): string {
    if p in teams then teams[p] else ""
  }

  // ---------- One row's effect on all records ----------

  function Found(stats: map<string, Stat>, p: string, time: int): Stat {
    if p in stats then stats[p] else Blank(p, time)
  }

  // A record refreshed by a name, a team (either may be "") and a time.
  function Noted(r: Stat, name: string, team: string, time: int): Stat {
    Stat(r.id, Or(name, r.name), Or(team, r.team), r.tally, r.counters, Min(r.first, time), Max(r.last, time))
  }

  function AfterKill(stats: map<string, Stat>, e: Event, key: Keying): map<string, Stat> {
    var k, v := Killer(e, key), Victim(e, key);
    var killer, victim := Found(stats, k, e.time), Found(stats, v, e.time);
    var killerName, victimName := NameAfter(killer.name, e, k, key), NameAfter(victim.name, e, v, key);
    stats[k := NextRecord(killer, e, k, key, victimName, killerName)]
      [v := NextRecord(victim, e, v, key, victimName, killerName)]
  }

  function AfterOther(stats: map<string, Stat>, e: Event, key: Keying): map<string, Stat> {
    var p := Subject(e, key);
    stats[p := NextRecord(Found(stats, p, e.time), e, p, key, "", "")]
  }

  function Listed(order: seq<string>, known: set<string>, p: string): seq<string> {
    if p in known then order else order + [p]
  }

  // The cached team of every player agrees with the record.
  ghost predicate TeamsMatch(stats: map<string, Stat>, teams: map<string, string>) {
    forall p :: Known(teams, p) == if p in stats then stats[p].team else ""
  }

  /** The dictionaries of one match: players in insertion order, and the team last known for each. */
  class Ledger {
    var players: map<string, Player>
    var order: seq<string>
    var teams: map<string, string>
    ghost var records: set<Player>  // the records in use

    constructor ()
      ensures players == map[] && order == [] && teams == map[] && records == {}
    {
      players, order, teams, records := map[], [], map[], {};
    }

    // The records say `stats`, and no two names share a record.
    ghost predicate Represents(stats: map<string, Stat>)
      reads this`players, this`records, records
    {
      && (forall p :: p in players <==> p in stats)
      && (forall p :: p in players ==> players[p] in records && players[p].id == p)
      && (forall p :: p in players ==> players[p].Holds(stats[p]))
    }

    method CreatePlayer(ghost stats: map<string, Stat>, p: string, name: string, team: string, time: int)
      requires Represents(stats) && p !in players
      modifies this`players, this`order, this`records
      ensures Represents(stats[p := Blank(p, time).(name := Or(name, p), team := team)])
      ensures order == old(order) + [p] && p in players && players == old(players)[p := players[p]]
      ensures records == old(records) + {players[p]} && fresh(players[p])
    {
      var player := new Player(p, name, team, time);
      players, order, records := players[p := player], order + [p], records + {player};
    }

    method RefreshPlayer(ghost stats: map<string, Stat>, player: Player, name: string, team: string, time: int)
      requires Represents(stats) && player.id in players && players[player.id] == player
      modifies player`name, player`team, player`first, player`last
      ensures Represents(stats[player.id := Noted(stats[player.id], name, team, time)])
    {
      player.Refresh(name, team, time);
    }

    /** _ensure_player: the record of `p`, created when missing. */
    method EnsurePlayer(ghost stats: map<string, Stat>, p: string, name: string, team: string, time: int)
      returns (player: Player)
      requires Represents(stats)
      modifies this`players, this`order, this`records, records
      ensures Represents(stats[p := Noted(Found(stats, p, time), name, team, time)])
      ensures p in players && player == players[p] && order == Listed(old(order), stats.Keys, p)
      ensures forall q :: q in old(players) ==> q in players && players[q] == old(players)[q]
      ensures forall r :: r in records ==> r in old(records) || fresh(r)
    {
      ghost var found := stats;
      if p !in players {
        CreatePlayer(stats, p, name, team, time);
        found := stats[p := Blank(p, time).(name := Or(name, p), team := team)];
      }
      player := players[p];
      RefreshPlayer(found, player, name, team, time);
      assert found[p := Noted(found[p], name, team, time)]
        == stats[p := Noted(Found(stats, p, time), name, team, time)];
    }

    method AddKill(ghost stats: map<string, Stat>, killer: Player, teamkill: bool, weapon: string)
      requires Represents(stats) && killer.id in players && players[killer.id] == killer
      modifies killer`tally, killer`counters
      ensures Represents(stats[killer.id := WithKill(stats[killer.id], teamkill, weapon)])
    {
      if teamkill {
        killer.tally := killer.tally.(teamkills := killer.tally.teamkills + 1);
      } else {
        killer.tally := killer.tally.(kills := killer.tally.kills + 1);
      }
      killer.counters := killer.counters.(weapons := Bump(killer.counters.weapons, weapon));
    }

    method AddDeath(ghost stats: map<string, Stat>, victim: Player, teamkill: bool, weapon: string)
      requires Represents(stats) && victim.id in players && players[victim.id] == victim
      modifies victim`tally, victim`counters
      ensures Represents(stats[victim.id := WithDeath(stats[victim.id], teamkill, weapon)])
    {
      if teamkill {
        victim.tally := victim.tally.(deathsByTeamkill := victim.tally.deathsByTeamkill + 1);
      }
      victim.tally := victim.tally.(deaths := victim.tally.deaths + 1);
      victim.counters := victim.counters.(deathByWeapons := Bump(victim.counters.deathByWeapons, weapon));
    }

    method AddVictimName(ghost stats: map<string, Stat>, killer: Player, name: string)
      requires Represents(stats) && killer.id in players && players[killer.id] == killer
      modifies killer`counters
      ensures Represents(stats[killer.id := WithVictimName(stats[killer.id], name)])
    {
      killer.counters := killer.counters.(mostKilled := Bump(killer.counters.mostKilled, name));
    }

    method AddKillerName(ghost stats: map<string, Stat>, victim: Player, name: string)
      requires Represents(stats) && victim.id in players && players[victim.id] == victim
      modifies victim`counters
      ensures Represents(stats[victim.id := WithKillerName(stats[victim.id], name)])
    {
      victim.counters := victim.counters.(deathBy := Bump(victim.counters.deathBy, name));
    }

    /** _touch_player. */
    method Touch(ghost stats: map<string, Stat>, player: Player, time: int)
      requires Represents(stats) && player.id in players && players[player.id] == player
      modifies player`first, player`last
      ensures Represents(stats[player.id := Noted(stats[player.id], "", "", time)])
    {
      player.Touch(time);
    }

    /** Finds or creates the killer and then the victim of a row. */
    method EnsureBoth(ghost stats: map<string, Stat>, e: Event, key: Keying) returns (killer: Player, victim: Player)
      requires Represents(stats) && TeamsMatch(stats, teams)
      modifies this`players, this`order, this`records, records
      ensures Represents(EnteredByKill(stats, e, key))
      ensures Killer(e, key) in players && players[Killer(e, key)] == killer
      ensures Victim(e, key) in players && players[Victim(e, key)] == victim
      ensures order == Listed(Listed(old(order), stats.Keys, Killer(e, key)), stats.Keys + {Killer(e, key)},
                              Victim(e, key))
      ensures forall r :: r in records ==> r in old(records) || fresh(r)
    {
      var k, v, time := Killer(e, key), Victim(e, key), e.time;
      var killerTeam, victimTeam :=
        Or(e.payload.killerTeam, Known(teams, k)), Or(e.payload.victimTeam, Known(teams, v));
      EnteredInTwoSteps(stats, e, key);
      killer := EnsurePlayer(stats, k, e.payload.killerName, killerTeam, time);
      ghost var once := stats[k := Noted(Found(stats, k, time), e.payload.killerName, killerTeam, time)];
      victim := EnsurePlayer(once, v, e.payload.victimName, victimTeam, time);
    }

    /** Looks both records up and caches their teams. */
    method EnterKill(ghost stats: map<string, Stat>, e: Event, key: Keying) returns (killer: Player, victim: Player)
      requires Represents(stats) && TeamsMatch(stats, teams)
      modifies this, records
      ensures Represents(EnteredByKill(stats, e, key)) && TeamsMatch(EnteredByKill(stats, e, key), teams)
      ensures Killer(e, key) in players && players[Killer(e, key)] == killer
      ensures Victim(e, key) in players && players[Victim(e, key)] == victim
      ensures order == Listed(Listed(old(order), stats.Keys, Killer(e, key)), stats.Keys + {Killer(e, key)},
                              Victim(e, key))
      ensures forall r :: r in records ==> r in old(records) || fresh(r)
    {
      killer, victim := EnsureBoth(stats, e, key);
      CachedTeams(stats, e, key, teams);
      CacheTeams(e, key, killer, victim);
    }

    method CacheTeams(e: Event, key: Keying, killer: Player, victim: Player)
      modifies this`teams
      ensures teams ==
        old(teams)[Killer(e, key) := Or(e.payload.killerTeam, killer.team)]
          [Victim(e, key) := Or(e.payload.victimTeam, victim.team)]
    {
      teams := teams[Killer(e, key) := Or(e.payload.killerTeam, killer.team)];
      teams := teams[Victim(e, key) := Or(e.payload.victimTeam, victim.team)];
    }

    /** Adds the kill to the counts of both records. */
    method CreditKill(ghost stats: map<string, Stat>, killer: Player, victim: Player, teamkill: bool, weapon: string)
      requires Represents(stats)
      requires killer.id in players && players[killer.id] == killer
      requires victim.id in players && players[victim.id] == victim
      modifies killer`tally, killer`counters, victim`tally, victim`counters
      ensures Represents(CreditedByKill(stats, killer.id, victim.id, teamkill, weapon))
    {
      ghost var k, v := killer.id, victim.id;
      AddKill(stats, killer, teamkill, weapon);
      ghost var s := stats[k := WithKill(stats[k], teamkill, weapon)];
      AddDeath(s, victim, teamkill, weapon);
      s := s[v := WithDeath(s[v], teamkill, weapon)];
      AddVictimName(s, killer, victim.name);
      s := s[k := WithVictimName(s[k], s[v].name)];
      AddKillerName(s, victim, killer.name);
    }

    method TouchBoth(ghost stats: map<string, Stat>, killer: Player, victim: Player, time: int)
      requires Represents(stats)
      requires killer.id in players && players[killer.id] == killer && victim.id in players
      requires players[victim.id] == victim
      requires Touches(stats, killer.id, time) && Touches(stats, victim.id, time)
      modifies killer`first, killer`last, victim`first, victim`last
      ensures Represents(stats)
    {
      Touch(stats, killer, time);
      Touch(stats, victim, time);
    }

    /** One kill row; killer and victim may be the same record. */
    method ApplyKill(ghost stats: map<string, Stat>, e: Event, key: Keying)
      requires Represents(stats) && TeamsMatch(stats, teams) && e.kind.Kill?
      modifies this, records
      ensures Represents(AfterKill(stats, e, key)) && TeamsMatch(AfterKill(stats, e, key), teams)
      ensures order == Listed(Listed(old(order), stats.Keys, Killer(e, key)), stats.Keys + {Killer(e, key)},
                              Victim(e, key))
      ensures forall r :: r in records ==> r in old(records) || fresh(r)
    {
      assert forall p :: p in stats ==> stats[p].id == p;
      ghost var after := AfterKill(stats, e, key);
      var killer, victim := EnterKill(stats, e, key);
      assert TeamsMatch(after, teams) by { TeamsAfterKill(stats, e, key, teams); }
      CreditKill(EnteredByKill(stats, e, key), killer, victim, IsTeamkill(e), Or(e.payload.weapon, "Unknown"));
      assert Represents(after) by { CreditedIsAfterKill(stats, e, key); }
      assert Touches(after, killer.id, e.time)
        && Touches(after, victim.id, e.time) by { KillIsComplete(stats, e, key); }
      TouchBoth(after, killer, victim, e.time);
    }

    method SetTeam(ghost stats: map<string, Stat>, player: Player, team: string, time: int)
      requires Represents(stats) && player.id in players && players[player.id] == player
      requires stats[player.id] == Noted(stats[player.id], "", team, time)
      modifies player, this`teams
      ensures Represents(stats) && teams == if team != "" then old(teams)[player.id := team] else old(teams)
    {
      if team != "" {
        player.team := team;
        teams := teams[player.id := team];
      }
    }

    /** A connect, disconnect, chat or team-switch row. */
    method ApplyOther(ghost stats: map<string, Stat>, e: Event, key: Keying)
      requires Represents(stats) && TeamsMatch(stats, teams) && !e.kind.Kill? && !IsSkipped(e)
      modifies this, records
      ensures Represents(AfterOther(stats, e, key)) && TeamsMatch(AfterOther(stats, e, key), teams)
      ensures order == Listed(old(order), stats.Keys, Subject(e, key))
      ensures forall r :: r in records ==> r in old(records) || fresh(r)
    {
      var p := Subject(e, key);
      var team := Or(Or(e.payload.toTeam, e.payload.chatTeam), Known(teams, p));
      OtherIsNoted(stats, e, key, team, teams);
      var player := EnsurePlayer(stats, p, e.payload.playerName, team, e.time);
      SetTeam(AfterOther(stats, e, key), player, team, e.time);
      Touch(AfterOther(stats, e, key), player, e.time);
    }

    /** Any row: the records stay those of the rows read so far. */
    method ReadRow(ghost rows: seq<Event>, ghost stats: map<string, Stat>, e: Event, key: Keying)
      returns (ghost after: map<string, Stat>)
      requires Represents(stats) && TeamsMatch(stats, teams)
      modifies this, records
      ensures Represents(after) && TeamsMatch(after, teams)
      ensures forall r :: r in records ==> r in old(records) || fresh(r)
      ensures after == AfterRow(stats, e, key) && order == ListedAfterRow(old(order), stats.Keys, e, key)
    {
      after := AfterRow(stats, e, key);
      if e.kind.Kill? {
        ApplyKill(stats, e, key);
      } else if !IsSkipped(e) {
        ApplyOther(stats, e, key);
      }
    }

    /** The statistics rows, in order of first appearance. */
    method Export(ghost stats: map<string, Stat>) returns (exported: seq<Stat>)
      requires Represents(stats) && forall p :: p in order ==> p in stats
      ensures |exported| == |order| && forall i :: 0 <= i < |order| ==> exported[i] == stats[order[i]]
    {
      exported := [];
      for i := 0 to |order|
        invariant |exported| == i && forall j :: 0 <= j < i ==> exported[j] == stats[order[j]]
      {
        assert order[i] in order;
        var player := players[order[i]];
        exported := exported
          + [Stat(player.id, player.name, player.team, player.tally, player.counters, player.first, player.last)];
      }
    }
  }

  // ---------- The steps compose ----------

  // The records once a kill row has refreshed names, teams and times.
  function EnteredByKill(stats: map<string, Stat>, e: Event, key: Keying): map<string, Stat> {
    var k, v := Killer(e, key), Victim(e, key);
    stats[k := Entered(Found(stats, k, e.time), e, k, key)][v := Entered(Found(stats, v, e.time), e, v, key)]
  }

  function Entered(r: Stat, e: Event, p: string, key: Keying): Stat {
    var isKiller, isVictim := Killer(e, key) == p, Victim(e, key) == p;
    var once := if isKiller then Noted(r, e.payload.killerName, Or(e.payload.killerTeam, r.team), e.time) else r;
    if isVictim then Noted(once, e.payload.victimName, Or(e.payload.victimTeam, r.team), e.time) else once
  }

  function WithKill(r: Stat, teamkill: bool, weapon: string): Stat {
    r.(tally := NextTally(r.tally, true, false, teamkill),
       counters := r.counters.(weapons := Bump(r.counters.weapons, weapon)))
  }

  function WithDeath(r: Stat, teamkill: bool, weapon: string): Stat {
    r.(tally := NextTally(r.tally, false, true, teamkill),
       counters := r.counters.(deathByWeapons := Bump(r.counters.deathByWeapons, weapon)))
  }

  function WithVictimName(r: Stat, name: string): Stat {
    r.(counters := r.counters.(mostKilled := Bump(r.counters.mostKilled, name)))
  }

  function WithKillerName(r: Stat, name: string): Stat {
    r.(counters := r.counters.(deathBy := Bump(r.counters.deathBy, name)))
  }

  function CreditedByKill(stats: map<string, Stat>, k: string, v: string, teamkill: bool,
                          weapon: string): map<string, Stat>
    requires k in stats && v in stats
  {
    var s1 := stats[k := WithKill(stats[k], teamkill, weapon)];
    var s2 := s1[v := WithDeath(s1[v], teamkill, weapon)];
    var s3 := s2[k := WithVictimName(s2[k], s2[v].name)];
    s3[v := WithKillerName(s3[v], s3[k].name)]
  }

  lemma EnteredInTwoSteps(stats: map<string, Stat>, e: Event, key: Keying)
    ensures var k, v := Killer(e, key), Victim(e, key);
      var killerTeam, victimTeam :=
        Or(e.payload.killerTeam, Found(stats, k, e.time).team), Or(e.payload.victimTeam, Found(stats, v, e.time).team);
      var once := stats[k := Noted(Found(stats, k, e.time), e.payload.killerName, killerTeam, e.time)];
      once[v := Noted(Found(once, v, e.time), e.payload.victimName, victimTeam, e.time)] == EnteredByKill(stats, e, key)
  {
  }

  lemma CachedTeams(stats: map<string, Stat>, e: Event, key: Keying, teams: map<string, string>)
    requires TeamsMatch(stats, teams)
    ensures var k, v, s := Killer(e, key), Victim(e, key), EnteredByKill(stats, e, key);
      TeamsMatch(s, teams[k := Or(e.payload.killerTeam, s[k].team)][v := Or(e.payload.victimTeam, s[v].team)])
  {
  }

  lemma OtherIsNoted(stats: map<string, Stat>, e: Event, key: Keying, team: string, teams: map<string, string>)
    requires !e.kind.Kill? && !IsSkipped(e) && TeamsMatch(stats, teams)
    requires forall p :: p in stats ==> stats[p].id == p
    requires team == Or(Or(e.payload.toTeam, e.payload.chatTeam), Known(teams, Subject(e, key)))
    ensures var p, s := Subject(e, key), AfterOther(stats, e, key);
      && s == stats[p := Noted(Found(stats, p, e.time), e.payload.playerName, team, e.time)]
      && s[p] == Noted(s[p], "", team, e.time) && s[p := Noted(s[p], "", "", e.time)] == s
      && TeamsMatch(s, if team != "" then teams[p := team] else teams)
  {
  }

  lemma CreditedRecord(r: Stat, e: Event, p: string, key: Keying, victimName: string, killerName: string)
    requires r.id == p && e.kind.Kill? && (Killer(e, key) == p || Victim(e, key) == p)
    ensures var next := NextRecord(r, e, p, key, victimName, killerName);
      && next == Credited(Entered(r, e, p, key), Killer(e, key) == p, Victim(e, key) == p, IsTeamkill(e), Weapon(e),
                          victimName, killerName)
      && Noted(next, "", "", e.time) == next && next.team == Entered(r, e, p, key).team
  {
  }

  lemma CreditsOfKill(stats: map<string, Stat>, k: string, v: string, teamkill: bool, weapon: string)
    requires k in stats && v in stats
    ensures var s := CreditedByKill(stats, k, v, teamkill, weapon);
      && s.Keys == stats.Keys
      && (forall p :: p in stats ==>
        s[p] == Credited(stats[p], p == k, p == v, teamkill, weapon, stats[v].name, stats[k].name))
  {
  }

  function Credited(r: Stat, kills: bool, dies: bool, teamkill: bool, weapon: string, victimName: string,
                    killerName: string): Stat {
    r.(tally := NextTally(r.tally, kills, dies, teamkill),
       counters := NextCounters(r.counters, kills, dies, weapon, victimName, killerName))
  }

  lemma CreditedIsAfterKill(stats: map<string, Stat>, e: Event, key: Keying)
    requires e.kind.Kill? && forall p :: p in stats ==> stats[p].id == p
    ensures CreditedByKill(EnteredByKill(stats, e, key), Killer(e, key), Victim(e, key), IsTeamkill(e), Weapon(e))
      == AfterKill(stats, e, key)
  {
    var k, v, entered := Killer(e, key), Victim(e, key), EnteredByKill(stats, e, key);
    var credited, after := CreditedByKill(entered, k, v, IsTeamkill(e), Weapon(e)), AfterKill(stats, e, key);
    CreditsOfKill(entered, k, v, IsTeamkill(e), Weapon(e));
    forall p | p in credited ensures p in after && credited[p] == after[p] {
      CreditedOneRecord(stats, e, p, key);
    }
    AfterKillKeys(stats, e, key);
    SameMaps(credited, after);
  }

  lemma AfterKillKeys(stats: map<string, Stat>, e: Event, key: Keying)
    requires e.kind.Kill?
    ensures AfterKill(stats, e, key).Keys == EnteredByKill(stats, e, key).Keys
  {
  }

  lemma SameMaps(a: map<string, Stat>, b: map<string, Stat>)
    requires a.Keys == b.Keys && forall p :: p in a ==> p in b && a[p] == b[p]
    ensures a == b
  {
  }

  lemma EnteredName(r: Stat, e: Event, p: string, key: Keying)
    requires Killer(e, key) == p || Victim(e, key) == p
    requires e.kind.Kill?
    ensures Entered(r, e, p, key).name == NameAfter(r.name, e, p, key)
  {
  }

  lemma CreditedOneRecord(stats: map<string, Stat>, e: Event, p: string, key: Keying)
    requires e.kind.Kill? && forall p :: p in stats ==> stats[p].id == p
    requires p in EnteredByKill(stats, e, key)
    ensures var k, v, entered := Killer(e, key), Victim(e, key), EnteredByKill(stats, e, key);
      p in AfterKill(stats, e, key)
      && AfterKill(stats, e, key)[p]
        == Credited(entered[p], p == k, p == v, IsTeamkill(e), Weapon(e), entered[v].name, entered[k].name)
  {
    var k, v := Killer(e, key), Victim(e, key);
    EnteredName(Found(stats, k, e.time), e, k, key);
    EnteredName(Found(stats, v, e.time), e, v, key);
    if p == k || p == v {
      var entered := EnteredByKill(stats, e, key);
      assert entered[p] == Entered(Found(stats, p, e.time), e, p, key);
      CreditedRecord(Found(stats, p, e.time), e, p, key, entered[v].name, entered[k].name);
    }
  }

  lemma KillIsComplete(stats: map<string, Stat>, e: Event, key: Keying)
    requires e.kind.Kill? && forall p :: p in stats ==> stats[p].id == p
    ensures Touches(AfterKill(stats, e, key), Killer(e, key), e.time)
      && Touches(AfterKill(stats, e, key), Victim(e, key), e.time)
  {
  }

  // The record already reaches to `time`, so touching it again changes nothing.
  ghost predicate Touches(stats: map<string, Stat>, p: string, time: int) {
    p in stats && stats[p] == Noted(stats[p], "", "", time)
  }

  lemma TeamsAfterKill(stats: map<string, Stat>, e: Event, key: Keying, teams: map<string, string>)
    requires e.kind.Kill? && TeamsMatch(EnteredByKill(stats, e, key), teams)
      && forall p :: p in stats ==> stats[p].id == p
    ensures TeamsMatch(AfterKill(stats, e, key), teams)
  {
    var entered, after := EnteredByKill(stats, e, key), AfterKill(stats, e, key);
    forall p ensures p in after <==> p in entered
      ensures p in after ==> after[p].team == entered[p].team
    {
      if p == Killer(e, key) || p == Victim(e, key) {
        CreditedRecord(Found(stats, p, e.time), e, p, key, "", "");
      }
    }
  }

  // ---------- The whole match ----------

  function AfterRow(stats: map<string, Stat>, e: Event, key: Keying): map<string, Stat> {
    if e.kind.Kill? then AfterKill(stats, e, key)
    else if IsSkipped(e) then stats
    else AfterOther(stats, e, key)
  }

  function ListedAfterRow(order: seq<string>, known: set<string>, e: Event, key: Keying): seq<string> {
    if e.kind.Kill? then Listed(Listed(order, known, Killer(e, key)), known + {Killer(e, key)}, Victim(e, key))
    else if IsSkipped(e) then order
    else Listed(order, known, Subject(e, key))
  }

  // The shared dictionaries say what following each player alone says.
  ghost predicate Explained(stats: map<string, Stat>, order: seq<string>, rows: seq<Event>, key: Keying) {
    && order == Appearance(rows, key)
    && (forall p :: p in stats <==> SeenAt(rows, p, key) != [])
    && (forall p :: p in stats ==> stats[p] == RecordOf(rows, p, key))
  }

  lemma FoundIsBefore(stats: map<string, Stat>, order: seq<string>, rows: seq<Event>, e: Event, p: string, key: Keying)
    requires Explained(stats, order, rows, key)
    ensures Found(stats, p, e.time) == Before(rows, e, p, key)
    ensures NameOf(rows + [e], p, key) == NameAfter(Found(stats, p, e.time).name, e, p, key)
  {
    assert (rows + [e])[..|rows|] == rows;
    if p !in stats {
      UnseenRecord(rows, p, key);
    }
  }

  lemma AfterRowRecord(stats: map<string, Stat>, order: seq<string>, rows: seq<Event>, e: Event, p: string, key: Keying)
    requires Explained(stats, order, rows, key)
    ensures p in AfterRow(stats, e, key) <==> SeenAt(rows + [e], p, key) != []
    ensures p in AfterRow(stats, e, key) ==> AfterRow(stats, e, key)[p] == RecordOf(rows + [e], p, key)
  {
    RecordAfterRow(rows, e, p, key);
    FoundIsBefore(stats, order, rows, e, p, key);
    if e.kind.Kill? {
      AfterKillAt(stats, e, p, key);
      FoundIsBefore(stats, order, rows, e, Killer(e, key), key);
      FoundIsBefore(stats, order, rows, e, Victim(e, key), key);
    } else if !IsSkipped(e) {
      AfterOtherAt(stats, e, p, key);
    }
  }

  lemma AfterKillAt(stats: map<string, Stat>, e: Event, p: string, key: Keying)
    requires e.kind.Kill?
    ensures var after, k, v := AfterKill(stats, e, key), Killer(e, key), Victim(e, key);
      && (p in after <==> p == k || p == v || p in stats)
      && (p == k || p == v ==> after[p] == NextRecord(Found(stats, p, e.time), e, p, key,
           NameAfter(Found(stats, v, e.time).name, e, v, key), NameAfter(Found(stats, k, e.time).name, e, k, key)))
      && (p != k && p != v && p in stats ==> after[p] == stats[p])
  {
  }

  lemma AfterOtherAt(stats: map<string, Stat>, e: Event, p: string, key: Keying)
    requires !e.kind.Kill?
    ensures var after, subject := AfterOther(stats, e, key), Subject(e, key);
      && (p in after <==> p == subject || p in stats)
      && (p == subject ==> after[p] == NextRecord(Found(stats, p, e.time), e, p, key, "", ""))
      && (p != subject && p in stats ==> after[p] == stats[p])
  {
  }

  lemma ListedIsAppearance(rows: seq<Event>, known: set<string>, e: Event, key: Keying)
    requires forall p :: p in known <==> p in Appearance(rows, key)
    ensures ListedAfterRow(Appearance(rows, key), known, e, key) == Appearance(rows + [e], key)
  {
    assert (rows + [e])[..|rows|] == rows;
  }

  lemma RowKeepsExplained(stats: map<string, Stat>, order: seq<string>, rows: seq<Event>, e: Event, key: Keying)
    requires Explained(stats, order, rows, key)
    ensures Explained(AfterRow(stats, e, key), ListedAfterRow(order, stats.Keys, e, key), rows + [e], key)
  {
    AppearanceListsMentioned(rows, key);
    ListedIsAppearance(rows, stats.Keys, e, key);
    forall p
      ensures p in AfterRow(stats, e, key) <==> SeenAt(rows + [e], p, key) != []
      ensures p in AfterRow(stats, e, key) ==> AfterRow(stats, e, key)[p] == RecordOf(rows + [e], p, key)
    {
      AfterRowRecord(stats, order, rows, e, p, key);
    }
  }

  method ReadNextRow(ledger: Ledger, ghost rows: seq<Event>, ghost stats: map<string, Stat>, e: Event, key: Keying)
    returns (ghost after: map<string, Stat>)
    requires ledger.Represents(stats) && TeamsMatch(stats, ledger.teams) && Explained(stats, ledger.order, rows, key)
    modifies ledger, ledger.records
    ensures ledger.Represents(after) && TeamsMatch(after, ledger.teams)
    ensures forall r :: r in ledger.records ==> r in old(ledger.records) || fresh(r)
    ensures Explained(after, ledger.order, rows + [e], key)
  {
    RowKeepsExplained(stats, ledger.order, rows, e, key);
    after := ledger.ReadRow(rows, stats, e, key);
  }

  // The loop over the rows, on a new ledger.
  method ReadRows(ledger: Ledger, rows: seq<Event>, key: Keying) returns (ghost now: map<string, Stat>)
    requires ledger.Represents(map[]) && TeamsMatch(map[], ledger.teams) && Explained(map[], ledger.order, [], key)
    modifies ledger, ledger.records
    ensures ledger.Represents(now) && Explained(now, ledger.order, rows, key)
  {
    now := map[];
    for i := 0 to |rows|
      invariant ledger.Represents(now) && TeamsMatch(now, ledger.teams)
      invariant forall r :: r in ledger.records ==> r in old(ledger.records) || fresh(r)
      invariant Explained(now, ledger.order, rows[..i], key)
    {
      assert rows[..i + 1] == rows[..i] + [rows[i]];
      now := ReadNextRow(ledger, rows[..i], now, rows[i], key);
    }
    assert rows[..|rows|] == rows;
  }

  lemma ExportIsStats(stats: map<string, Stat>, order: seq<string>, rows: seq<Event>, key: Keying, exported: seq<Stat>)
    requires Explained(stats, order, rows, key) && |exported| == |order|
    requires forall i :: 0 <= i < |order| ==> order[i] in stats && exported[i] == stats[order[i]]
    ensures IsStatsOf(exported, rows, key)
  {
  }

  lemma ListedAreKnown(stats: map<string, Stat>, order: seq<string>, rows: seq<Event>, key: Keying)
    requires Explained(stats, order, rows, key)
    ensures forall p :: p in order ==> p in stats
  {
    AppearanceListsMentioned(rows, key);
  }

  /** The player statistics of one match, from the rows its range query returned. */
  method DerivePlayerStats(rows: seq<Event>, key: Keying) returns (stats: seq<Stat>)
    ensures IsStatsOf(stats, rows, key)
  {
    var ledger := new Ledger();
    ghost var now := ReadRows(ledger, rows, key);
    ListedAreKnown(now, ledger.order, rows, key);
    stats := ledger.Export(now);
    ExportIsStats(now, ledger.order, rows, key, stats);
  }

  ghost predicate IsStatsOf(stats: seq<Stat>, rows: seq<Event>, key: Keying) {
    var order := Appearance(rows, key);
    && |stats| == |order|
    && forall i :: 0 <= i < |order| ==> SeenAt(rows, order[i], key) != [] && stats[i] == RecordOf(rows, order[i], key)
  }
}
