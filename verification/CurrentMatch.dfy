/**
 The live roster of the current match: players seen under a name or an id in the AdminLog feed,
 folded together when the id of a name becomes known.
 */
module CurrentMatch {
  import opened Options
  import opened TextOrder
  import opened Picking

  // The text operations of the feed, which the roster never looks into.
  datatype Words = Words(strip: string -> string, normalized: string -> string, knownTeam: string -> bool)

  datatype Stat = Kills | Deaths | Teamkills | DeathsByTeamkill

  // The dictionary keys "id:<p>" and "name:<n>".
  datatype Key = IdKey(id: string) | NameKey(name: string)

  // What is known of a player besides the counters; "" stands for a missing value.
  datatype Profile =
    Profile(id: string, name: string, team: string, connected: Option<bool>, lastSeen: string, sources: set<string>)

  // A player as sets of event keys: the specification of the counted form.
  datatype View = View(profile: Profile, stats: map<Stat, set<string>>, weapons: map<string, set<string>>)

  // One mention of a player in a row.
  datatype Sighting =
    Sighting(name: string, id: string, team: string, stamp: string, connected: Option<bool>, source: string)

  datatype FeedRow =
    | KillRow(rowId: string, serverTime: string, stamp: string, killerName: string, killerId: string,
              killerTeam: string,
              victimName: string, victimId: string, victimTeam: string, weapon: string)
    | TeamSwitchRow(stamp: string, name: string, id: string, toTeam: string)
    | ConnectedRow(stamp: string, name: string, id: string)
    | DisconnectedRow(stamp: string, name: string, id: string)
    | ChatRow(stamp: string, name: string, id: string, chatTeam: string)
    | MessageRow(stamp: string, name: string, id: string, chatTeam: string)
    | OtherRow

  // The player a row mentions, when it is not a kill.
  function SightingOf(row: FeedRow): Option<Sighting> {
    match row
    case TeamSwitchRow(stamp, name, id, team) => Some(Sighting(name, id, team, stamp, None, "team_switch"))
    case ConnectedRow(stamp, name, id) => Some(Sighting(name, id, "", stamp, Some(true), "connected"))
    case DisconnectedRow(stamp, name, id) => Some(Sighting(name, id, "", stamp, Some(false), "disconnected"))
    case ChatRow(stamp, name, id, team) => Some(Sighting(name, id, team, stamp, None, "chat"))
    case MessageRow(stamp, name, id, team) => Some(Sighting(name, id, team, stamp, None, "message"))
    case _ => None
  }

  // ---------- One player ----------

  function NewView(id: string, name: string): View {
    View(Profile(id, name, "", None, "", {}), map[], map[])
  }

  function KeysOf<K>(m: map<K, set<string>>, k: K): set<string> {
    if k in m then m[k] else {}
  }

  function WithStat(v: View, stat: Stat, key: string): View {
    v.(stats := v.stats[stat := KeysOf(v.stats, stat) + {key}])
  }

  function WithWeapon(v: View, weapon: string, key: string): View {
    v.(weapons := v.weapons[weapon := KeysOf(v.weapons, weapon) + {key}])
  }

  function Unite<K>(a: map<K, set<string>>, b: map<K, set<string>>): map<K, set<string>> {
    map k | k in a.Keys + b.Keys :: KeysOf(a, k) + KeysOf(b, k)
  }

  // One entry of Unite.
  function UnitedAt<K>(a: map<K, set<string>>, b: map<K, set<string>>, k: K): map<K, set<string>> {
    if k in b then a[k := KeysOf(a, k) + b[k]] else a
  }

  function BetterName(w: Words, current: string, offered: string): string {
    if offered != "" && (w.strip(current) == "" || |offered| >= |w.strip(current)|) then offered else current
  }

  predicate Later(a: string, b: string) {
    a != "" && (b == "" || !TextLe(a, b))
  }

  function MergedProfile(w: Words, to: Profile, from: Profile): Profile {
    var newer := Later(w.strip(from.lastSeen), w.strip(to.lastSeen));
    Profile(
      if to.id == "" then from.id else to.id,
      BetterName(w, to.name, w.strip(from.name)),
      if (w.knownTeam(from.team) || !w.knownTeam(to.team)) && w.strip(from.team) != "" then from.team else to.team,
      if (newer || to.connected.None?) && from.connected.Some? then from.connected else to.connected,
      if newer then w.strip(from.lastSeen) else to.lastSeen,
      to.sources + from.sources)
  }

  // Folding one player into another is the union of their key sets.
  function Merged(w: Words, to: View, from: View): View {
    View(MergedProfile(w, to.profile, from.profile), Unite(to.stats, from.stats), Unite(to.weapons, from.weapons))
  }

  function Touched(w: Words, p: Profile, s: Sighting): Profile {
    var id, name, team, stamp := w.strip(s.id), w.strip(s.name), w.strip(s.team), w.strip(s.stamp);
    Profile(
      if id != "" then id else p.id,
      BetterName(w, p.name, name),
      if team != "" && (w.knownTeam(team) || !w.knownTeam(p.team)) then team else p.team,
      if s.connected.Some? then s.connected else p.connected,
      if Later(stamp, p.lastSeen) then stamp else p.lastSeen,
      p.sources + {s.source})
  }

  lemma CountUnion(a: set<string>, b: set<string>)
    ensures |a + b| == |a| + |b| - |a * b| && |a * b| <= |b|
  {
    assert b == (a * b) + (b - a);
  }

  function CountOf<K>(counts: map<K, nat>, k: K): nat {
    if k in counts then counts[k] else 0
  }

  // Every counter is the number of keys beside it; a counter at zero is a missing one.
  ghost predicate Counted<K(!new)>(counts: map<K, nat>, keys: map<K, set<string>>) {
    counts.Keys == keys.Keys && forall k :: k in counts ==> 0 < counts[k] == |keys[k]|
  }

  lemma CountedUpdate<K(!new)>(counts: map<K, nat>, keys: map<K, set<string>>, k: K, now: set<string>)
    requires Counted(counts, keys) && now != {}
    ensures Counted(counts[k := |now|], keys[k := now])
  {
  }

  lemma UpdateSame<K(!new), V>(m: map<K, V>, k: K)
    requires k in m
    ensures m[k := m[k]] == m
  {
  }

  /** One entry of the players dictionary, with counters beside the key sets that justify them. */
  class CurrentPlayer {
    var profile: Profile
    var counts: map<Stat, nat>
    var statKeys: map<Stat, set<string>>
    var weaponCounts: map<string, nat>
    var weaponKeys: map<string, set<string>>

    // Every counter is the number of distinct events behind it.
    ghost predicate Consistent()
      reads this
    {
      Counted(counts, statKeys) && Counted(weaponCounts, weaponKeys)
    }

    ghost function Seen(): View
      reads this
    {
      View(profile, statKeys, weaponKeys)
    }

    ghost predicate Holds(v: View)
      reads this
    {
      Consistent() && Seen() == v
    }

    constructor (id: string, name: string)
      ensures Consistent() && Seen() == NewView(id, name)
    {
      profile := Profile(id, name, "", None, "", {});
      counts, statKeys, weaponCounts, weaponKeys := map[], map[], map[], map[];
    }

    method AddStat(stat: Stat, key: string)
      requires Consistent()
      modifies this`counts, this`statKeys
      ensures Consistent() && Seen() == WithStat(old(Seen()), stat, key)
    {
      var keys := KeysOf(statKeys, stat);
      if key in keys {
        assert keys + {key} == keys;
        UpdateSame(statKeys, stat);
      } else {
        CountedUpdate(counts, statKeys, stat, keys + {key});
        counts := counts[stat := CountOf(counts, stat) + 1];
        statKeys := statKeys[stat := keys + {key}];
      }
    }

    method AddWeapon(weapon: string, key: string)
      requires Consistent()
      modifies this`weaponCounts, this`weaponKeys
      ensures Consistent() && Seen() == WithWeapon(old(Seen()), weapon, key)
    {
      var keys := KeysOf(weaponKeys, weapon);
      if key in keys {
        assert keys + {key} == keys;
        UpdateSame(weaponKeys, weapon);
      } else {
        CountedUpdate(weaponCounts, weaponKeys, weapon, keys + {key});
        weaponCounts := weaponCounts[weapon := CountOf(weaponCounts, weapon) + 1];
        weaponKeys := weaponKeys[weapon := keys + {key}];
      }
    }

    method AddKill(weapon: string, teamkill: bool, key: string)
      requires Consistent()
      modifies this`counts, this`statKeys, this`weaponCounts, this`weaponKeys
      ensures Consistent()
        && Seen() == WithStat(WithWeapon(old(Seen()), weapon, key), if teamkill then Teamkills else Kills, key)
    {
      AddWeapon(weapon, key);
      AddStat(if teamkill then Teamkills else Kills, key);
    }

    method AddDeath(teamkill: bool, key: string)
      requires Consistent()
      modifies this`counts, this`statKeys
      ensures Consistent()
      ensures var died := WithStat(old(Seen()), Deaths, key);
        Seen() == if teamkill then WithStat(died, DeathsByTeamkill, key) else died
    {
      AddStat(Deaths, key);
      if teamkill {
        AddStat(DeathsByTeamkill, key);
      }
    }

    method Touch(w: Words, s: Sighting)
      modifies this`profile
      ensures profile == Touched(w, old(profile), s)
    {
      var id, name, team, stamp := w.strip(s.id), w.strip(s.name), w.strip(s.team), w.strip(s.stamp);
      if id != "" {
        profile := profile.(id := id);
      }
      if name != "" {
        var current := w.strip(profile.name);
        if current == "" || |name| >= |current| {
          profile := profile.(name := name);
        }
      }
      if team != "" && (w.knownTeam(team) || !w.knownTeam(profile.team)) {
        profile := profile.(team := team);
      }
      if s.connected.Some? {
        profile := profile.(connected := s.connected);
      }
      if stamp != "" && (profile.lastSeen == "" || !TextLe(stamp, profile.lastSeen)) {
        profile := profile.(lastSeen := stamp);
      }
      profile := profile.(sources := profile.sources + {s.source});
    }

    method MergeStat(source: CurrentPlayer, stat: Stat)
      requires source != this && Consistent() && source.Consistent()
      modifies this`counts, this`statKeys
      ensures Consistent() && statKeys == UnitedAt(old(statKeys), source.statKeys, stat)
    {
      var count := CountOf(source.counts, stat);
      if count != 0 {
        var mine, theirs := KeysOf(statKeys, stat), source.statKeys[stat];
        var overlap := |mine * theirs|;
        CountUnion(mine, theirs);
        CountedUpdate(counts, statKeys, stat, mine + theirs);
        counts := counts[stat := CountOf(counts, stat) + (if count > overlap then count - overlap else 0)];
        statKeys := statKeys[stat := mine + theirs];
      }
    }

    method MergeStats(source: CurrentPlayer)
      requires source != this && Consistent() && source.Consistent()
      modifies this`counts, this`statKeys
      ensures Consistent() && statKeys == Unite(old(statKeys), source.statKeys)
    {
      FourUnions(statKeys, source.statKeys);
      MergeStat(source, Kills);
      MergeStat(source, Deaths);
      MergeStat(source, Teamkills);
      MergeStat(source, DeathsByTeamkill);
    }

    method MergeWeapon(source: CurrentPlayer, weapon: string)
      requires source != this && Consistent() && source.Consistent() && weapon in source.weaponCounts
      modifies this`weaponCounts, this`weaponKeys
      ensures Consistent() && weaponKeys == UnitedAt(old(weaponKeys), source.weaponKeys, weapon)
    {
      var count := source.weaponCounts[weapon];
      var mine, theirs := KeysOf(weaponKeys, weapon), source.weaponKeys[weapon];
      var overlap := |mine * theirs|;
      CountUnion(mine, theirs);
      CountedUpdate(weaponCounts, weaponKeys, weapon, mine + theirs);
      weaponCounts := weaponCounts[weapon := CountOf(weaponCounts, weapon)
        + (if count > overlap then count - overlap else 0)];
      weaponKeys := weaponKeys[weapon := mine + theirs];
    }

    method MergeWeapons(source: CurrentPlayer)
      requires source != this && Consistent() && source.Consistent()
      modifies this`weaponCounts, this`weaponKeys
      ensures Consistent() && weaponKeys == Unite(old(weaponKeys), source.weaponKeys)
    {
      ghost var before, theirs := weaponKeys, source.weaponKeys;
      var rest := source.weaponCounts.Keys;
      ghost var done := {};
      while rest != {}
        invariant Consistent() && Splits(theirs.Keys, done, rest) && PartlyUnited(before, theirs, done, weaponKeys)
        decreases |rest|
      {
        var weapon := PickAny(rest);
        SplitsOneMore(theirs.Keys, done, rest, weapon);
        UniteOneMore(before, theirs, done, weaponKeys, weapon);
        MergeWeapon(source, weapon);
        rest, done := rest - {weapon}, done + {weapon};
      }
      NothingLeft(theirs.Keys, done);
      AllUnited(before, theirs, weaponKeys);
    }

    method MergeProfile(w: Words, source: Profile)
      modifies this`profile
      ensures profile == MergedProfile(w, old(profile), source)
    {
      if profile.id == "" && source.id != "" {
        profile := profile.(id := source.id);
      }
      var name := w.strip(source.name);
      if name != "" {
        var current := w.strip(profile.name);
        if current == "" || |name| >= |current| {
          profile := profile.(name := name);
        }
      }
      if w.knownTeam(source.team) || !w.knownTeam(profile.team) {
        if w.strip(source.team) != "" {
          profile := profile.(team := source.team);
        }
      }
      var theirs, mine := w.strip(source.lastSeen), w.strip(profile.lastSeen);
      if theirs != "" && (mine == "" || !TextLe(theirs, mine)) {
        profile := profile.(lastSeen := theirs);
        if source.connected.Some? {
          profile := profile.(connected := source.connected);
        }
      } else if profile.connected.None? && source.connected.Some? {
        profile := profile.(connected := source.connected);
      }
      profile := profile.(sources := profile.sources + source.sources);
    }

    /** _merge_current_match_player: every counter of the result counts the united key set. */
    method MergeFrom(w: Words, source: CurrentPlayer)
      requires source != this && Consistent() && source.Consistent()
      modifies this
      ensures Consistent() && Seen() == Merged(w, old(Seen()), source.Seen())
    {
      MergeProfile(w, source.profile);
      MergeStats(source);
      MergeWeapons(source);
    }
  }

  ghost predicate Splits(all: set<string>, done: set<string>, rest: set<string>) {
    forall w :: (w in all <==> w in done || w in rest) && !(w in done && w in rest)
  }

  lemma SplitsOneMore(all: set<string>, done: set<string>, rest: set<string>, w: string)
    requires Splits(all, done, rest) && w in rest
    ensures w in all && w !in done && |rest - {w}| < |rest| && Splits(all, done + {w}, rest - {w})
  {
  }

  lemma NothingLeft(all: set<string>, done: set<string>)
    requires Splits(all, done, {})
    ensures done == all
  {
  }

  // `c` is `a` with the keys of `b` for the weapons in `done` added.
  ghost predicate PartlyUnited(a: map<string, set<string>>, b: map<string, set<string>>, done: set<string>,
                               c: map<string, set<string>>) {
    && c.Keys == a.Keys + done
    && forall w :: w in c ==> c[w] == KeysOf(a, w) + (if w in done then KeysOf(b, w) else {})
  }

  lemma UniteOneMore(a: map<string, set<string>>, b: map<string, set<string>>, done: set<string>,
                     c: map<string, set<string>>, w: string)
    requires PartlyUnited(a, b, done, c) && w in b && w !in done
    ensures PartlyUnited(a, b, done + {w}, UnitedAt(c, b, w))
  {
  }

  lemma AllUnited(a: map<string, set<string>>, b: map<string, set<string>>, c: map<string, set<string>>)
    requires PartlyUnited(a, b, b.Keys, c)
    ensures c == Unite(a, b)
  {
  }

  lemma FourUnions(a: map<Stat, set<string>>, b: map<Stat, set<string>>)
    ensures UnitedAt(UnitedAt(UnitedAt(UnitedAt(a, b, Kills), b, Deaths), b, Teamkills), b, DeathsByTeamkill)
      == Unite(a, b)
  {
    var c1 := UnitedAt(a, b, Kills);
    var c2 := UnitedAt(c1, b, Deaths);
    var c3 := UnitedAt(c2, b, Teamkills);
    var c4 := UnitedAt(c3, b, DeathsByTeamkill);
    forall s: Stat ensures (s in c4 <==> s in Unite(a, b)) && KeysOf(c4, s) == KeysOf(Unite(a, b), s) {
      UnitedEntry(a, b, Kills, s);
      UnitedEntry(c1, b, Deaths, s);
      UnitedEntry(c2, b, Teamkills, s);
      UnitedEntry(c3, b, DeathsByTeamkill, s);
      assert s == Kills || s == Deaths || s == Teamkills || s == DeathsByTeamkill;
    }
    assert c4.Keys == Unite(a, b).Keys;
    assert forall s: Stat :: s in c4 ==> c4[s] == KeysOf(c4, s);
  }

  lemma UnitedEntry<K>(a: map<K, set<string>>, b: map<K, set<string>>, k: K, s: K)
    ensures s in UnitedAt(a, b, k) <==> s in a || (s == k && s in b)
    ensures KeysOf(UnitedAt(a, b, k), s) == if s == k then KeysOf(a, s) + KeysOf(b, s) else KeysOf(a, s)
  {
  }

  // ---------- The roster as a map of views ----------

  type Views = map<Key, View>

  function NameKeyOf(w: Words, name: string): Option<Key> {
    if w.normalized(name) == "" then None else Some(NameKey(w.normalized(name)))
  }

  // The id entries that now carry the normalized name `n`.
  function Matching(w: Words, views: Views, n: string): set<Key> {
    set k | k in views && k.IdKey? && w.normalized(views[k].profile.name) == n
  }

  function FoldName(w: Words, views: Views, named: Key, id: Key): Views
    requires named in views
  {
    FoldInto(w, views - {named}, id, views[named])
  }

  function FoldInto(w: Words, views: Views, id: Key, from: View): Views {
    views[id := if id in views then Merged(w, views[id], from) else from]
  }

  // The name entry of a player whose id is known is folded into the id entry.
  function AfterFold(w: Words, views: Views, id: string, name: string): Views {
    var named := NameKeyOf(w, name);
    if id != "" && named.Some? && named.value in views then FoldName(w, views, named.value, IdKey(id)) else views
  }

  ghost function KeyFor(w: Words, views: Views, id: string, name: string): Option<Key> {
    if id != "" then Some(IdKey(id))
    else if NameKeyOf(w, name).None? then None
    else
      var matching := Matching(w, views, w.normalized(name));
      if |matching| == 1 then var k :| k in matching; Some(k) else NameKeyOf(w, name)
  }

  // Where the entry at `k` is after the fold; nowhere when it was merged into another.
  function Follow(w: Words, views: Views, id: string, name: string, k: Key): Option<Key> {
    if id != "" && NameKeyOf(w, name) == Some(k) then
      if IdKey(id) in views then None else Some(IdKey(id))
    else Some(k)
  }

  ghost function KeyOfSighting(w: Words, views: Views, s: Sighting): Option<Key> {
    KeyFor(w, views, w.strip(s.id), w.strip(s.name))
  }

  function WithEntry(views: Views, k: Key, id: string, name: string): Views {
    if k in views then views else views[k := NewView(id, name)]
  }

  function TouchedAt(w: Words, views: Views, k: Key, s: Sighting): Views
    requires k in views
  {
    views[k := views[k].(profile := Touched(w, views[k].profile, s))]
  }

  ghost function Sighted(w: Words, views: Views, s: Sighting): Views {
    var id, name := w.strip(s.id), w.strip(s.name);
    var folded := AfterFold(w, views, id, name);
    match KeyFor(w, views, id, name)
    case None => folded
    case Some(k) => TouchedAt(w, WithEntry(folded, k, id, name), k, s)
  }

  // The parts of a kill that tell two reports of it apart, normalised.
  function EventParts(w: Words, row: FeedRow): seq<string>
    requires row.KillRow?
  {
    [w.normalized(row.serverTime), w.normalized(row.stamp), w.normalized(row.killerName), w.normalized(row.killerTeam),
     w.normalized(row.victimName), w.normalized(row.victimTeam), w.normalized(row.weapon)]
  }

  function Joined(parts: seq<string>): string {
    if parts == [] then "kill" else Joined(parts[..|parts| - 1]) + "|" + parts[|parts| - 1]
  }

  // _current_match_stat_event_key: two reports of one kill have one key; a row that says nothing stands for itself.
  function EventKey(w: Words, row: FeedRow): string
    requires row.KillRow?
  {
    if exists part <- EventParts(w, row) :: part != "" then Joined(EventParts(w, row)) else "row:" + row.rowId
  }

  predicate IsTeamkill(row: FeedRow)
    requires row.KillRow?
  {
    row.killerTeam != "" && row.killerTeam == row.victimTeam
  }

  function WeaponOf(w: Words, row: FeedRow): string
    requires row.KillRow?
  {
    if w.strip(row.weapon) == "" then "UNKNOWN" else w.strip(row.weapon)
  }

  function KillerSighting(row: FeedRow): Sighting
    requires row.KillRow?
  {
    Sighting(row.killerName, row.killerId, row.killerTeam, row.stamp, None, "kill")
  }

  function VictimSighting(row: FeedRow): Sighting
    requires row.KillRow?
  {
    Sighting(row.victimName, row.victimId, row.victimTeam, row.stamp, None, "kill")
  }

  function WithKill(w: Words, v: View, row: FeedRow): View
    requires row.KillRow?
  {
    WithStat(WithWeapon(v, WeaponOf(w, row), EventKey(w, row)), if IsTeamkill(row) then Teamkills
      else Kills, EventKey(w, row))
  }

  function WithDeath(w: Words, v: View, row: FeedRow): View
    requires row.KillRow?
  {
    var died := WithStat(v, Deaths, EventKey(w, row));
    if IsTeamkill(row) then WithStat(died, DeathsByTeamkill, EventKey(w, row)) else died
  }

  function KillAt(w: Words, views: Views, k: Option<Key>, row: FeedRow): Views
    requires row.KillRow?
  {
    if k.Some? && k.value in views then views[k.value := WithKill(w, views[k.value], row)] else views
  }

  function DeathAt(w: Words, views: Views, k: Option<Key>, row: FeedRow): Views
    requires row.KillRow?
  {
    if k.Some? && k.value in views then views[k.value := WithDeath(w, views[k.value], row)] else views
  }

  // Where the killer's entry is once the victim has been looked up.
  ghost function KillerKey(w: Words, views: Views, row: FeedRow): Option<Key>
    requires row.KillRow?
  {
    var k := KeyOfSighting(w, views, KillerSighting(row));
    if k.None? then None
    else Follow(w, Sighted(w, views, KillerSighting(row)), w.strip(row.victimId), w.strip(row.victimName), k.value)
  }

  ghost function BothSighted(w: Words, views: Views, row: FeedRow): Views
    requires row.KillRow?
  {
    Sighted(w, Sighted(w, views, KillerSighting(row)), VictimSighting(row))
  }

  ghost function VictimKey(w: Words, views: Views, row: FeedRow): Option<Key>
    requires row.KillRow?
  {
    KeyOfSighting(w, Sighted(w, views, KillerSighting(row)), VictimSighting(row))
  }

  ghost function AfterKill(w: Words, views: Views, row: FeedRow): Views
    requires row.KillRow?
  {
    DeathAt(w, KillAt(w, BothSighted(w, views, row), KillerKey(w, views, row), row), VictimKey(w, views, row), row)
  }

  ghost function AfterRow(w: Words, views: Views, row: FeedRow): Views {
    if row.KillRow? then AfterKill(w, views, row)
    else if SightingOf(row).Some? then Sighted(w, views, SightingOf(row).value)
    else views
  }

  ghost function AfterRows(w: Words, rows: seq<FeedRow>): Views {
    if rows == [] then map[] else AfterRow(w, AfterRows(w, rows[..|rows| - 1]), rows[|rows| - 1])
  }

  // ---------- The roster as the source keeps it ----------

  type Players = map<Key, CurrentPlayer>

  // Every entry has moved to where Follow says.
  ghost predicate Moved(w: Words, views: Views, id: string, name: string, before: Players, after: Players) {
    forall k :: k in before ==> IsAt(after, Follow(w, views, id, name, k), before[k])
  }

  ghost function AddIfNew(players: Players, k: Key, player: CurrentPlayer): Players {
    if k in players then players else players[k := player]
  }

  ghost predicate IsAt(players: Players, k: Option<Key>, player: CurrentPlayer) {
    if k.Some? then k.value in players && players[k.value] == player else player !in players.Values
  }

  lemma MovedByPop(w: Words, held: map<CurrentPlayer, View>, views: Views, id: string, name: string, before: Players,
                   after: Players)
    requires Shown(before, held, views) && id != "" && NameKeyOf(w, name).Some? && NameKeyOf(w, name).value in before
    requires var named := NameKeyOf(w, name).value;
      after == AddIfNew(before - {named}, IdKey(id), before[named])
    ensures Moved(w, views, id, name, before, after)
  {
  }

  lemma MovedByNothing(w: Words, held: map<CurrentPlayer, View>, views: Views, id: string, name: string,
                       players: Players)
    requires Shown(players, held, views)
    requires !(id != "" && NameKeyOf(w, name).Some? && NameKeyOf(w, name).value in players)
    ensures Moved(w, views, id, name, players, players)
  {
  }

  lemma StillMoved(w: Words, views: Views, id: string, name: string, before: Players, folded: Players, after: Players,
                   k: Key)
    requires Moved(w, views, id, name, before, folded) && k in after
    requires after == folded || (k !in folded && after == folded[k := after[k]] && after[k] !in before.Values)
    ensures Moved(w, views, id, name, before, after)
  {
    forall q | q in before ensures IsAt(after, Follow(w, views, id, name, q), before[q]) {
      assert before[q] in before.Values;
      assert IsAt(folded, Follow(w, views, id, name, q), before[q]);
    }
  }

  // `views` is what `players` shows when every entry holds what `held` says.
  ghost predicate Shown(players: Players, held: map<CurrentPlayer, View>, views: Views) {
    && players.Keys == views.Keys
    && (forall k :: k in players ==> players[k] in held && held[players[k]] == views[k])
    && (forall j, k :: j in players && k in players && players[j] == players[k] ==> j == k)
  }

  lemma ShownAfterNew(players: Players, held: map<CurrentPlayer, View>, views: Views, k: Key, player: CurrentPlayer,
                      now: View)
    requires Shown(players, held, views) && player !in held && k !in players
    ensures Shown(players[k := player], held[player := now], views[k := now])
    ensures player !in players.Values
  {
  }

  lemma ShownAfterChange(players: Players, held: map<CurrentPlayer, View>, views: Views, k: Key, now: View)
    requires Shown(players, held, views) && k in players
    ensures Shown(players, held[players[k] := now], views[k := now])
  {
  }

  lemma ShownAfterMove(players: Players, held: map<CurrentPlayer, View>, views: Views, k: Key, player: CurrentPlayer)
    requires Shown(players, held, views) && player in held && player !in players.Values && k !in players
    ensures Shown(players[k := player], held, views[k := held[player]])
  {
  }

  lemma ShownAfterOther(players: Players, held: map<CurrentPlayer, View>, views: Views, other: CurrentPlayer, now: View)
    requires Shown(players, held, views) && other !in players.Values
    ensures Shown(players, held[other := now], views)
  {
  }

  /** The players dictionary of one reading of the feed. */
  class CurrentRoster {
    var players: Players
    // What every entry made so far holds, also those merged away.
    ghost var held: map<CurrentPlayer, View>
    ghost var records: set<CurrentPlayer>
    ghost var views: Views

    ghost predicate Held()
      reads this`records, this`held, records
    {
      && held.Keys == records
      && (forall r :: r in records ==> r.Holds(held[r]))
    }

    ghost predicate Valid()
      reads this, records
    {
      Held() && Shown(players, held, views)
    }

    constructor ()
      ensures Valid() && views == map[] && records == {}
    {
      players, views, held, records := map[], map[], map[], {};
    }

    // An update of one entry that the heap already shows, in use or merged away.
    ghost method Record(target: CurrentPlayer, now: View, changed: Views)
      requires target in records && held.Keys == records && Shown(players, held[target := now], changed)
      requires forall r :: r in records ==> r.Holds(if r == target then now else held[r])
      modifies this`held, this`views
      ensures Valid() && held == old(held)[target := now] && views == changed
    {
      held, views := held[target := now], changed;
    }

    method MergeInto(w: Words, id: Key, source: CurrentPlayer)
      requires Valid() && id in players && source in records && source !in players.Values
      modifies this`held, this`views, records
      ensures Valid() && views == old(views)[id := Merged(w, old(views)[id], old(held)[source])]
    {
      ghost var now := Merged(w, views[id], held[source]);
      players[id].MergeFrom(w, source);
      ShownAfterChange(players, held, views, id, now);
      Record(players[id], now, views[id := now]);
    }

    method PopEntry(named: Key) returns (player: CurrentPlayer)
      requires Valid() && named in players
      modifies this`players, this`views
      ensures Valid() && player == old(players)[named] && player in records && held[player] == old(views)[named]
      ensures players == old(players) - {named} && views == old(views) - {named} && player !in players.Values
    {
      player := players[named];
      players := players - {named};
      views := views - {named};
    }

    method FoldEntry(w: Words, id: Key, player: CurrentPlayer)
      requires Valid() && player in records && player !in players.Values
      modifies this`players, this`views, this`held, records
      ensures Valid() && views == FoldInto(w, old(views), id, old(held)[player])
      ensures players == AddIfNew(old(players), id, player)
    {
      if id in players {
        MergeInto(w, id, player);
      } else {
        MoveTo(id, player);
      }
    }

    method MoveTo(id: Key, player: CurrentPlayer)
      requires Valid() && player in records && player !in players.Values && id !in players
      modifies this`players, this`views
      ensures Valid() && views == old(views)[id := held[player]] && players == old(players)[id := player]
    {
      ShownAfterMove(players, held, views, id, player);
      players, views := players[id := player], views[id := held[player]];
    }

    // players.pop(name_key), then a merge into the id entry or a move to its key.
    method PopName(w: Words, named: Key, id: Key)
      requires Valid() && named in players && named != id
      modifies this`players, this`views, this`held, records
      ensures Valid() && views == FoldName(w, old(views), named, id)
      ensures players == AddIfNew(old(players) - {named}, id, old(players)[named])
    {
      var player := PopEntry(named);
      FoldEntry(w, id, player);
    }

    /**
     _resolve_current_match_player_key: an id claims the entry of its name; a name finds the only id that
     carries it.
     */
    method ResolvePlayerKey(w: Words, id: string, name: string) returns (key: Option<Key>)
      requires Valid()
      modifies this`players, this`views, this`held, records
      ensures Valid() && views == AfterFold(w, old(views), id, name) && key == KeyFor(w, old(views), id, name)
      ensures Moved(w, old(views), id, name, old(players), players)
    {
      var named := NameKeyOf(w, name);
      if id != "" {
        key := Some(IdKey(id));
        if named.Some? && named.value in players {
          PopName(w, named.value, IdKey(id));
          MovedByPop(w, old(held), old(views), id, name, old(players), players);
        } else {
          MovedByNothing(w, held, views, id, name, players);
        }
      } else {
        MovedByNothing(w, held, views, id, name, players);
        key := FindByName(w, name);
      }
    }

    method FindByName(w: Words, name: string) returns (key: Option<Key>)
      requires Valid()
      ensures key == KeyFor(w, views, "", name)
    {
      key := NameKeyOf(w, name);
      if key.Some? {
        var matching := set k | k in players && k.IdKey? && w.normalized(players[k].profile.name) == w.normalized(name);
        assert forall k :: k in players ==> players[k].Seen() == views[k];
        assert matching == Matching(w, views, w.normalized(name));
        if |matching| == 1 {
          var only := PickAny(matching);
          OnlyOne(matching, only);
          key := Some(only);
        }
      }
    }

    // players.setdefault(key, ...)
    method EnsureEntry(k: Key, id: string, name: string)
      requires Valid()
      modifies this
      ensures Valid() && old(records) <= records && (forall r :: r in records ==> r in old(records) || fresh(r))
      ensures views == WithEntry(old(views), k, id, name)
      ensures k in players
        && (players == old(players)
          || (k !in old(players) && players == old(players)[k := players[k]] && players[k] !in old(records)))
    {
      if k !in players {
        var player := new CurrentPlayer(id, name);
        ShownAfterNew(players, held, views, k, player, NewView(id, name));
        held := held[player := NewView(id, name)];
        records := records + {player};
        players := players[k := player];
        views := views[k := NewView(id, name)];
      }
    }

    method TouchEntry(w: Words, k: Key, s: Sighting)
      requires Valid() && k in players
      modifies this`held, this`views, records
      ensures Valid() && views == TouchedAt(w, old(views), k, s)
    {
      ghost var now := views[k].(profile := Touched(w, views[k].profile, s));
      players[k].Touch(w, s);
      ShownAfterChange(players, held, views, k, now);
      Record(players[k], now, views[k := now]);
    }

    // Folding, adding and refreshing, once the key is known.
    method EnsureAt(w: Words, k: Key, id: string, name: string, s: Sighting)
      requires Valid()
      modifies this, records
      ensures Valid() && old(records) <= records && (forall r :: r in records ==> r in old(records) || fresh(r))
      ensures views == TouchedAt(w, WithEntry(old(views), k, id, name), k, s)
      ensures k in players
        && (players == old(players)
          || (k !in old(players) && players == old(players)[k := players[k]] && players[k] !in old(records)))
    {
      EnsureEntry(k, id, name);
      TouchEntry(w, k, s);
    }

    /** _ensure_current_match_player: the entry of a sighting, made, folded and refreshed as needed. */
    method EnsurePlayer(w: Words, s: Sighting) returns (player: CurrentPlayer?)
      requires Valid()
      modifies this, records
      ensures Valid() && old(records) <= records && (forall r :: r in records ==> r in old(records) || fresh(r))
      ensures views == Sighted(w, old(views), s)
      ensures Moved(w, old(views), w.strip(s.id), w.strip(s.name), old(players), players)
      ensures var k := KeyOfSighting(w, old(views), s);
        if k.None? then player == null else player != null && IsAt(players, k, player)
    {
      ghost var before, seen := players, views;
      var id, name := w.strip(s.id), w.strip(s.name);
      var key := ResolvePlayerKey(w, id, name);
      if key.None? {
        return null;
      }
      ghost var folded := players;
      EnsureAt(w, key.value, id, name, s);
      player := players[key.value];
      StillMoved(w, seen, id, name, before, folded, players, key.value);
    }

    // The killer's entry is credited even when the victim's sighting has just folded it away.
    method CreditKiller(w: Words, row: FeedRow, killer: CurrentPlayer, ghost k: Option<Key>)
      requires Valid() && row.KillRow? && killer in records && IsAt(players, k, killer)
      modifies this`held, this`views, killer
      ensures Valid() && views == KillAt(w, old(views), k, row)
    {
      ghost var now := WithKill(w, held[killer], row);
      if k.Some? {
        ShownAfterChange(players, held, views, k.value, now);
      } else {
        ShownAfterOther(players, held, views, killer, now);
      }
      killer.AddKill(WeaponOf(w, row), IsTeamkill(row), EventKey(w, row));
      Record(killer, now, KillAt(w, views, k, row));
    }

    method CreditVictim(w: Words, row: FeedRow, victim: CurrentPlayer, ghost k: Key)
      requires Valid() && row.KillRow? && victim in records && IsAt(players, Some(k), victim)
      modifies this`held, this`views, victim
      ensures Valid() && views == DeathAt(w, old(views), Some(k), row)
    {
      ghost var now := WithDeath(w, held[victim], row);
      ShownAfterChange(players, held, views, k, now);
      victim.AddDeath(IsTeamkill(row), EventKey(w, row));
      Record(victim, now, DeathAt(w, views, Some(k), row));
    }

    method EnsureBoth(w: Words, row: FeedRow) returns (killer: CurrentPlayer?, victim: CurrentPlayer?)
      requires Valid() && row.KillRow?
      modifies this, records
      ensures Valid() && old(records) <= records && (forall r :: r in records ==> r in old(records) || fresh(r))
        && views == BothSighted(w, old(views), row)
      ensures if killer == null then KillerKey(w, old(views), row).None?
        else killer in records && IsAt(players, KillerKey(w, old(views), row), killer)
      ensures if victim == null then VictimKey(w, old(views), row).None? else
        && victim in records && VictimKey(w, old(views), row).Some?
        && IsAt(players, VictimKey(w, old(views), row), victim)
    {
      killer := EnsurePlayer(w, KillerSighting(row));
      ghost var killerSeen, killerPlayers := views, players;
      victim := EnsurePlayer(w, VictimSighting(row));
      if killer != null {
        ghost var k := KeyOfSighting(w, old(views), KillerSighting(row)).value;
        assert IsAt(players, Follow(w, killerSeen, w.strip(row.victimId), w.strip(row.victimName), k),
                    killerPlayers[k]);
      }
    }

    method CreditBoth(w: Words, row: FeedRow, killer: CurrentPlayer?, victim: CurrentPlayer?, ghost k: Option<Key>,
                      ghost v: Option<Key>)
      requires Valid() && row.KillRow?
      requires if killer == null then k.None? else killer in records && IsAt(players, k, killer)
      requires if victim == null then v.None? else victim in records && v.Some? && IsAt(players, v, victim)
      modifies this`held, this`views, records
      ensures Valid() && views == DeathAt(w, KillAt(w, old(views), k, row), v, row)
    {
      if killer != null {
        CreditKiller(w, row, killer, k);
      }
      if victim != null {
        CreditVictim(w, row, victim, v.value);
      }
    }

    method ApplyKill(w: Words, row: FeedRow)
      requires Valid() && row.KillRow?
      modifies this, records
      ensures Valid() && old(records) <= records && (forall r :: r in records ==> r in old(records) || fresh(r))
        && views == AfterKill(w, old(views), row)
    {
      ghost var k, v := KillerKey(w, views, row), VictimKey(w, views, row);
      var killer, victim := EnsureBoth(w, row);
      CreditBoth(w, row, killer, victim, k, v);
    }

    method ApplyRow(w: Words, row: FeedRow)
      requires Valid()
      modifies this, records
      ensures Valid() && old(records) <= records && (forall r :: r in records ==> r in old(records) || fresh(r))
        && views == AfterRow(w, old(views), row)
    {
      var player: CurrentPlayer?;
      match row
      case KillRow(_, _, _, _, _, _, _, _, _, _) =>
        ApplyKill(w, row);
      case TeamSwitchRow(stamp, name, id, team) =>
        player := EnsurePlayer(w, Sighting(name, id, team, stamp, None, "team_switch"));
      case ConnectedRow(stamp, name, id) =>
        player := EnsurePlayer(w, Sighting(name, id, "", stamp, Some(true), "connected"));
      case DisconnectedRow(stamp, name, id) =>
        player := EnsurePlayer(w, Sighting(name, id, "", stamp, Some(false), "disconnected"));
      case ChatRow(stamp, name, id, team) =>
        player := EnsurePlayer(w, Sighting(name, id, team, stamp, None, "chat"));
      case MessageRow(stamp, name, id, team) =>
        player := EnsurePlayer(w, Sighting(name, id, team, stamp, None, "message"));
      case OtherRow =>
    }
  }

  lemma OnlyOne(s: set<Key>, k: Key)
    requires |s| == 1 && k in s
    ensures forall j :: j in s ==> j == k
  {
    assert |s - {k}| == 0;
  }

  /** The loop of list_current_match_player_stats. */
  method ListCurrentMatchPlayers(w: Words, rows: seq<FeedRow>) returns (roster: CurrentRoster)
    ensures roster.Valid() && fresh(roster) && fresh(roster.records) && roster.views == AfterRows(w, rows)
    ensures roster.players.Keys == AfterRows(w, rows).Keys
    ensures forall k, stat :: k in roster.players ==>
      CountOf(roster.players[k].counts, stat) == |KeysOf(AfterRows(w, rows)[k].stats, stat)|
    ensures forall k, wpn :: k in roster.players ==>
      CountOf(roster.players[k].weaponCounts, wpn) == |KeysOf(AfterRows(w, rows)[k].weapons, wpn)|
  {
    roster := new CurrentRoster();
    for i := 0 to |rows|
      invariant roster.Valid() && fresh(roster.records) && roster.views == AfterRows(w, rows[..i])
    {
      assert rows[..i + 1][..i] == rows[..i];
      roster.ApplyRow(w, rows[i]);
    }
    assert rows[..|rows|] == rows;
    assert forall k :: k in roster.players ==>
      roster.players[k].Seen() == AfterRows(w, rows)[k] && roster.players[k].Consistent();
  }

  // ---------- What every run keeps ----------

  ghost predicate InSome(weapons: map<string, set<string>>, e: string) {
    exists wpn :: wpn in weapons && e in weapons[wpn]
  }

  ghost predicate InSomeWeapon(v: View, e: string) {
    InSome(v.weapons, e)
  }

  predicate IsKillOf(v: View, e: string) {
    e in KeysOf(v.stats, Kills) || e in KeysOf(v.stats, Teamkills)
  }

  // The weapon sets hold exactly the kills and teamkills; a death by teamkill is a death.
  ghost predicate Coherent(v: View) {
    && (forall e :: InSomeWeapon(v, e) <==> IsKillOf(v, e))
    && KeysOf(v.stats, DeathsByTeamkill) <= KeysOf(v.stats, Deaths)
  }

  ghost predicate WellKeyed(w: Words, k: Key, p: Profile) {
    match k
    case IdKey(id) => id != "" && p.id == id
    case NameKey(name) => name != "" && p.id == "" && w.normalized(p.name) == name
  }

  ghost predicate RosterOk(w: Words, views: Views) {
    forall k :: k in views ==> WellKeyed(w, k, views[k].profile) && Coherent(views[k])
  }

  lemma NewIsCoherent(id: string, name: string)
    ensures Coherent(NewView(id, name))
  {
  }

  lemma UniteHolds(a: map<string, set<string>>, b: map<string, set<string>>, e: string)
    ensures InSome(Unite(a, b), e) <==> InSome(a, e) || InSome(b, e)
  {
    var c := Unite(a, b);
    if InSome(a, e) {
      var wpn :| wpn in a && e in a[wpn];
      assert wpn in c && e in c[wpn];
    }
    if InSome(b, e) {
      var wpn :| wpn in b && e in b[wpn];
      assert wpn in c && e in c[wpn];
    }
  }

  lemma UniteKeepsSubset(a: map<Stat, set<string>>, b: map<Stat, set<string>>)
    requires KeysOf(a, DeathsByTeamkill) <= KeysOf(a, Deaths) && KeysOf(b, DeathsByTeamkill) <= KeysOf(b, Deaths)
    ensures KeysOf(Unite(a, b), DeathsByTeamkill) <= KeysOf(Unite(a, b), Deaths)
    ensures forall s: Stat, e :: e in KeysOf(Unite(a, b), s) <==> e in KeysOf(a, s) || e in KeysOf(b, s)
  {
  }

  lemma MergedIsCoherent(w: Words, to: View, from: View)
    requires Coherent(to) && Coherent(from)
    ensures Coherent(Merged(w, to, from))
  {
    UniteKeepsSubset(to.stats, from.stats);
    forall e ensures InSomeWeapon(Merged(w, to, from), e) <==> IsKillOf(Merged(w, to, from), e) {
      UniteHolds(to.weapons, from.weapons, e);
      assert InSomeWeapon(to, e) <==> IsKillOf(to, e);
      assert InSomeWeapon(from, e) <==> IsKillOf(from, e);
    }
  }

  lemma KillIsCoherent(w: Words, v: View, row: FeedRow)
    requires Coherent(v) && row.KillRow?
    ensures Coherent(WithKill(w, v, row))
  {
    var now, weapon := WithKill(w, v, row), WeaponOf(w, row);
    forall e ensures InSomeWeapon(now, e) <==> InSomeWeapon(v, e) || e == EventKey(w, row) {
      if InSomeWeapon(v, e) {
        var wpn :| wpn in v.weapons && e in v.weapons[wpn];
        assert wpn in now.weapons && e in now.weapons[wpn];
      }
      if e == EventKey(w, row) {
        assert weapon in now.weapons && e in now.weapons[weapon];
      }
    }
  }

  lemma DeathIsCoherent(w: Words, v: View, row: FeedRow)
    requires Coherent(v) && row.KillRow?
    ensures Coherent(WithDeath(w, v, row))
  {
    assert forall e :: InSomeWeapon(WithDeath(w, v, row), e) <==> InSomeWeapon(v, e);
  }

  lemma TouchedIsCoherent(w: Words, v: View, s: Sighting)
    requires Coherent(v)
    ensures Coherent(v.(profile := Touched(w, v.profile, s)))
  {
    assert forall e :: InSomeWeapon(v.(profile := Touched(w, v.profile, s)), e) <==> InSomeWeapon(v, e);
  }

  // After a fold, before the sighting is applied, only the entry of the id may lack its id.
  lemma FoldKeepsRoster(w: Words, views: Views, id: string, name: string)
    requires RosterOk(w, views)
    ensures var folded := AfterFold(w, views, id, name);
      forall k :: k in folded ==> Coherent(folded[k]) && (k == IdKey(id) || WellKeyed(w, k, folded[k].profile))
  {
    var named := NameKeyOf(w, name);
    if id != "" && named.Some? && named.value in views && IdKey(id) in views {
      MergedIsCoherent(w, views[IdKey(id)], views[named.value]);
    }
  }

  lemma TouchedIsWellKeyed(w: Words, views: Views, s: Sighting, k: Key, p: Profile)
    requires KeyOfSighting(w, views, s) == Some(k) && RosterOk(w, views)
    requires k == IdKey(w.strip(s.id)) || WellKeyed(w, k, p)
    ensures WellKeyed(w, k, Touched(w, p, s))
  {
    if w.strip(s.id) == "" {
      assert k in views || k == NameKey(w.normalized(w.strip(s.name)));
    }
  }

  lemma EntryIsWellKeyed(w: Words, views: Views, s: Sighting, k: Key)
    requires KeyOfSighting(w, views, s) == Some(k) && RosterOk(w, views)
    ensures var id, name := w.strip(s.id), w.strip(s.name);
      k == IdKey(id) || WellKeyed(w, k, WithEntry(AfterFold(w, views, id, name), k, id, name)[k].profile)
  {
  }

  lemma OthersAreWellKeyed(w: Words, views: Views, s: Sighting, k: Key)
    requires KeyOfSighting(w, views, s) == Some(k) && RosterOk(w, views)
    ensures var folded := AfterFold(w, views, w.strip(s.id), w.strip(s.name));
      forall q :: q in folded && q != k ==> WellKeyed(w, q, folded[q].profile)
  {
    FoldKeepsRoster(w, views, w.strip(s.id), w.strip(s.name));
  }

  lemma SightingKeepsRoster(w: Words, views: Views, s: Sighting)
    requires RosterOk(w, views)
    ensures RosterOk(w, Sighted(w, views, s))
  {
    var id, name := w.strip(s.id), w.strip(s.name);
    FoldKeepsRoster(w, views, id, name);
    var key := KeyOfSighting(w, views, s);
    if key.Some? {
      var found := WithEntry(AfterFold(w, views, id, name), key.value, id, name);
      NewIsCoherent(id, name);
      EntryIsWellKeyed(w, views, s, key.value);
      TouchedIsCoherent(w, found[key.value], s);
      TouchedIsWellKeyed(w, views, s, key.value, found[key.value].profile);
      OthersAreWellKeyed(w, views, s, key.value);
    } else {
      assert id == "";
    }
  }

  lemma KillKeepsRoster(w: Words, views: Views, row: FeedRow)
    requires RosterOk(w, views) && row.KillRow?
    ensures RosterOk(w, AfterKill(w, views, row))
  {
    var both := BothSighted(w, views, row);
    SightingKeepsRoster(w, views, KillerSighting(row));
    SightingKeepsRoster(w, Sighted(w, views, KillerSighting(row)), VictimSighting(row));
    var killed := KillAt(w, both, KillerKey(w, views, row), row);
    forall k | k in killed ensures WellKeyed(w, k, killed[k].profile) && Coherent(killed[k]) {
      KillIsCoherent(w, both[k], row);
    }
    var died := AfterKill(w, views, row);
    forall k | k in died ensures WellKeyed(w, k, died[k].profile) && Coherent(died[k]) {
      DeathIsCoherent(w, killed[k], row);
    }
  }

  /** Every id entry carries its id, every name entry its name and no id, and the weapon sets cover the kills. */
  lemma {:induction false} RunKeepsRoster(w: Words, rows: seq<FeedRow>)
    ensures RosterOk(w, AfterRows(w, rows))
  {
    if rows != [] {
      var before, row := AfterRows(w, rows[..|rows| - 1]), rows[|rows| - 1];
      RunKeepsRoster(w, rows[..|rows| - 1]);
      if row.KillRow? {
        KillKeepsRoster(w, before, row);
      } else if SightingOf(row).Some? {
        SightingKeepsRoster(w, before, SightingOf(row).value);
      }
    }
  }

  // ---------- Which events a run credits ----------

  predicate Earns(row: FeedRow, stat: Stat) {
    row.KillRow? && match stat {
      case Kills => !IsTeamkill(row)
      case Deaths => true
      case Teamkills => IsTeamkill(row)
      case DeathsByTeamkill => IsTeamkill(row)
    }
  }

  ghost predicate Earned(w: Words, rows: seq<FeedRow>, stat: Stat, e: string) {
    exists i :: 0 <= i < |rows| && Earns(rows[i], stat) && EventKey(w, rows[i]) == e
  }

  // Every key of every set is an event that earns that statistic, or was made with that weapon.
  ghost predicate OnlyEarnedBy(w: Words, rows: seq<FeedRow>, v: View) {
    && (forall stat, e :: e in KeysOf(v.stats, stat) ==> Earned(w, rows, stat, e))
    && (forall wpn, e :: e in KeysOf(v.weapons, wpn) ==> EarnedWith(w, rows, wpn, e))
  }

  ghost predicate EarnedWith(w: Words, rows: seq<FeedRow>, wpn: string, e: string) {
    exists i :: 0 <= i < |rows| && rows[i].KillRow? && WeaponOf(w, rows[i]) == wpn && EventKey(w, rows[i]) == e
  }

  ghost predicate OnlyEarned(w: Words, rows: seq<FeedRow>, views: Views) {
    forall k :: k in views ==> OnlyEarnedBy(w, rows, views[k])
  }

  lemma EarnedByMore(w: Words, rows: seq<FeedRow>, views: Views, row: FeedRow)
    requires OnlyEarned(w, rows, views)
    ensures OnlyEarned(w, rows + [row], views)
  {
    forall k, stat, e | k in views && e in KeysOf(views[k].stats, stat) ensures Earned(w, rows + [row], stat, e) {
      assert OnlyEarnedBy(w, rows, views[k]) && Earned(w, rows, stat, e);
      var i :| 0 <= i < |rows| && Earns(rows[i], stat) && EventKey(w, rows[i]) == e;
      assert (rows + [row])[i] == rows[i];
    }
    forall k, wpn, e | k in views && e in KeysOf(views[k].weapons, wpn) ensures EarnedWith(w, rows + [row], wpn, e) {
      assert OnlyEarnedBy(w, rows, views[k]) && EarnedWith(w, rows, wpn, e);
      var i :| 0 <= i < |rows| && rows[i].KillRow? && WeaponOf(w, rows[i]) == wpn && EventKey(w, rows[i]) == e;
      assert (rows + [row])[i] == rows[i];
    }
  }

  lemma SightingEarnsNothing(w: Words, rows: seq<FeedRow>, views: Views, s: Sighting)
    requires OnlyEarned(w, rows, views)
    ensures OnlyEarned(w, rows, Sighted(w, views, s))
  {
  }

  lemma StatIsEarned(w: Words, rows: seq<FeedRow>, row: FeedRow, stat: Stat)
    requires row in rows && Earns(row, stat)
    ensures Earned(w, rows, stat, EventKey(w, row))
  {
    var i :| 0 <= i < |rows| && rows[i] == row;
  }

  lemma WeaponIsEarned(w: Words, rows: seq<FeedRow>, row: FeedRow)
    requires row in rows && row.KillRow?
    ensures EarnedWith(w, rows, WeaponOf(w, row), EventKey(w, row))
  {
    var i :| 0 <= i < |rows| && rows[i] == row;
  }

  lemma AddedStatIsEarned(w: Words, rows: seq<FeedRow>, v: View, stat: Stat, e: string)
    requires OnlyEarnedBy(w, rows, v) && Earned(w, rows, stat, e)
    ensures OnlyEarnedBy(w, rows, WithStat(v, stat, e))
  {
  }

  lemma AddedWeaponIsEarned(w: Words, rows: seq<FeedRow>, v: View, wpn: string, e: string)
    requires OnlyEarnedBy(w, rows, v) && EarnedWith(w, rows, wpn, e)
    ensures OnlyEarnedBy(w, rows, WithWeapon(v, wpn, e))
  {
  }

  lemma CreditsAreEarned(w: Words, rows: seq<FeedRow>, v: View, row: FeedRow)
    requires OnlyEarnedBy(w, rows, v) && row in rows && row.KillRow?
    ensures OnlyEarnedBy(w, rows, WithKill(w, v, row)) && OnlyEarnedBy(w, rows, WithDeath(w, v, row))
  {
    var e := EventKey(w, row);
    forall stat | Earns(row, stat) ensures Earned(w, rows, stat, e) {
      StatIsEarned(w, rows, row, stat);
    }
    WeaponIsEarned(w, rows, row);
    AddedWeaponIsEarned(w, rows, v, WeaponOf(w, row), e);
    AddedStatIsEarned(w, rows, WithWeapon(v, WeaponOf(w, row), e), if IsTeamkill(row) then Teamkills else Kills, e);
    AddedStatIsEarned(w, rows, v, Deaths, e);
    if IsTeamkill(row) {
      AddedStatIsEarned(w, rows, WithStat(v, Deaths, e), DeathsByTeamkill, e);
    }
  }

  lemma KillEarns(w: Words, rows: seq<FeedRow>, views: Views, row: FeedRow)
    requires OnlyEarned(w, rows, views) && row.KillRow?
    ensures OnlyEarned(w, rows + [row], AfterKill(w, views, row))
  {
    var both := BothSighted(w, views, row);
    SightingEarnsNothing(w, rows, views, KillerSighting(row));
    SightingEarnsNothing(w, rows, Sighted(w, views, KillerSighting(row)), VictimSighting(row));
    EarnedByMore(w, rows, both, row);
    BothCreditsAreEarned(w, rows + [row], both, row, KillerKey(w, views, row), VictimKey(w, views, row));
  }

  lemma BothCreditsAreEarned(w: Words, rows: seq<FeedRow>, views: Views, row: FeedRow, k: Option<Key>, v: Option<Key>)
    requires OnlyEarned(w, rows, views) && row in rows && row.KillRow?
    ensures OnlyEarned(w, rows, DeathAt(w, KillAt(w, views, k, row), v, row))
  {
    var killed := KillAt(w, views, k, row);
    forall q | q in killed ensures OnlyEarnedBy(w, rows, killed[q]) {
      CreditsAreEarned(w, rows, views[q], row);
    }
    forall q | q in killed ensures OnlyEarnedBy(w, rows, DeathAt(w, killed, v, row)[q]) {
      CreditsAreEarned(w, rows, killed[q], row);
    }
  }

  /** No entry ever counts an event that does not earn the statistic it is counted under. */
  lemma {:induction false} RunCountsOnlyEarned(w: Words, rows: seq<FeedRow>)
    ensures OnlyEarned(w, rows, AfterRows(w, rows))
  {
    if rows != [] {
      var front, row := rows[..|rows| - 1], rows[|rows| - 1];
      RunCountsOnlyEarned(w, front);
      EarnedByMore(w, front, AfterRows(w, front), row);
      assert front + [row] == rows;
      if row.KillRow? {
        KillEarns(w, front, AfterRows(w, front), row);
      } else if SightingOf(row).Some? {
        SightingEarnsNothing(w, rows, AfterRows(w, front), SightingOf(row).value);
      }
    }
  }

  ghost predicate GrownView(a: View, b: View) {
    && (forall stat :: KeysOf(a.stats, stat) <= KeysOf(b.stats, stat))
    && (forall wpn :: KeysOf(a.weapons, wpn) <= KeysOf(b.weapons, wpn))
  }

  // Every id entry is still there with at least the keys it had.
  ghost predicate Grown(before: Views, after: Views) {
    forall k :: k in before && k.IdKey? ==> k in after && GrownView(before[k], after[k])
  }

  lemma SightingGrows(w: Words, views: Views, s: Sighting)
    ensures Grown(views, Sighted(w, views, s))
    ensures w.strip(s.id) != "" ==> IdKey(w.strip(s.id)) in Sighted(w, views, s)
  {
  }

  lemma CreditsGrowView(w: Words, v: View, row: FeedRow)
    requires row.KillRow?
    ensures GrownView(v, WithKill(w, v, row)) && GrownView(v, WithDeath(w, v, row))
  {
  }

  lemma CreditsGrow(w: Words, views: Views, row: FeedRow, k: Option<Key>, v: Option<Key>)
    requires row.KillRow?
    ensures Grown(views, DeathAt(w, KillAt(w, views, k, row), v, row))
  {
    var killed := KillAt(w, views, k, row);
    KillGrows(w, views, row, k);
    DeathGrows(w, killed, row, v);
    GrownTwice(views, killed, DeathAt(w, killed, v, row));
  }

  lemma KillGrows(w: Words, views: Views, row: FeedRow, k: Option<Key>)
    requires row.KillRow?
    ensures Grown(views, KillAt(w, views, k, row))
  {
    if k.Some? && k.value in views {
      CreditsGrowView(w, views[k.value], row);
    }
  }

  lemma DeathGrows(w: Words, views: Views, row: FeedRow, v: Option<Key>)
    requires row.KillRow?
    ensures Grown(views, DeathAt(w, views, v, row))
  {
    if v.Some? && v.value in views {
      CreditsGrowView(w, views[v.value], row);
    }
  }

  lemma GrownTwice(a: Views, b: Views, c: Views)
    requires Grown(a, b) && Grown(b, c)
    ensures Grown(a, c)
  {
  }

  lemma RowGrows(w: Words, views: Views, row: FeedRow)
    ensures Grown(views, AfterRow(w, views, row))
  {
    if row.KillRow? {
      var seen := Sighted(w, views, KillerSighting(row));
      SightingGrows(w, views, KillerSighting(row));
      SightingGrows(w, seen, VictimSighting(row));
      CreditsGrow(w, BothSighted(w, views, row), row, KillerKey(w, views, row), VictimKey(w, views, row));
      GrownTwice(views, seen, BothSighted(w, views, row));
      GrownTwice(views, BothSighted(w, views, row), AfterKill(w, views, row));
    } else if SightingOf(row).Some? {
      SightingGrows(w, views, SightingOf(row).value);
    }
  }

  // The ids a kill row names hold its event.
  ghost predicate Holds(w: Words, views: Views, row: FeedRow)
    requires row.KillRow?
  {
    && (w.strip(row.killerId) != "" ==> HoldsKill(w, views, IdKey(w.strip(row.killerId)), row))
    && (w.strip(row.victimId) != "" ==> HoldsDeath(w, views, IdKey(w.strip(row.victimId)), row))
  }

  ghost predicate HoldsKill(w: Words, views: Views, k: Key, row: FeedRow)
    requires row.KillRow?
  {
    && k in views && EventKey(w, row) in KeysOf(views[k].stats, if IsTeamkill(row) then Teamkills else Kills)
    && EventKey(w, row) in KeysOf(views[k].weapons, WeaponOf(w, row))
  }

  ghost predicate HoldsDeath(w: Words, views: Views, k: Key, row: FeedRow)
    requires row.KillRow?
  {
    && k in views && EventKey(w, row) in KeysOf(views[k].stats, Deaths)
    && (IsTeamkill(row) ==> EventKey(w, row) in KeysOf(views[k].stats, DeathsByTeamkill))
  }

  lemma KillIsHeld(w: Words, views: Views, row: FeedRow)
    requires row.KillRow?
    ensures Holds(w, AfterKill(w, views, row), row)
  {
    var seen, both := Sighted(w, views, KillerSighting(row)), BothSighted(w, views, row);
    SightingGrows(w, views, KillerSighting(row));
    SightingGrows(w, seen, VictimSighting(row));
    CreditsAreHeld(w, both, row, KillerKey(w, views, row), VictimKey(w, views, row));
  }

  lemma CreditsAreHeld(w: Words, both: Views, row: FeedRow, k: Option<Key>, v: Option<Key>)
    requires row.KillRow?
    ensures k.Some? && k.value in both ==> HoldsKill(w, DeathAt(w, KillAt(w, both, k, row), v, row), k.value, row)
    ensures v.Some? && v.value in both ==> HoldsDeath(w, DeathAt(w, KillAt(w, both, k, row), v, row), v.value, row)
  {
  }

  /** Whatever names are folded into whatever ids, a kill counts for the ids its row names. */
  lemma {:induction false} RunCreditsTheIds(w: Words, rows: seq<FeedRow>, i: nat)
    requires i < |rows| && rows[i].KillRow?
    ensures Holds(w, AfterRows(w, rows), rows[i])
  {
    var front, row := rows[..|rows| - 1], rows[|rows| - 1];
    if i == |front| {
      KillIsHeld(w, AfterRows(w, front), row);
    } else {
      RunCreditsTheIds(w, front, i);
      RowGrows(w, AfterRows(w, front), row);
    }
  }

  // ---------- Which reports count as one ----------

  // Two rows report the same kill: their normalised fields agree; without any field a row stands for itself.
  predicate SameReport(w: Words, a: FeedRow, b: FeedRow)
    requires a.KillRow? && b.KillRow?
  {
    && w.normalized(a.serverTime) == w.normalized(b.serverTime) && w.normalized(a.stamp) == w.normalized(b.stamp)
    && w.normalized(a.killerName) == w.normalized(b.killerName)
    && w.normalized(a.killerTeam) == w.normalized(b.killerTeam)
    && w.normalized(a.victimName) == w.normalized(b.victimName)
    && w.normalized(a.victimTeam) == w.normalized(b.victimTeam) && w.normalized(a.weapon) == w.normalized(b.weapon)
    && (SaysNothing(w, a) ==> a.rowId == b.rowId)
  }

  predicate SaysNothing(w: Words, row: FeedRow)
    requires row.KillRow?
  {
    && w.normalized(row.serverTime) == "" && w.normalized(row.stamp) == "" && w.normalized(row.killerName) == ""
    && w.normalized(row.killerTeam) == "" && w.normalized(row.victimName) == "" && w.normalized(row.victimTeam) == ""
    && w.normalized(row.weapon) == ""
  }

  // No normalised field holds the separator of the key.
  predicate BarFree(w: Words, row: FeedRow)
    requires row.KillRow?
  {
    && '|' !in w.normalized(row.serverTime) && '|' !in w.normalized(row.stamp)
    && '|' !in w.normalized(row.killerName) && '|' !in w.normalized(row.killerTeam)
    && '|' !in w.normalized(row.victimName) && '|' !in w.normalized(row.victimTeam)
    && '|' !in w.normalized(row.weapon)
  }

  lemma NoLaterBar(x: string, p: string)
    requires '|' !in p
    ensures forall k :: |x| < k < |x + "|" + p| ==> (x + "|" + p)[k] != '|'
  {
    forall k | |x| < k < |x + "|" + p| ensures (x + "|" + p)[k] != '|' {
      assert (x + "|" + p)[k] == p[k - |x| - 1];
    }
  }

  lemma LastBar(x: string, p: string, y: string, q: string)
    requires x + "|" + p == y + "|" + q && '|' !in p && '|' !in q
    ensures x == y && p == q
  {
    var s := x + "|" + p;
    NoLaterBar(x, p);
    NoLaterBar(y, q);
    assert s[|x|] == '|' && s[|y|] == '|';
    assert s[..|x|] == x && s[..|y|] == y;
    assert s[|x| + 1..] == p && s[|y| + 1..] == q;
  }

  lemma {:induction false} JoinedTellsApart(xs: seq<string>, ys: seq<string>)
    requires |xs| == |ys| && (forall x :: x in xs ==> '|' !in x) && (forall y :: y in ys ==> '|' !in y)
    ensures Joined(xs) == Joined(ys) <==> xs == ys
  {
    if xs != [] && Joined(xs) == Joined(ys) {
      var n := |xs| - 1;
      assert xs[n] in xs && ys[n] in ys;
      LastBar(Joined(xs[..n]), xs[n], Joined(ys[..n]), ys[n]);
      JoinedTellsApart(xs[..n], ys[..n]);
      assert xs == xs[..n] + [xs[n]] && ys == ys[..n] + [ys[n]];
    }
  }

  lemma {:induction false} JoinedStartsWithKill(xs: seq<string>)
    ensures Joined(xs) != "" && Joined(xs)[0] == 'k'
  {
    if xs != [] {
      JoinedStartsWithKill(xs[..|xs| - 1]);
    }
  }

  lemma KeyOfNothing(w: Words, row: FeedRow)
    requires row.KillRow?
    ensures EventKey(w, row) == if SaysNothing(w, row) then "row:" + row.rowId else Joined(EventParts(w, row))
  {
    var parts := EventParts(w, row);
    assert parts[0] in parts && parts[1] in parts && parts[2] in parts && parts[3] in parts && parts[4] in parts
      && parts[5] in parts && parts[6] in parts;
  }

  lemma SameReportHasOneKey(w: Words, a: FeedRow, b: FeedRow)
    requires a.KillRow? && b.KillRow? && SameReport(w, a, b)
    ensures EventKey(w, a) == EventKey(w, b)
  {
    KeyOfNothing(w, a);
    KeyOfNothing(w, b);
  }

  lemma KeysTellReportsApart(w: Words, a: FeedRow, b: FeedRow)
    requires a.KillRow? && b.KillRow? && BarFree(w, a) && BarFree(w, b)
    ensures EventKey(w, a) == EventKey(w, b) <==> SameReport(w, a, b)
  {
    KeyOfNothing(w, a);
    KeyOfNothing(w, b);
    if EventKey(w, a) == EventKey(w, b) {
      JoinedStartsWithKill(EventParts(w, a));
      JoinedStartsWithKill(EventParts(w, b));
      if SaysNothing(w, a) {
        assert ("row:" + a.rowId)[0] == 'r';
        assert ("row:" + a.rowId)[4..] == a.rowId && ("row:" + b.rowId)[4..] == b.rowId;
      } else {
        assert ("row:" + b.rowId)[0] == 'r';
        JoinedTellsApart(EventParts(w, a), EventParts(w, b));
        PartsAgree(w, a, b);
      }
    } else if SameReport(w, a, b) {
      SameReportHasOneKey(w, a, b);
    }
  }

  lemma PartsAgree(w: Words, a: FeedRow, b: FeedRow)
    requires a.KillRow? && b.KillRow? && EventParts(w, a) == EventParts(w, b) && !SaysNothing(w, a)
    ensures SameReport(w, a, b)
  {
    var xs, ys := EventParts(w, a), EventParts(w, b);
    assert xs[0] == ys[0] && xs[1] == ys[1] && xs[2] == ys[2] && xs[3] == ys[3] && xs[4] == ys[4] && xs[5] == ys[5]
      && xs[6] == ys[6];
  }

  // Rows of kills no two of which report the same one.
  ghost predicate AreDifferentKills(w: Words, some: seq<FeedRow>) {
    && (forall i :: 0 <= i < |some| ==> some[i].KillRow?)
    && (forall i, j :: 0 <= i < j < |some| ==> !SameReport(w, some[i], some[j]))
  }

  ghost predicate NamesNoBar(w: Words, some: seq<FeedRow>) {
    forall i :: 0 <= i < |some| && some[i].KillRow? ==> BarFree(w, some[i])
  }

  lemma {:induction false} DifferentKillsHaveKeys(w: Words, some: seq<FeedRow>, keys: set<string>)
    requires AreDifferentKills(w, some) && NamesNoBar(w, some)
    requires forall i :: 0 <= i < |some| ==> EventKey(w, some[i]) in keys
    ensures |some| <= |keys|
  {
    if some != [] {
      var n := |some| - 1;
      forall i | 0 <= i < n ensures EventKey(w, some[..n][i]) in keys - {EventKey(w, some[n])} {
        KeysTellReportsApart(w, some[i], some[n]);
      }
      DifferentKillsHaveKeys(w, some[..n], keys - {EventKey(w, some[n])});
    }
  }

  /** However its names are folded, an id entry counts every different kill that names its id as the killer. */
  lemma DifferentKillsAllCount(w: Words, rows: seq<FeedRow>, id: string, some: seq<FeedRow>)
    requires AreDifferentKills(w, some) && NamesNoBar(w, some) && some != [] && id != ""
    requires forall i :: 0 <= i < |some| ==> some[i] in rows && w.strip(some[i].killerId) == id
    ensures IdKey(id) in AfterRows(w, rows)
    ensures var stats := AfterRows(w, rows)[IdKey(id)].stats;
      |some| <= |KeysOf(stats, Kills)| + |KeysOf(stats, Teamkills)|
  {
    forall i | 0 <= i < |some| ensures HoldsKill(w, AfterRows(w, rows), IdKey(id), some[i]) {
      var r :| 0 <= r < |rows| && rows[r] == some[i];
      RunCreditsTheIds(w, rows, r);
    }
    assert HoldsKill(w, AfterRows(w, rows), IdKey(id), some[0]);
    var stats := AfterRows(w, rows)[IdKey(id)].stats;
    DifferentKillsHaveKeys(w, some, KeysOf(stats, Kills) + KeysOf(stats, Teamkills));
    UnionIsNoLarger(KeysOf(stats, Kills), KeysOf(stats, Teamkills));
  }

  /** And every different death that names its id as the victim. */
  lemma DifferentDeathsAllCount(w: Words, rows: seq<FeedRow>, id: string, some: seq<FeedRow>)
    requires AreDifferentKills(w, some) && NamesNoBar(w, some) && some != [] && id != ""
    requires forall i :: 0 <= i < |some| ==> some[i] in rows && w.strip(some[i].victimId) == id
    ensures IdKey(id) in AfterRows(w, rows) && |some| <= |KeysOf(AfterRows(w, rows)[IdKey(id)].stats, Deaths)|
  {
    forall i | 0 <= i < |some| ensures HoldsDeath(w, AfterRows(w, rows), IdKey(id), some[i]) {
      var r :| 0 <= r < |rows| && rows[r] == some[i];
      RunCreditsTheIds(w, rows, r);
    }
    assert HoldsDeath(w, AfterRows(w, rows), IdKey(id), some[0]);
    DifferentKillsHaveKeys(w, some, KeysOf(AfterRows(w, rows)[IdKey(id)].stats, Deaths));
  }

  lemma UnionIsNoLarger<T>(a: set<T>, b: set<T>)
    ensures |a + b| <= |a| + |b|
  {
    assert a + b == a + (b - a) && |b - a| <= |b|;
    assert b == (b - a) + (b * a);
  }

  // A kill within one team is a teamkill and nothing else is.
  predicate CountsUnder(row: FeedRow, stat: Stat) {
    && row.KillRow?
    && (stat == Kills ==> row.killerTeam == "" || row.killerTeam != row.victimTeam)
    && (stat == Teamkills || stat == DeathsByTeamkill ==> row.killerTeam != "" && row.killerTeam == row.victimTeam)
  }

  predicate IsMadeWith(w: Words, row: FeedRow, wpn: string) {
    row.KillRow? && if w.strip(row.weapon) != "" then w.strip(row.weapon) == wpn else wpn == "UNKNOWN"
  }

  // A row of the feed that passes the test has the key.
  ghost predicate HasReport(w: Words, rows: seq<FeedRow>, test: FeedRow -> bool, e: string) {
    exists i :: 0 <= i < |rows| && rows[i].KillRow? && test(rows[i]) && EventKey(w, rows[i]) == e
  }

  /** No report is counted twice: a counter of any entry is the number of some different kills of its statistic. */
  lemma CountedKillsAreDifferent(w: Words, rows: seq<FeedRow>, k: Key, stat: Stat) returns (some: seq<FeedRow>)
    requires k in AfterRows(w, rows)
    ensures |some| == |KeysOf(AfterRows(w, rows)[k].stats, stat)| && AreDifferentKills(w, some)
    ensures forall i :: 0 <= i < |some| ==> some[i] in rows && CountsUnder(some[i], stat)
  {
    RunCountsOnlyEarned(w, rows);
    assert OnlyEarnedBy(w, rows, AfterRows(w, rows)[k]);
    var keys := KeysOf(AfterRows(w, rows)[k].stats, stat);
    forall e | e in keys ensures HasReport(w, rows, Under(stat), e) {
      EarnedHasReport(w, rows, stat, e);
    }
    some := ReportsOf(w, rows, Under(stat), keys);
  }

  function Under(stat: Stat): FeedRow -> bool {
    (row: FeedRow) => CountsUnder(row, stat)
  }

  function MadeWith(w: Words, wpn: string): FeedRow -> bool {
    (row: FeedRow) => IsMadeWith(w, row, wpn)
  }

  lemma EarnedHasReport(w: Words, rows: seq<FeedRow>, stat: Stat, e: string)
    requires Earned(w, rows, stat, e)
    ensures HasReport(w, rows, Under(stat), e)
  {
    var i :| 0 <= i < |rows| && Earns(rows[i], stat) && EventKey(w, rows[i]) == e;
    assert Under(stat)(rows[i]);
  }

  lemma EarnedWithHasReport(w: Words, rows: seq<FeedRow>, wpn: string, e: string)
    requires EarnedWith(w, rows, wpn, e)
    ensures HasReport(w, rows, MadeWith(w, wpn), e)
  {
    var i :| 0 <= i < |rows| && rows[i].KillRow? && WeaponOf(w, rows[i]) == wpn && EventKey(w, rows[i]) == e;
    assert MadeWith(w, wpn)(rows[i]);
  }

  /** And a weapon counter is the number of some different kills made with the weapon. */
  lemma CountedWeaponsAreDifferent(w: Words, rows: seq<FeedRow>, k: Key, wpn: string) returns (some: seq<FeedRow>)
    requires k in AfterRows(w, rows)
    ensures |some| == |KeysOf(AfterRows(w, rows)[k].weapons, wpn)| && AreDifferentKills(w, some)
    ensures forall i :: 0 <= i < |some| ==> some[i] in rows && IsMadeWith(w, some[i], wpn)
  {
    RunCountsOnlyEarned(w, rows);
    assert OnlyEarnedBy(w, rows, AfterRows(w, rows)[k]);
    var keys := KeysOf(AfterRows(w, rows)[k].weapons, wpn);
    forall e | e in keys ensures HasReport(w, rows, MadeWith(w, wpn), e) {
      EarnedWithHasReport(w, rows, wpn, e);
    }
    some := ReportsOf(w, rows, MadeWith(w, wpn), keys);
  }

  /** An id entry counts every different kill that names its id and a weapon under that weapon. */
  lemma DifferentKillsCountUnderWeapon(w: Words, rows: seq<FeedRow>, id: string, wpn: string, some: seq<FeedRow>)
    requires AreDifferentKills(w, some) && NamesNoBar(w, some) && some != [] && id != ""
    requires forall i :: 0 <= i < |some| ==>
      some[i] in rows && w.strip(some[i].killerId) == id && IsMadeWith(w, some[i], wpn)
    ensures IdKey(id) in AfterRows(w, rows) && |some| <= |KeysOf(AfterRows(w, rows)[IdKey(id)].weapons, wpn)|
  {
    forall i | 0 <= i < |some| ensures HoldsKill(w, AfterRows(w, rows), IdKey(id), some[i]) {
      var r :| 0 <= r < |rows| && rows[r] == some[i];
      RunCreditsTheIds(w, rows, r);
    }
    assert HoldsKill(w, AfterRows(w, rows), IdKey(id), some[0]);
    DifferentKillsHaveKeys(w, some, KeysOf(AfterRows(w, rows)[IdKey(id)].weapons, wpn));
  }

  lemma {:induction false} ReportsOf(w: Words, rows: seq<FeedRow>, test: FeedRow -> bool, keys: set<string>)
    returns (some: seq<FeedRow>)
    requires forall e :: e in keys ==> HasReport(w, rows, test, e)
    ensures |some| == |keys| && AreDifferentKills(w, some)
    ensures forall i :: 0 <= i < |some| ==> some[i] in rows && test(some[i]) && EventKey(w, some[i]) in keys
  {
    if keys == {} {
      some := [];
    } else {
      var e := SomeElement(keys);
      var row := ReportOf(w, rows, test, e);
      var rest := ReportsOf(w, rows, test, keys - {e});
      some := rest + [row];
      AnotherKill(w, rest, row, keys - {e});
    }
  }

  lemma ReportOf(w: Words, rows: seq<FeedRow>, test: FeedRow -> bool, e: string) returns (row: FeedRow)
    requires HasReport(w, rows, test, e)
    ensures row in rows && row.KillRow? && test(row) && EventKey(w, row) == e
  {
    var i :| 0 <= i < |rows| && rows[i].KillRow? && test(rows[i]) && EventKey(w, rows[i]) == e;
    row := rows[i];
  }

  lemma AnotherKill(w: Words, some: seq<FeedRow>, row: FeedRow, keys: set<string>)
    requires AreDifferentKills(w, some) && row.KillRow? && EventKey(w, row) !in keys
    requires forall i :: 0 <= i < |some| ==> EventKey(w, some[i]) in keys
    ensures AreDifferentKills(w, some + [row])
  {
    forall j | 0 <= j < |some| ensures !SameReport(w, some[j], row) {
      if SameReport(w, some[j], row) {
        SameReportHasOneKey(w, some[j], row);
        assert false;
      }
    }
  }

  // ---------- What one kill row shows of its two players ----------

  // The entry of a player who is new: under the id, or else under the normalised name.
  function NewKey(w: Words, id: string, name: string): Key {
    if w.strip(id) != "" then IdKey(w.strip(id)) else NameKey(w.normalized(w.strip(name)))
  }

  function NewProfile(w: Words, id: string, name: string, team: string, stamp: string): Profile {
    Profile(w.strip(id), w.strip(name), w.strip(team), None, w.strip(stamp), {"kill"})
  }

  function NewKiller(w: Words, row: FeedRow, e: string): View
    requires row.KillRow?
  {
    View(NewProfile(w, row.killerId, row.killerName, row.killerTeam, row.stamp),
         if row.killerTeam != "" && row.killerTeam == row.victimTeam then map[Teamkills := {e}] else map[Kills := {e}],
         map[(if w.strip(row.weapon) == "" then "UNKNOWN" else w.strip(row.weapon)) := {e}])
  }

  function NewVictim(w: Words, row: FeedRow, e: string): View
    requires row.KillRow?
  {
    View(NewProfile(w, row.victimId, row.victimName, row.victimTeam, row.stamp),
         if row.killerTeam != "" && row.killerTeam == row.victimTeam then map[Deaths := {e}, DeathsByTeamkill := {e}]
         else map[Deaths := {e}],
         map[])
  }

  // A kill between two players of different names, each with an id or a name.
  predicate BetweenTwo(w: Words, row: FeedRow) {
    && row.KillRow? && !w.knownTeam("")
    && (w.strip(row.killerId) != "" || w.normalized(w.strip(row.killerName)) != "")
    && (w.strip(row.victimId) != "" || w.normalized(w.strip(row.victimName)) != "")
    && w.normalized(w.strip(row.killerName)) != w.normalized(w.strip(row.victimName))
    && (w.strip(row.killerId) == "" || w.strip(row.killerId) != w.strip(row.victimId))
  }

  /** The whole roster after one such kill. */
  lemma OneKillShowsBoth(w: Words, row: FeedRow) returns (e: string)
    requires BetweenTwo(w, row)
    ensures AfterRows(w, [row]) == map[NewKey(w, row.killerId, row.killerName) := NewKiller(w, row, e),
                                       NewKey(w, row.victimId, row.victimName) := NewVictim(w, row, e)]
  {
    e := EventKey(w, row);
    BothAreNew(w, row);
    FirstRow(w, row);
    var k, v := NewKey(w, row.killerId, row.killerName), NewKey(w, row.victimId, row.victimName);
    BothAreCredited(w, row, k, v);
    assert AfterKill(w, map[], row) == DeathAt(w, KillAt(w, BothSighted(w, map[], row), Some(k), row), Some(v), row);
  }

  lemma BothAreCredited(w: Words, row: FeedRow, k: Key, v: Key)
    requires row.KillRow? && k != v
    ensures var both: Views := map[
        k := View(NewProfile(w, row.killerId, row.killerName, row.killerTeam, row.stamp), map[], map[]),
        v := View(NewProfile(w, row.victimId, row.victimName, row.victimTeam, row.stamp), map[], map[])];
      DeathAt(w, KillAt(w, both, Some(k), row), Some(v), row)
        == map[k := NewKiller(w, row, EventKey(w, row)), v := NewVictim(w, row, EventKey(w, row))]
  {
    CreditsOfNew(w, row);
  }

  lemma FirstRow(w: Words, row: FeedRow)
    ensures AfterRows(w, [row]) == AfterRow(w, map[], row)
  {
    assert [row][..0] == [] && AfterRows(w, []) == map[];
  }

  lemma BothAreNew(w: Words, row: FeedRow)
    requires BetweenTwo(w, row)
    ensures var k, v := NewKey(w, row.killerId, row.killerName), NewKey(w, row.victimId, row.victimName);
      && k != v && KillerKey(w, map[], row) == Some(k) && VictimKey(w, map[], row) == Some(v)
      && BothSighted(w, map[], row) == map[
        k := View(NewProfile(w, row.killerId, row.killerName, row.killerTeam, row.stamp), map[], map[]),
        v := View(NewProfile(w, row.victimId, row.victimName, row.victimTeam, row.stamp), map[], map[])]
  {
    var k, v := NewKey(w, row.killerId, row.killerName), NewKey(w, row.victimId, row.victimName);
    SightingOfNew(w, map[], KillerSighting(row), k);
    var once: Views :=
      map[k := View(NewProfile(w, row.killerId, row.killerName, row.killerTeam, row.stamp), map[], map[])];
    SightingOfNew(w, once, VictimSighting(row), v);
  }

  lemma CreditsOfNew(w: Words, row: FeedRow)
    requires row.KillRow?
    ensures var killer := NewProfile(w, row.killerId, row.killerName, row.killerTeam, row.stamp);
      WithKill(w, View(killer, map[], map[]), row) == NewKiller(w, row, EventKey(w, row))
    ensures var victim := NewProfile(w, row.victimId, row.victimName, row.victimTeam, row.stamp);
      WithDeath(w, View(victim, map[], map[]), row) == NewVictim(w, row, EventKey(w, row))
  {
    assert {} + {EventKey(w, row)} == {EventKey(w, row)};
  }

  // A sighting of someone whose id and name no entry has.
  lemma SightingOfNew(w: Words, views: Views, s: Sighting, k: Key)
    requires k == NewKey(w, s.id, s.name) && k !in views && !w.knownTeam("") && s.connected.None? && s.source == "kill"
    requires w.strip(s.id) != "" || w.normalized(w.strip(s.name)) != ""
    requires NameKey(w.normalized(w.strip(s.name))) !in views
    requires forall q :: q in views ==> w.normalized(views[q].profile.name) != w.normalized(w.strip(s.name))
    ensures KeyOfSighting(w, views, s) == Some(k)
    ensures Sighted(w, views, s) == views[k := View(NewProfile(w, s.id, s.name, s.team, s.stamp), map[], map[])]
  {
    assert Matching(w, views, w.normalized(w.strip(s.name))) == {};
    var id, name := w.strip(s.id), w.strip(s.name);
    assert AfterFold(w, views, id, name) == views;
    assert {} + {s.source} == {"kill"};
    assert Touched(w, NewView(id, name).profile, s) == NewProfile(w, s.id, s.name, s.team, s.stamp);
    assert WithEntry(views, k, id, name) == views[k := NewView(id, name)];
  }
}
