/**
 The resumable historical import as the database sees it (historical_ingestion, historical_storage):
 every write is preceded by the initialisation of the storage, which folds matches of one identity
 together, and a run may stop between any two commits.
 */
module Ingestion {
  import opened Options
  import opened Picking
  import opened HistoricalMerge
  import opened ArchiveListing
  import opened Plain = PlainImport

  // The tables of all servers, and the progress row of one server and mode; a missing row reads as page 1.
  datatype Database = Database(matches: Matches, stats: Stats, nextId: int, nextPage: nat, exhausted: bool)

  predicate IsRow(matches: Matches, id: int, server: int, external: string) {
    id in matches && matches[id].server == server && matches[id].externalId == external
  }

  // The constraints of the tables, and what the upsert writes into the pretty names.
  ghost predicate Sane(db: Database) {
    && WellFormed(db.matches, db.stats)
    && (forall i, server, external :: IsRow(db.matches, i, server, external) ==>
      IsOnlyRow(db.matches, i, server, external))
    && (forall id :: id in db.matches ==> id < db.nextId && db.matches[id].columns[MAP_PRETTY_NAME] != Text(""))
    && (forall k :: k in db.stats ==> k.0 in db.matches)
  }

  ghost predicate IsOnlyRow(matches: Matches, id: int, server: int, external: string) {
    forall j :: IsRow(matches, j, server, external) ==> j == id
  }

  ghost function FindRow(matches: Matches, server: int, external: string): (r: Option<int>)
    ensures r.Some? ==> IsRow(matches, r.value, server, external)
    ensures r.None? ==> forall id :: !IsRow(matches, id, server, external)
  {
    if id :| IsRow(matches, id, server, external) then Some(id) else None
  }

  // ---------- The commits ----------

  // initialize_historical_storage; calling it again at once changes nothing (NormalizationIsIdempotent).
  ghost function Initialize(db: Database, n: Normalizer): Database {
    if !WellFormed(db.matches, db.stats) then db
    else
      var (matches, stats) := Normalize(db.matches, db.stats, n);
      db.(matches := matches, stats := stats)
  }

  function StatsWith(stats: Stats, id: int, players: map<int, StatRow>): Stats {
    var written := set p | p in players :: (id, p);
    map k | k in stats.Keys + written :: if k.0 == id && k.1 in players then players[k.1] else stats[k]
  }

  ghost function TargetRow(db: Database, server: int, d: Detail): int {
    var found := FindRow(db.matches, server, d.id);
    if found.Some? then found.value else db.nextId
  }

  // upsert_historical_match: the row and the statistics of the payload are overwritten, other statistics stay.
  ghost function Upsert(db: Database, server: int, d: Detail, clock: string): Database {
    var id := TargetRow(db, server, d);
    db.(matches := db.matches[id := MatchRow(server, d.id, d.columns, clock)],
        stats := StatsWith(db.stats, id, d.players),
        nextId := if id == db.nextId then db.nextId + 1 else db.nextId)
  }

  ghost function Commit(db: Database, server: int, w: Write, clock: string): Database {
    match w
    case Started(bootstrap) => if bootstrap then db.(exhausted := false) else db
    case Upserted(d) => Upsert(db, server, d, clock)
    case PageCompleted(page) => db.(nextPage := page + 1, exhausted := false)
    case Finished(exhausted) => if exhausted then db.(exhausted := true) else db
  }

  ghost predicate AllExtracted(ws: seq<Write>) {
    forall w :: w in ws && w.Upserted? ==> Extracted(w.d)
  }

  /** What is left when only `commits` commits get through; each write has its initialisation before it. */
  ghost function Stopped(db: Database, server: int, n: Normalizer, ws: seq<Write>, clock: string,
                         commits: nat): Database
    decreases |ws|
  {
    if ws == [] || commits == 0 then db
    else if commits == 1 || Refused(ws[0]) then Initialize(db, n)
    else Stopped(Commit(Initialize(db, n), server, ws[0], clock), server, n, ws[1..], clock, commits - 2)
  }

  lemma {:induction false} StoppedIsSane(db: Database, server: int, n: Normalizer, ws: seq<Write>, clock: string,
      commits: nat)
    requires Sane(db) && AllExtracted(ws)
    ensures Sane(Stopped(db, server, n, ws, clock, commits))
    decreases |ws|
  {
    InitializeIsSane(db, n);
    if ws != [] && commits >= 2 && !Refused(ws[0]) {
      assert ws[0] in ws && forall w :: w in ws[1..] ==> w in ws;
      CommitIsSane(Initialize(db, n), server, ws[0], clock);
      StoppedIsSane(Commit(Initialize(db, n), server, ws[0], clock), server, n, ws[1..], clock, commits - 2);
    }
  }

  lemma InitializeIsSane(db: Database, n: Normalizer)
    requires Sane(db)
    ensures Sane(Initialize(db, n))
  {
    var (matches, stats) := Normalize(db.matches, db.stats, n);
    NormalizeIsNormalized(db.matches, db.stats, n);
    NormalizedRows(db.matches, db.stats, matches, stats, n);
    FewerRowsAreSane(db, matches, stats);
  }

  lemma FewerRowsAreSane(db: Database, matches: Matches, stats: Stats)
    requires Sane(db) && WellFormed(matches, stats)
    requires forall id :: id in matches ==>
      id in db.matches && matches[id].server == db.matches[id].server
        && matches[id].externalId == db.matches[id].externalId
    requires forall id :: id in matches ==> matches[id].columns[MAP_PRETTY_NAME] != Text("")
    requires forall k :: k in stats ==> k.0 in matches
    ensures Sane(db.(matches := matches, stats := stats))
  {
    forall i, s, e | IsRow(matches, i, s, e) ensures IsOnlyRow(matches, i, s, e) {
      assert IsRow(db.matches, i, s, e) && IsOnlyRow(db.matches, i, s, e);
      forall j | IsRow(matches, j, s, e) ensures j == i {
        assert IsRow(db.matches, j, s, e);
      }
    }
  }

  // What a normalisation keeps of every row that is left, and where statistics may be.
  lemma NormalizedRows(matches0: Matches, stats0: Stats, matches: Matches, stats: Stats, n: Normalizer)
    requires Normalized(matches0, stats0, matches, stats, n) && forall k :: k in stats0 ==> k.0 in matches0
    requires forall id :: id in matches0 ==> matches0[id].columns[MAP_PRETTY_NAME] != Text("")
    ensures WellFormed(matches, stats)
    ensures forall id :: id in matches ==>
      id in matches0 && matches[id].server == matches0[id].server && matches[id].externalId == matches0[id].externalId
    ensures forall id :: id in matches ==> matches[id].columns[MAP_PRETTY_NAME] != Text("")
    ensures forall k :: k in stats ==> k.0 in matches
  {
    forall id | id in matches ensures matches[id].columns[MAP_PRETTY_NAME] != Text("") {
      assert IsFilled(matches0, GroupsOf(matches0, matches.Keys, n)[id], MAP_PRETTY_NAME,
                      matches[id].columns[MAP_PRETTY_NAME]);
    }
    forall k | k in stats ensures k.0 in matches {
      var (id, p) := k;
      assert LeavesLoneMatches(matches0, stats0, matches, stats, GroupsOf(matches0, matches.Keys, n));
      assert id !in matches0 ==> ((id, p) in stats <==> (id, p) in stats0);
      assert (id, p) in stats0 ==> (id, p).0 in matches0;
      assert TracksStats(matches0, stats0, matches, stats, GroupsOf(matches0, matches.Keys, n));
    }
  }

  lemma CommitIsSane(db: Database, server: int, w: Write, clock: string)
    requires Sane(db) && (w.Upserted? ==> Extracted(w.d))
    ensures Sane(Commit(db, server, w, clock))
  {
    if w.Upserted? {
      UpsertIsSane(db, server, w.d, clock);
    }
  }

  lemma UpsertIsSane(db: Database, server: int, d: Detail, clock: string)
    requires Sane(db) && Extracted(d)
    ensures Sane(Upsert(db, server, d, clock))
  {
    var after, id := Upsert(db, server, d, clock), TargetRow(db, server, d);
    StatsAfterUpsert(db.stats, id, d.players);
    forall k | k in after.stats ensures |after.stats[k].numbers| == NUMBERS && k.0 in after.matches {
      var (i, p) := k;
      assert (i, p) in after.stats;
    }
    forall i, s, e | IsRow(after.matches, i, s, e) ensures IsOnlyRow(after.matches, i, s, e) {
      RowsAfterUpsert(db, server, d, clock, s, e);
    }
  }

  lemma StatsAfterUpsert(stats: Stats, id: int, players: map<int, StatRow>)
    ensures forall i, p :: (i, p) in StatsWith(stats, id, players) <==> (i, p) in stats || (i == id && p in players)
    ensures forall i, p :: (i, p) in StatsWith(stats, id, players) ==>
      StatsWith(stats, id, players)[(i, p)] == if i == id && p in players then players[p] else stats[(i, p)]
    ensures forall k :: k in StatsWith(stats, id, players) ==> k == (k.0, k.1)
  {
    forall p | p in players ensures (id, p) in StatsWith(stats, id, players) {
      assert (id, p) in set q | q in players :: (id, q);
    }
  }

  // After an upsert the rows are as before, but for the one of the detail.
  lemma RowsAfterUpsert(db: Database, server: int, d: Detail, clock: string, s: int, e: string)
    requires Sane(db)
    ensures var after := Upsert(db, server, d, clock);
      forall i :: IsRow(after.matches, i, s, e) <==>
        (if s == server && e == d.id then i == TargetRow(db, server, d) else IsRow(db.matches, i, s, e))
  {
    var id, found := TargetRow(db, server, d), FindRow(db.matches, server, d.id);
    if found.Some? {
      assert IsRow(db.matches, id, server, d.id) && IsOnlyRow(db.matches, id, server, d.id);
    } else {
      assert id !in db.matches;
    }
    var after := Upsert(db, server, d, clock);
    forall i
      ensures IsRow(after.matches, i, s, e)
        <==> (if s == server && e == d.id then i == id else IsRow(db.matches, i, s, e))
    {
      assert IsRow(db.matches, i, server, d.id) ==> i == id;
    }
  }

  // ---------- What the database shows of a server ----------

  ghost function Lookup(db: Database, server: int, item: Item): Option<Value> {
    var found := FindRow(db.matches, server, item.id);
    if found.None? then None
    else
      match item {
        case RowOf(_) => Some(Columns(db.matches[found.value].columns))
        case StatOf(_, p) => if (found.value, p) in db.stats then Some(Numbers(db.stats[(found.value, p)])) else None
      }
  }

  function TableAt(table: Table, item: Item): Option<Value> {
    if item in table then Some(table[item]) else None
  }

  ghost predicate Shows(db: Database, server: int, table: Table) {
    forall item :: Lookup(db, server, item) == TableAt(table, item)
  }

  lemma FindAfterUpsert(db: Database, server: int, d: Detail, clock: string, e: string)
    requires Sane(db) && Extracted(d)
    ensures FindRow(Upsert(db, server, d, clock).matches, server, e)
         == if e == d.id then Some(TargetRow(db, server, d)) else FindRow(db.matches, server, e)
  {
    RowsAfterUpsert(db, server, d, clock, server, e);
    UpsertIsSane(db, server, d, clock);
    var after, expected :=
      Upsert(db, server, d, clock), if e == d.id then Some(TargetRow(db, server, d))
        else FindRow(db.matches, server, e);
    if expected.Some? {
      assert IsRow(after.matches, expected.value, server, e) && IsOnlyRow(after.matches, expected.value, server, e);
    }
  }

  /** An upsert writes the items of its detail and no others. */
  lemma UpsertShows(db: Database, server: int, d: Detail, clock: string, table: Table)
    requires Sane(db) && Extracted(d) && Shows(db, server, table)
    ensures Shows(Upsert(db, server, d, clock), server, table + ItemsOf(d))
  {
    UpsertIsSane(db, server, d, clock);
    var after := Upsert(db, server, d, clock);
    forall item ensures Lookup(after, server, item) == TableAt(table + ItemsOf(d), item) {
      assert Lookup(db, server, item) == TableAt(table, item);
      ItemUpserted(db, server, d, clock, item);
    }
  }

  lemma ItemUpserted(db: Database, server: int, d: Detail, clock: string, item: Item)
    requires Sane(db) && Extracted(d) && Sane(Upsert(db, server, d, clock))
    ensures Lookup(Upsert(db, server, d, clock), server, item)
         == if item in ItemsOf(d) then Some(ItemsOf(d)[item]) else Lookup(db, server, item)
  {
    FindAfterUpsert(db, server, d, clock, item.id);
    match item
    case RowOf(_) => RowUpserted(db, server, d, clock, item.id);
    case StatOf(_, p) => StatUpserted(db, server, d, clock, item.id, p);
  }

  lemma ItemsOfRow(d: Detail, e: string)
    ensures RowOf(e) in ItemsOf(d) <==> e == d.id
    ensures e == d.id ==> ItemsOf(d)[RowOf(e)] == Columns(d.columns)
  {
  }

  lemma ItemsOfStat(d: Detail, e: string, p: int)
    ensures StatOf(e, p) in ItemsOf(d) <==> e == d.id && p in d.players
    ensures e == d.id && p in d.players ==> ItemsOf(d)[StatOf(e, p)] == Numbers(d.players[p])
  {
  }

  lemma RowUpserted(db: Database, server: int, d: Detail, clock: string, e: string)
    requires Sane(db) && Extracted(d) && Sane(Upsert(db, server, d, clock))
    ensures Lookup(Upsert(db, server, d, clock), server, RowOf(e))
      == if e == d.id then Some(Columns(d.columns)) else Lookup(db, server, RowOf(e))
    ensures RowOf(e) in ItemsOf(d) <==> e == d.id
    ensures e == d.id ==> ItemsOf(d)[RowOf(e)] == Columns(d.columns)
  {
    FindAfterUpsert(db, server, d, clock, e);
    ItemsOfRow(d, e);
    OtherRowKept(db, server, d, clock, e);
  }

  // The row of another match is not the one an upsert writes.
  lemma OtherRowKept(db: Database, server: int, d: Detail, clock: string, e: string)
    requires Sane(db) && Extracted(d)
    ensures var found := FindRow(db.matches, server, e);
      e != d.id && found.Some? ==>
        found.value != TargetRow(db, server, d)
          && Upsert(db, server, d, clock).matches[found.value] == db.matches[found.value]
  {
    var found := FindRow(db.matches, server, d.id);
    if found.Some? {
      assert IsRow(db.matches, found.value, server, d.id);
    }
  }

  lemma StatUpserted(db: Database, server: int, d: Detail, clock: string, e: string, p: int)
    requires Sane(db) && Extracted(d) && Sane(Upsert(db, server, d, clock))
    ensures Lookup(Upsert(db, server, d, clock), server, StatOf(e, p))
         == if e == d.id && p in d.players then Some(Numbers(d.players[p])) else Lookup(db, server, StatOf(e, p))
    ensures StatOf(e, p) in ItemsOf(d) <==> e == d.id && p in d.players
    ensures e == d.id && p in d.players ==> ItemsOf(d)[StatOf(e, p)] == Numbers(d.players[p])
  {
    var id := TargetRow(db, server, d);
    FindAfterUpsert(db, server, d, clock, e);
    StatsAfterUpsert(db.stats, id, d.players);
    ItemsOfStat(d, e, p);
    OtherRowKept(db, server, d, clock, e);
    NewRowHasNoStats(db, server, d, p);
  }

  lemma NewRowHasNoStats(db: Database, server: int, d: Detail, p: int)
    requires Sane(db)
    ensures FindRow(db.matches, server, d.id).None? ==> (TargetRow(db, server, d), p) !in db.stats
  {
    assert (db.nextId, p) in db.stats ==> (db.nextId, p).0 in db.matches;
  }

  // ---------- Matches of one identity ----------

  ghost predicate IsListed(a: Archive, d: Detail) {
    exists p :: d in PageDetails(a, p)
  }

  // The normalisation would fold the two matches into one.
  predicate SharesIdentity(d: Detail, e: Detail, n: Normalizer)
    requires |d.columns| == COLUMNS && |e.columns| == COLUMNS
  {
    && d.columns[STARTED_AT] != Null && e.columns[STARTED_AT] != Null
    && TextOf(d.columns[STARTED_AT]) == TextOf(e.columns[STARTED_AT])
    && LabelOf(d.columns[MAP_PRETTY_NAME], d.columns[MAP_NAME], n)
      == LabelOf(e.columns[MAP_PRETTY_NAME], e.columns[MAP_NAME], n)
  }

  ghost predicate Extractable(a: Archive) {
    forall id :: Extracted(a.detail(id))
  }

  /** No two listed matches share their start and their map label. */
  ghost predicate NoSharedIdentity(a: Archive, n: Normalizer)
    requires Extractable(a)
  {
    forall x, y :: IsListed(a, a.detail(x)) && IsListed(a, a.detail(y)) && a.detail(x).id != a.detail(y).id ==>
      !SharesIdentity(a.detail(x), a.detail(y), n)
  }

  // The rows of the server are listed details.
  ghost predicate OfArchive(a: Archive, db: Database) {
    forall id :: id in db.matches && db.matches[id].server == a.server ==> IsRowOfDetail(a, db.matches[id])
  }

  ghost predicate IsRowOfDetail(a: Archive, row: MatchRow) {
    exists x :: IsListed(a, a.detail(x)) && a.detail(x).id == row.externalId && a.detail(x).columns == row.columns
  }

  lemma RowIsAlone(a: Archive, db: Database, n: Normalizer, id: int)
    requires Sane(db) && Extractable(a) && NoSharedIdentity(a, n) && OfArchive(a, db)
    requires id in db.matches && db.matches[id].server == a.server
    ensures Group(db.matches, id, n) == {id}
  {
    forall m | m in Group(db.matches, id, n) ensures m == id {
      if m != id {
        assert KeyOf(id, db.matches[id], n).Grouped? && db.matches[m].server == a.server;
        assert IsRowOfDetail(a, db.matches[id]) && IsRowOfDetail(a, db.matches[m]);
        var x :| IsListed(a, a.detail(x)) && a.detail(x).id == db.matches[id].externalId
          && a.detail(x).columns == db.matches[id].columns;
        var y :| IsListed(a, a.detail(y)) && a.detail(y).id == db.matches[m].externalId
          && a.detail(y).columns == db.matches[m].columns;
        assert IsRow(db.matches, id, a.server, a.detail(x).id) && IsOnlyRow(db.matches, id, a.server, a.detail(x).id);
        assert IsRow(db.matches, m, a.server, a.detail(y).id);
        assert SharesIdentity(a.detail(x), a.detail(y), n);
      }
    }
  }

  lemma LoneMatchStays(db: Database, n: Normalizer, id: int)
    requires Sane(db) && id in db.matches && Group(db.matches, id, n) == {id}
    ensures var after := Initialize(db, n);
      && id in after.matches && after.matches[id] == db.matches[id]
      && forall p ::
        ((id, p) in after.stats <==> (id, p) in db.stats)
          && ((id, p) in db.stats ==> after.stats[(id, p)] == db.stats[(id, p)])
  {
    var (matches, stats) := Normalize(db.matches, db.stats, n);
    NormalizeIsNormalized(db.matches, db.stats, n);
    PreferenceLeTotal(PreferenceOf(db.matches, db.stats, id, n), PreferenceOf(db.matches, db.stats, id, n));
    MatchIsKept(db.matches, db.stats, matches, stats, n, id);
    forall p
      ensures ((id, p) in stats <==> (id, p) in db.stats)
        && ((id, p) in db.stats ==> stats[(id, p)] == db.stats[(id, p)])
    {
      StatIsKept(db.matches, db.stats, matches, stats, n, id, p);
    }
  }

  lemma RowsAfterInitialize(db: Database, n: Normalizer)
    requires Sane(db)
    ensures var after := Initialize(db, n);
      forall id :: id in after.matches ==>
        id in db.matches && after.matches[id].server == db.matches[id].server
          && after.matches[id].externalId == db.matches[id].externalId
  {
    var (matches, stats) := Normalize(db.matches, db.stats, n);
    NormalizeIsNormalized(db.matches, db.stats, n);
    NormalizedRows(db.matches, db.stats, matches, stats, n);
  }

  /** Initialising the storage leaves the server as it is when no two of its matches share an identity. */
  lemma InitializeKeepsServer(a: Archive, db: Database, n: Normalizer)
    requires Sane(db) && Extractable(a) && NoSharedIdentity(a, n) && OfArchive(a, db)
    ensures OfArchive(a, Initialize(db, n))
    ensures forall item :: Lookup(Initialize(db, n), a.server, item) == Lookup(db, a.server, item)
  {
    var after := Initialize(db, n);
    InitializeIsSane(db, n);
    RowsAfterInitialize(db, n);
    forall id | id in db.matches && db.matches[id].server == a.server
      ensures id in after.matches && after.matches[id] == db.matches[id]
    {
      RowIsAlone(a, db, n, id);
      LoneMatchStays(db, n, id);
    }
    forall item ensures Lookup(after, a.server, item) == Lookup(db, a.server, item) {
      SameItem(a, db, after, n, item);
    }
  }

  lemma SameItem(a: Archive, db: Database, after: Database, n: Normalizer, item: Item)
    requires Sane(db) && Sane(after) && Extractable(a) && NoSharedIdentity(a, n) && OfArchive(a, db)
    requires after == Initialize(db, n)
    requires forall id :: id in after.matches ==> id in db.matches
    requires forall id :: id in after.matches ==>
      after.matches[id].server == db.matches[id].server && after.matches[id].externalId == db.matches[id].externalId
    requires forall id :: id in db.matches && db.matches[id].server == a.server ==>
      id in after.matches && after.matches[id] == db.matches[id]
    ensures Lookup(after, a.server, item) == Lookup(db, a.server, item)
  {
    var before := FindRow(db.matches, a.server, item.id);
    forall id ensures IsRow(after.matches, id, a.server, item.id) ==> IsRow(db.matches, id, a.server, item.id) {
    }
    if before.Some? {
      assert IsRow(after.matches, before.value, a.server, item.id);
      assert IsOnlyRow(after.matches, before.value, a.server, item.id);
      RowIsAlone(a, db, n, before.value);
      LoneMatchStays(db, n, before.value);
    }
  }

  // ---------- Without shared identities the initialisation is invisible ----------

  // The database shows what the plain store holds.
  ghost predicate Follows(a: Archive, db: Database, st: Store) {
    && Sane(db) && OfArchive(a, db) && Shows(db, a.server, st.table)
    && db.nextPage == st.nextPage && db.exhausted == st.exhausted
  }

  ghost predicate WritesListed(a: Archive, ws: seq<Write>) {
    forall w :: w in ws && w.Upserted? ==> IsListedDetail(a, w.d)
  }

  ghost predicate IsListedDetail(a: Archive, d: Detail) {
    exists x :: IsListed(a, a.detail(x)) && a.detail(x) == d
  }

  lemma InitializeFollows(a: Archive, n: Normalizer, db: Database, st: Store)
    requires Extractable(a) && NoSharedIdentity(a, n) && Follows(a, db, st)
    ensures Follows(a, Initialize(db, n), st)
  {
    InitializeIsSane(db, n);
    InitializeKeepsServer(a, db, n);
  }

  lemma UpsertIsOfArchive(a: Archive, db: Database, d: Detail, clock: string)
    requires Sane(db) && OfArchive(a, db) && IsListedDetail(a, d)
    ensures OfArchive(a, Upsert(db, a.server, d, clock))
  {
    var x :| IsListed(a, a.detail(x)) && a.detail(x) == d;
    var after, target := Upsert(db, a.server, d, clock), TargetRow(db, a.server, d);
    forall id | id in after.matches && after.matches[id].server == a.server
      ensures IsRowOfDetail(a, after.matches[id])
    {
      if id == target {
        assert a.detail(x).id == after.matches[id].externalId;
      } else {
        assert IsRowOfDetail(a, db.matches[id]);
      }
    }
  }

  lemma CommitFollows(a: Archive, db: Database, st: Store, w: Write, clock: string)
    requires Extractable(a) && Follows(a, db, st) && (w.Upserted? ==> IsListedDetail(a, w.d))
    ensures Follows(a, Commit(db, a.server, w, clock), Plain.Apply(st, w))
  {
    CommitIsSane(db, a.server, w, clock);
    if w.Upserted? {
      UpsertShows(db, a.server, w.d, clock, st.table);
      UpsertIsOfArchive(a, db, w.d, clock);
    }
  }

  lemma ListedAreExtracted(a: Archive, ws: seq<Write>)
    requires Extractable(a) && WritesListed(a, ws)
    ensures AllExtracted(ws)
  {
    forall w | w in ws && w.Upserted? ensures Extracted(w.d) {
      assert IsListedDetail(a, w.d);
    }
  }

  /** A run that stops after any number of commits shows what the plain run shows after half as many writes. */
  lemma {:induction false} StoppedFollows(a: Archive, n: Normalizer, db: Database, st: Store, ws: seq<Write>,
      clock: string, commits: nat)
    requires Extractable(a) && NoSharedIdentity(a, n) && Follows(a, db, st) && WritesListed(a, ws)
    ensures Follows(a, Stopped(db, a.server, n, ws, clock, commits), Interrupted(st, ws, commits / 2))
    decreases |ws|
  {
    if ws != [] && commits > 0 {
      InitializeFollows(a, n, db, st);
      if commits > 1 && !Refused(ws[0]) {
        var ready := Initialize(db, n);
        assert ws[0] in ws && forall w :: w in ws[1..] ==> w in ws;
        CommitFollows(a, ready, st, ws[0], clock);
        CommitIsSane(ready, a.server, ws[0], clock);
        StoppedFollows(a, n, Commit(ready, a.server, ws[0], clock), Plain.Apply(st, ws[0]), ws[1..], clock,
                       commits - 2);
        assert (commits - 2) / 2 == commits / 2 - 1;
      } else {
        assert commits == 1 ==> commits / 2 == 0;
      }
    }
  }

  lemma RunWritesAreListed(a: Archive, page: nat, limit: nat)
    ensures WritesListed(a, PagesWrites(a, page, limit, None)) && WritesListed(a, RunWrites(a, true, page, limit, None))
  {
    forall w | w in PagesWrites(a, page, limit, None) && w.Upserted? ensures IsListedDetail(a, w.d) {
      WritesAreUpserts(a, page, limit, None, w.d);
      var p := WritesFrom(a, page, limit, w.d);
      var x := DetailsAreOfArchive(a, p, w.d);
      assert IsListed(a, a.detail(x));
    }
  }

  // ---------- Interrupted and resumed bootstraps ----------

  // A run stops after `commits` commits; it resumes from the checkpoint or starts at a given page.
  datatype Attempt = Attempt(startPage: Option<int>, limit: nat, commits: nat, clock: string)

  const EMPTY_DATABASE := Database(map[], map[], 1, 1, false)

  function StartOf(t: Attempt, db: Database): nat {
    StartPage(t.startPage, true, db.nextPage)
  }

  lemma ArchiveWritesAreExtracted(a: Archive, page: nat, limit: nat)
    requires Extractable(a)
    ensures AllExtracted(PagesWrites(a, page, limit, None)) && AllExtracted(RunWrites(a, true, page, limit, None))
  {
    RunWritesAreListed(a, page, limit);
    ListedAreExtracted(a, PagesWrites(a, page, limit, None));
    ListedAreExtracted(a, RunWrites(a, true, page, limit, None));
  }

  ghost function AfterAttempts(a: Archive, n: Normalizer, ts: seq<Attempt>): (db: Database)
    requires Extractable(a)
    ensures Sane(db)
  {
    if ts == [] then EMPTY_DATABASE
    else
      var db, t := AfterAttempts(a, n, ts[..|ts| - 1]), ts[|ts| - 1];
      ArchiveWritesAreExtracted(a, StartOf(t, db), t.limit);
      StoppedIsSane(db, a.server, n, RunWrites(a, true, StartOf(t, db), t.limit, None), t.clock, t.commits);
      Stopped(db, a.server, n, RunWrites(a, true, StartOf(t, db), t.limit, None), t.clock, t.commits)
  }

  // No attempt starts beyond the checkpoint it finds, or before it unless the archive is consistent.
  ghost predicate NeverSkips(a: Archive, n: Normalizer, ts: seq<Attempt>)
    requires Extractable(a)
  {
    forall i :: 0 <= i < |ts| ==> MaySkipNothing(a, AfterAttempts(a, n, ts[..i]), ts[i])
  }

  ghost predicate MaySkipNothing(a: Archive, db: Database, t: Attempt) {
    StartOf(t, db) == db.nextPage || (Consistent(a) && StartOf(t, db) <= db.nextPage)
  }

  /** A checkpoint that can be trusted: every item no page from it on writes is as it will be in the end. */
  ghost predicate SoundDatabase(a: Archive, db: Database) {
    && 1 <= db.nextPage <= |a.pages| + 1
    && (db.exhausted ==> PageAt(a, db.nextPage) == [])
    && forall item :: !WrittenFrom(a, db.nextPage, item) ==> Lookup(db, a.server, item) == TableAt(FullTable(a), item)
  }

  // The database shows the whole archive and nothing else of the server.
  ghost predicate ShowsAll(a: Archive, db: Database) {
    Shows(db, a.server, FullTable(a))
  }

  lemma SoundFollows(a: Archive, db: Database, st: Store)
    requires Follows(a, db, st)
    ensures SoundDatabase(a, db) <==> Sound(a, st)
  {
    forall item
      ensures Lookup(db, a.server, item) == TableAt(FullTable(a), item) <==> Plain.AgreeAt(st.table, FullTable(a), item)
    {
      assert Lookup(db, a.server, item) == TableAt(st.table, item);
    }
  }

  // The items a database shows of a server, as a table.
  lemma ShownTable(db: Database, server: int) returns (table: Table)
    requires Sane(db)
    ensures Shows(db, server, table)
  {
    var rows := set id | id in db.matches && db.matches[id].server == server :: RowOf(db.matches[id].externalId);
    var stats := set k | k in db.stats && k.0 in db.matches
      && db.matches[k.0].server == server :: StatOf(db.matches[k.0].externalId, k.1);
    var items := rows + stats;
    table := map item | item in items && Lookup(db, server, item).Some? :: Lookup(db, server, item).value;
    forall item ensures Lookup(db, server, item) == TableAt(table, item) {
      var found := FindRow(db.matches, server, item.id);
      if found.Some? {
        assert RowOf(db.matches[found.value].externalId) in rows;
        if item.StatOf? && (found.value, item.player) in db.stats {
          assert (found.value, item.player).0 == found.value;
          assert StatOf(db.matches[found.value].externalId, item.player) in stats;
        }
      }
    }
  }

  /**
   Wherever a bootstrap stops, everything below its checkpoint is in the tables for good, and an exhausted
   archive is.
   */
  lemma RunKeepsSound(a: Archive, n: Normalizer, db: Database, start: nat, limit: nat, clock: string, commits: nat)
    requires Contiguous(a) && Extractable(a) && NoSharedIdentity(a, n) && Sane(db) && OfArchive(a, db)
    requires SoundDatabase(a, db)
    requires 1 <= start <= db.nextPage && (start == db.nextPage || Consistent(a))
    ensures SoundDatabase(a, Stopped(db, a.server, n, RunWrites(a, true, start, limit, None), clock, commits))
  {
    var table := ShownTable(db, a.server);
    var st, ws := Store(table, db.nextPage, db.exhausted), RunWrites(a, true, start, limit, None);
    ArchiveWritesAreExtracted(a, start, limit);
    RunWritesAreListed(a, start, limit);
    SoundFollows(a, db, st);
    Plain.RunKeepsSound(a, st, start, limit, commits / 2);
    StoppedFollows(a, n, db, st, ws, clock, commits);
    SoundFollows(a, Stopped(db, a.server, n, ws, clock, commits), Interrupted(st, ws, commits / 2));
  }

  function AsPlain(t: Attempt): PlainAttempt {
    PlainAttempt(t.startPage, t.limit, t.commits / 2)
  }

  function PlainAttempts(ts: seq<Attempt>): seq<PlainAttempt> {
    seq(|ts|, i requires 0 <= i < |ts| => AsPlain(ts[i]))
  }

  lemma {:induction false} AttemptsFollow(a: Archive, n: Normalizer, ts: seq<Attempt>)
    requires Extractable(a) && NoSharedIdentity(a, n)
    ensures Follows(a, AfterAttempts(a, n, ts), Plain.AfterAttempts(a, PlainAttempts(ts)))
  {
    if ts == [] {
      assert PlainAttempts(ts) == [];
      assert Shows(EMPTY_DATABASE, a.server, map[]);
    } else {
      var front, t := ts[..|ts| - 1], ts[|ts| - 1];
      AttemptsFollow(a, n, front);
      assert PlainAttempts(ts)[..|ts| - 1] == PlainAttempts(front);
      var db, st := AfterAttempts(a, n, front), Plain.AfterAttempts(a, PlainAttempts(front));
      ArchiveWritesAreExtracted(a, StartOf(t, db), t.limit);
      RunWritesAreListed(a, StartOf(t, db), t.limit);
      StoppedFollows(a, n, db, st, RunWrites(a, true, StartOf(t, db), t.limit, None), t.clock, t.commits);
    }
  }

  lemma PlainNeverSkips(a: Archive, n: Normalizer, ts: seq<Attempt>)
    requires Extractable(a) && NoSharedIdentity(a, n) && NeverSkips(a, n, ts)
    ensures Plain.NeverSkips(a, PlainAttempts(ts))
  {
    forall i | 0 <= i < |ts| ensures var st := Plain.AfterAttempts(a, PlainAttempts(ts)[..i]);
      Plain.StartOf(PlainAttempts(ts)[i], st) == st.nextPage
        || (Consistent(a) && Plain.StartOf(PlainAttempts(ts)[i], st) <= st.nextPage)
    {
      AttemptsFollow(a, n, ts[..i]);
      assert PlainAttempts(ts)[..i] == PlainAttempts(ts[..i]);
      assert MaySkipNothing(a, AfterAttempts(a, n, ts[..i]), ts[i]);
    }
  }

  /** After any interruptions, an archive recorded as exhausted is in the tables exactly as one clean pass leaves it. */
  lemma ExhaustedMeansComplete(a: Archive, n: Normalizer, ts: seq<Attempt>)
    requires Contiguous(a) && Extractable(a) && NoSharedIdentity(a, n) && NeverSkips(a, n, ts)
    requires AfterAttempts(a, n, ts).exhausted
    ensures ShowsAll(a, AfterAttempts(a, n, ts)) && PageAt(a, AfterAttempts(a, n, ts).nextPage) == []
  {
    AttemptsFollow(a, n, ts);
    PlainNeverSkips(a, n, ts);
    Plain.ExhaustedMeansComplete(a, PlainAttempts(ts));
  }

  lemma PlainAttemptsGrow(ts: seq<Attempt>, last: Attempt)
    ensures PlainAttempts(ts + [last]) == PlainAttempts(ts) + [AsPlain(last)]
  {
  }

  lemma ResumedExhausts(a: Archive, n: Normalizer, ts: seq<Attempt>, last: Attempt)
    requires Contiguous(a) && Extractable(a) && NoSharedIdentity(a, n) && NeverSkips(a, n, ts + [last])
    requires last.startPage.None?
    requires AfterAttempts(a, n, ts).nextPage + last.limit > |a.pages| + 1
    requires Completes(RunWrites(a, true, AfterAttempts(a, n, ts).nextPage, last.limit, None), last.commits / 2)
    ensures Plain.AfterAttempts(a, PlainAttempts(ts + [last])).exhausted
  {
    AttemptsFollow(a, n, ts);
    PlainNeverSkips(a, n, ts + [last]);
    PlainAttemptsGrow(ts, last);
    Plain.ResumingCompletes(a, PlainAttempts(ts), AsPlain(last));
  }

  /**
   A resumed bootstrap that gets through ends, after any interruptions before it, with the tables of one clean
   pass.
   */
  lemma ResumingCompletes(a: Archive, n: Normalizer, ts: seq<Attempt>, last: Attempt)
    requires Contiguous(a) && Extractable(a) && NoSharedIdentity(a, n) && NeverSkips(a, n, ts + [last])
    requires last.startPage.None?
    requires AfterAttempts(a, n, ts).nextPage + last.limit > |a.pages| + 1
    requires Completes(RunWrites(a, true, AfterAttempts(a, n, ts).nextPage, last.limit, None), last.commits / 2)
    ensures AfterAttempts(a, n, ts + [last]).exhausted && ShowsAll(a, AfterAttempts(a, n, ts + [last]))
  {
    ResumedExhausts(a, n, ts, last);
    AttemptsFollow(a, n, ts + [last]);
    ExhaustedMeansComplete(a, n, ts + [last]);
  }

  /** A start page given by hand is safe exactly when it does not lie beyond the checkpoint. */
  lemma GivenStartIsSoundIff(a: Archive, n: Normalizer, db: Database, start: nat, limit: nat, clock: string,
                             commits: nat)
    requires Contiguous(a) && Extractable(a) && NoSharedIdentity(a, n) && Consistent(a) && EachPageMatters(a)
    requires 1 <= db.nextPage <= |a.pages| && 1 <= start && limit > 0 && Follows(a, db, CheckpointAt(a, db.nextPage))
    requires Completes(PagesWrites(a, start, limit, None), commits / 2)
    ensures SoundDatabase(a, Stopped(db, a.server, n, PagesWrites(a, start, limit, None), clock, commits))
      <==> start <= db.nextPage
  {
    var ws, st := PagesWrites(a, start, limit, None), CheckpointAt(a, db.nextPage);
    ArchiveWritesAreExtracted(a, start, limit);
    RunWritesAreListed(a, start, limit);
    StoppedFollows(a, n, db, st, ws, clock, commits);
    Plain.GivenStartIsSoundIff(a, db.nextPage, start, limit, commits / 2);
    SoundFollows(a, Stopped(db, a.server, n, ws, clock, commits), Interrupted(st, ws, commits / 2));
  }

  // ---------- With shared identities the import is never complete ----------

  ghost predicate KeysDistinct(matches: Matches, n: Normalizer)
    requires forall m :: m in matches ==> |matches[m].columns| == COLUMNS
  {
    forall i, j :: i in matches && j in matches && KeyOf(i, matches[i], n) == KeyOf(j, matches[j], n) ==> i == j
  }

  lemma InitializeSeparates(db: Database, n: Normalizer)
    requires Sane(db)
    ensures WellFormed(Initialize(db, n).matches, Initialize(db, n).stats) && KeysDistinct(Initialize(db, n).matches, n)
  {
    InitializeIsSane(db, n);
    var (matches, stats) := Normalize(db.matches, db.stats, n);
    NormalizeIsNormalized(db.matches, db.stats, n);
    NoLabelsAtRisk(db, n);
    forall i, j | i in matches && j in matches && KeyOf(i, matches[i], n) == KeyOf(j, matches[j], n) ensures i == j {
      DistinctKeys(db.matches, db.stats, matches, stats, n, i, j);
    }
  }

  lemma NoLabelsAtRisk(db: Database, n: Normalizer)
    requires Sane(db)
    ensures LabelsHold(db.matches, n)
  {
    forall t | t in db.matches ensures !Blank(db.matches[t]) {
    }
  }

  ghost predicate FinishesLast(ws: seq<Write>) {
    forall i :: 0 <= i < |ws| - 1 ==> !ws[i].Finished?
  }

  lemma FinishesLastAfterPage(a: Archive, page: nat, rest: seq<Write>)
    requires FinishesLast(rest)
    ensures FinishesLast(PageWrites(a, page, None) + rest)
  {
    var ws := PageWrites(a, page, None);
    forall i | 0 <= i < |ws + rest| - 1 ensures !(ws + rest)[i].Finished? {
      if i >= |ws| {
        assert (ws + rest)[i] == rest[i - |ws|];
      }
    }
  }

  lemma {:induction false} PagesFinishLast(a: Archive, page: nat, limit: nat, ws: seq<Write>)
    requires ws == PagesWrites(a, page, limit, None)
    ensures FinishesLast(ws)
    decreases limit
  {
    if limit > 0 && PageAt(a, page) != [] {
      var rest := PagesWrites(a, page + 1, limit - 1, None);
      PagesFinishLast(a, page + 1, limit - 1, rest);
      NoCutoffGoesOn(a, page, limit);
      FinishesLastAfterPage(a, page, rest);
    }
  }

  // The rows are separate whenever the archive is recorded as exhausted.
  ghost predicate SeparateWhenExhausted(db: Database, n: Normalizer) {
    db.exhausted ==> WellFormed(db.matches, db.stats) && KeysDistinct(db.matches, n)
  }

  lemma {:induction false} StoppedSeparates(db: Database, server: int, n: Normalizer, ws: seq<Write>, clock: string,
      commits: nat)
    requires Sane(db) && AllExtracted(ws) && FinishesLast(ws) && !db.exhausted
    ensures SeparateWhenExhausted(Stopped(db, server, n, ws, clock, commits), n)
    decreases |ws|
  {
    if ws != [] && commits > 1 && !Refused(ws[0]) {
      var ready := Initialize(db, n);
      InitializeIsSane(db, n);
      InitializeSeparates(db, n);
      assert ws[0] in ws;
      CommitIsSane(ready, server, ws[0], clock);
      if ws[0].Finished? {
        assert ws[1..] == [];
      } else {
        assert FinishesLast(ws[1..]);
        StoppedSeparates(Commit(ready, server, ws[0], clock), server, n, ws[1..], clock, commits - 2);
      }
    }
  }

  lemma RunSeparates(a: Archive, n: Normalizer, db: Database, page: nat, limit: nat, clock: string, commits: nat)
    requires Extractable(a) && Sane(db) && SeparateWhenExhausted(db, n)
    ensures SeparateWhenExhausted(Stopped(db, a.server, n, RunWrites(a, true, page, limit, None), clock, commits), n)
  {
    var pages := PagesWrites(a, page, limit, None);
    ArchiveWritesAreExtracted(a, page, limit);
    PagesFinishLast(a, page, limit, pages);
    StartedSeparates(db, a.server, n, pages, clock, commits);
  }

  lemma StartedSeparates(db: Database, server: int, n: Normalizer, ws: seq<Write>, clock: string, commits: nat)
    requires Sane(db) && AllExtracted(ws) && FinishesLast(ws) && SeparateWhenExhausted(db, n)
    ensures SeparateWhenExhausted(Stopped(db, server, n, [Started(true)] + ws, clock, commits), n)
  {
    var ready := Initialize(db, n);
    InitializeIsSane(db, n);
    InitializeSeparates(db, n);
    if commits > 1 {
      CommitIsSane(ready, server, Started(true), clock);
      OneCommit(db, server, n, Started(true), ws, clock, commits);
      StoppedSeparates(Commit(ready, server, Started(true), clock), server, n, ws, clock, commits - 2);
    }
  }

  lemma {:induction false} AttemptsSeparate(a: Archive, n: Normalizer, ts: seq<Attempt>)
    requires Extractable(a)
    ensures SeparateWhenExhausted(AfterAttempts(a, n, ts), n)
  {
    if ts != [] {
      var front, t := ts[..|ts| - 1], ts[|ts| - 1];
      AttemptsSeparate(a, n, front);
      var db := AfterAttempts(a, n, front);
      RunSeparates(a, n, db, StartOf(t, db), t.limit, t.clock, t.commits);
    }
  }

  // In a database that shows everything each listed match has a row of its own.
  lemma ListedRow(a: Archive, db: Database, x: string) returns (id: int)
    requires Sane(db) && Consistent(a) && ShowsAll(a, db) && IsListed(a, a.detail(x))
    ensures IsRow(db.matches, id, a.server, a.detail(x).id) && db.matches[id].columns == a.detail(x).columns
  {
    var d := a.detail(x);
    var p :| d in PageDetails(a, p);
    assert PageAt(a, p) != [];
    ItemsOfRow(d, d.id);
    ConsistentTable(a, p, d, RowOf(d.id), |a.pages|);
    assert Lookup(db, a.server, RowOf(d.id)) == TableAt(FullTable(a), RowOf(d.id));
    id := FindRow(db.matches, a.server, d.id).value;
  }

  lemma TwoRowsOfOneKey(a: Archive, n: Normalizer, db: Database, x: string, y: string) returns (i: int, j: int)
    requires Extractable(a) && Consistent(a) && Sane(db) && ShowsAll(a, db)
    requires IsListed(a, a.detail(x)) && IsListed(a, a.detail(y)) && a.detail(x).id != a.detail(y).id
    requires SharesIdentity(a.detail(x), a.detail(y), n)
    ensures i in db.matches && j in db.matches && i != j && KeyOf(i, db.matches[i], n) == KeyOf(j, db.matches[j], n)
  {
    i := ListedRow(a, db, x);
    j := ListedRow(a, db, y);
  }

  lemma SharedIdentityIsFolded(a: Archive, n: Normalizer, db: Database, x: string, y: string)
    requires Extractable(a) && Consistent(a) && Sane(db) && KeysDistinct(db.matches, n)
    requires IsListed(a, a.detail(x)) && IsListed(a, a.detail(y)) && a.detail(x).id != a.detail(y).id
    requires SharesIdentity(a.detail(x), a.detail(y), n)
    ensures !ShowsAll(a, db)
  {
    if ShowsAll(a, db) {
      var i, j := TwoRowsOfOneKey(a, n, db, x, y);
    }
  }

  /**
   However often a bootstrap is interrupted, the exhausted archive is completely in the tables exactly
   when no two of its matches share their start and map label.
   */
  lemma ExhaustedIsCompleteIff(a: Archive, n: Normalizer, ts: seq<Attempt>)
    requires Contiguous(a) && Extractable(a) && Consistent(a) && NeverSkips(a, n, ts)
    requires AfterAttempts(a, n, ts).exhausted
    ensures ShowsAll(a, AfterAttempts(a, n, ts)) <==> NoSharedIdentity(a, n)
  {
    AttemptsSeparate(a, n, ts);
    if NoSharedIdentity(a, n) {
      ExhaustedMeansComplete(a, n, ts);
    } else {
      var x, y :| IsListed(a, a.detail(x)) && IsListed(a, a.detail(y)) && a.detail(x).id != a.detail(y).id
        && SharesIdentity(a.detail(x), a.detail(y), n);
      SharedIdentityIsFolded(a, n, AfterAttempts(a, n, ts), x, y);
    }
  }

  // ---------- The import step by step ----------

  /**
   The states of a run before its writes `ws` and after the first `done` of them, each with its initialisation
   before it.
   */
  ghost predicate IsTrail(trail: seq<Database>, ws: seq<Write>, done: nat, server: int, n: Normalizer, clock: string) {
    && |trail| == done + 1 && done <= |ws|
    && (forall i :: 0 <= i < |trail| ==> Sane(trail[i]))
    && forall i :: 0 <= i < done ==> Leads(trail[i], trail[i + 1], server, n, ws[i], clock)
  }

  ghost predicate Leads(db: Database, next: Database, server: int, n: Normalizer, w: Write, clock: string) {
    Sane(db) && !Refused(w) && (w.Upserted? ==> Extracted(w.d)) && next == Commit(Initialize(db, n), server, w, clock)
  }

  lemma TrailGrows(trail: seq<Database>, ws: seq<Write>, done: nat, server: int, n: Normalizer, clock: string,
                   next: Database)
    requires IsTrail(trail, ws, done, server, n, clock) && done < |ws|
    requires Leads(trail[done], next, server, n, ws[done], clock)
    ensures IsTrail(trail + [next], ws, done + 1, server, n, clock)
  {
    LeadsToSane(trail[done], next, server, n, ws[done], clock);
    var grown := trail + [next];
    forall i | 0 <= i < done + 1 ensures Leads(grown[i], grown[i + 1], server, n, ws[i], clock) {
      if i < done {
        assert grown[i] == trail[i] && grown[i + 1] == trail[i + 1];
        assert Leads(trail[i], trail[i + 1], server, n, ws[i], clock);
      }
    }
  }

  lemma LeadsToSane(db: Database, next: Database, server: int, n: Normalizer, w: Write, clock: string)
    requires Leads(db, next, server, n, w, clock)
    ensures Sane(next)
  {
    InitializeIsSane(db, n);
    CommitIsSane(Initialize(db, n), server, w, clock);
  }

  // What the rest of the run leaves, seen from the state after `i` writes.
  ghost function SeenFrom(trail: seq<Database>, ws: seq<Write>, server: int, n: Normalizer,
                          clock: string): (nat, nat) -> Database
    requires trail != []
  {
    (i: nat, commits: nat) => if i < |trail| && i <= |ws| then Stopped(trail[i], server, n, ws[i..], clock, commits)
      else trail[0]
  }

  lemma StepOfTrail(trail: seq<Database>, ws: seq<Write>, done: nat, server: int, n: Normalizer, clock: string, i: nat,
                    commits: nat)
    requires IsTrail(trail, ws, done, server, n, clock) && i < done
    ensures Stopped(trail[i], server, n, ws[i..], clock, commits + 2)
      == Stopped(trail[i + 1], server, n, ws[i + 1..], clock, commits)
  {
    assert Leads(trail[i], trail[i + 1], server, n, ws[i], clock);
    assert ws[i..] == [ws[i]] + ws[i + 1..];
    OneCommit(trail[i], server, n, ws[i], ws[i + 1..], clock, commits + 2);
  }

  ghost predicate StepsOn<T>(seen: (nat, nat) -> T, i: nat, commits: nat) {
    seen(i, commits + 2) == seen(i + 1, commits)
  }

  lemma {:induction false} StepsToEnd<T>(seen: (nat, nat) -> T, k: nat, commits: nat)
    requires forall i: nat, c: nat :: i < k ==> StepsOn(seen, i, c)
    ensures seen(0, commits + 2 * k) == seen(k, commits)
  {
    if k > 0 {
      StepsToEnd(seen, k - 1, commits + 2);
      assert StepsOn(seen, k - 1, commits);
    }
  }

  // Along the trail a run leaves the same, with the writes and the commits that are left.
  lemma TrailIsStopped(trail: seq<Database>, ws: seq<Write>, done: nat, server: int, n: Normalizer, clock: string,
                       commits: nat)
    requires IsTrail(trail, ws, done, server, n, clock)
    ensures Stopped(trail[0], server, n, ws, clock, commits + 2 * done)
      == Stopped(trail[done], server, n, ws[done..], clock, commits)
  {
    var seen := SeenFrom(trail, ws, server, n, clock);
    forall i: nat, c: nat | i < done ensures StepsOn(seen, i, c) {
      TrailStepsOn(trail, ws, done, server, n, clock, i, c);
    }
    StepsToEnd(seen, done, commits);
    assert ws[0..] == ws;
  }

  lemma TrailStepsOn(trail: seq<Database>, ws: seq<Write>, done: nat, server: int, n: Normalizer, clock: string, i: nat,
                     commits: nat)
    requires IsTrail(trail, ws, done, server, n, clock) && i < done
    ensures StepsOn(SeenFrom(trail, ws, server, n, clock), i, commits)
  {
    StepOfTrail(trail, ws, done, server, n, clock, i, commits);
  }

  lemma TrailIsNotRefused(trail: seq<Database>, ws: seq<Write>, done: nat, server: int, n: Normalizer, clock: string)
    requires IsTrail(trail, ws, done, server, n, clock)
    ensures forall i :: 0 <= i < done ==> !Refused(ws[i])
  {
    forall i | 0 <= i < done ensures !Refused(ws[i]) {
      assert Leads(trail[i], trail[i + 1], server, n, ws[i], clock);
    }
  }

  // Writing the statistics one by one writes them all.
  lemma StatWritten(stats: Stats, id: int, players: map<int, StatRow>, left: set<int>, p: int)
    requires p in left && p in players
    ensures StatsWith(stats, id, players - left)[(id, p) := players[p]] == StatsWith(stats, id, players - (left - {p}))
  {
    var part, more := players - left, players - (left - {p});
    StatsAfterUpsert(stats, id, part);
    StatsAfterUpsert(stats, id, more);
    SameStats(StatsWith(stats, id, part)[(id, p) := players[p]], StatsWith(stats, id, more));
  }

  lemma NothingWritten(stats: Stats, id: int, players: map<int, StatRow>)
    ensures StatsWith(stats, id, players - players.Keys) == stats
  {
    assert players - players.Keys == map[];
    StatsAfterUpsert(stats, id, map[]);
    SameStats(StatsWith(stats, id, map[]), stats);
  }

  lemma SameStats(s: Stats, t: Stats)
    requires forall i, p :: (i, p) in s <==> (i, p) in t
    requires forall i, p :: (i, p) in s && (i, p) in t ==> s[(i, p)] == t[(i, p)]
    ensures s == t
  {
    forall k ensures k in s <==> k in t {
      var (i, p) := k;
      assert (i, p) in s <==> (i, p) in t;
    }
    forall k | k in s ensures s[k] == t[k] {
      var (i, p) := k;
      assert (i, p) in s;
    }
  }

  // The plan of a run has the writes `ws` at position `at`.
  ghost predicate Plans(plan: seq<Write>, at: nat, ws: seq<Write>) {
    at + |ws| <= |plan| && forall i :: 0 <= i < |ws| ==> plan[at + i] == ws[i]
  }

  // From `at` on there is just the end of the run.
  ghost predicate PlansEnd(plan: seq<Write>, at: nat, archiveExhausted: bool) {
    Plans(plan, at, [Finished(archiveExhausted)]) && at + 1 == |plan|
  }

  // From `at` on there are the pages from `page` on, and then the end.
  ghost predicate PlansPages(plan: seq<Write>, at: nat, a: Archive, page: nat, limit: nat, cutoff: Option<int>)
    decreases limit
  {
    if limit == 0 || PageAt(a, page) == [] then PlansEnd(plan, at, limit > 0)
    else
      && Plans(plan, at, PageWrites(a, page, cutoff))
      && var next := at + |PageWrites(a, page, cutoff)|;
        if StopsAfter(PageAt(a, page), cutoff) then PlansEnd(plan, next, false)
          else PlansPages(plan, next, a, page + 1, limit - 1, cutoff)
  }

  lemma PlansParts(plan: seq<Write>, at: nat, ws: seq<Write>, more: seq<Write>)
    requires Plans(plan, at, ws + more)
    ensures Plans(plan, at, ws) && Plans(plan, at + |ws|, more)
  {
    forall i | 0 <= i < |ws| ensures plan[at + i] == ws[i] {
      assert (ws + more)[i] == ws[i];
    }
    forall i | 0 <= i < |more| ensures plan[at + |ws| + i] == more[i] {
      assert (ws + more)[|ws| + i] == more[i];
    }
  }

  // The writes after those of a page.
  function AfterPage(a: Archive, page: nat, limit: nat, cutoff: Option<int>): seq<Write>
    requires limit > 0
  {
    if StopsAfter(PageAt(a, page), cutoff) then [Finished(false)] else PagesWrites(a, page + 1, limit - 1, cutoff)
  }

  lemma PageIsPlanned(plan: seq<Write>, at: nat, a: Archive, page: nat, limit: nat, cutoff: Option<int>,
                      ws: seq<Write>, more: seq<Write>, next: nat)
    requires ws == PagesWrites(a, page, limit, cutoff) && Plans(plan, at, ws) && at + |ws| == |plan|
    requires limit > 0 && PageAt(a, page) != [] && more == AfterPage(a, page, limit, cutoff)
      && next == at + |PageWrites(a, page, cutoff)|
    ensures Plans(plan, at, PageWrites(a, page, cutoff)) && Plans(plan, next, more) && next + |more| == |plan|
  {
    PlansParts(plan, at, PageWrites(a, page, cutoff), more);
  }

  lemma PlansOnePage(plan: seq<Write>, at: nat, a: Archive, page: nat, limit: nat, cutoff: Option<int>, next: nat)
    requires limit > 0 && PageAt(a, page) != [] && Plans(plan, at, PageWrites(a, page, cutoff))
      && next == at + |PageWrites(a, page, cutoff)|
    requires if StopsAfter(PageAt(a, page), cutoff) then PlansEnd(plan, next, false)
      else PlansPages(plan, next, a, page + 1, limit - 1, cutoff)
    ensures PlansPages(plan, at, a, page, limit, cutoff)
  {
  }

  lemma {:induction false} PagesArePlanned(plan: seq<Write>, at: nat, a: Archive, page: nat, limit: nat,
      cutoff: Option<int>, ws: seq<Write>)
    requires ws == PagesWrites(a, page, limit, cutoff) && Plans(plan, at, ws) && at + |ws| == |plan|
    ensures PlansPages(plan, at, a, page, limit, cutoff)
    decreases limit
  {
    if limit > 0 && PageAt(a, page) != [] {
      var next, more := at + |PageWrites(a, page, cutoff)|, AfterPage(a, page, limit, cutoff);
      PageIsPlanned(plan, at, a, page, limit, cutoff, ws, more, next);
      if !StopsAfter(PageAt(a, page), cutoff) {
        PagesArePlanned(plan, next, a, page + 1, limit - 1, cutoff, more);
      }
      PlansOnePage(plan, at, a, page, limit, cutoff, next);
    }
  }

  lemma RunIsPlanned(a: Archive, bootstrap: bool, start: nat, limit: nat, cutoff: Option<int>)
    ensures Plans(RunWrites(a, bootstrap, start, limit, cutoff), 0, [Started(bootstrap)])
    ensures PlansPages(RunWrites(a, bootstrap, start, limit, cutoff), 1, a, start, limit, cutoff)
  {
    var ws := PagesWrites(a, start, limit, cutoff);
    PlansParts([Started(bootstrap)] + ws, 0, [Started(bootstrap)], ws);
    PagesArePlanned([Started(bootstrap)] + ws, 1, a, start, limit, cutoff, ws);
  }

  /** The storage and the progress row of one server; `commits` more commits get through. */
  class BackfillStore {
    const server: int
    const clock: string
    const storage: HistoricalStore
    var nextId: int
    var nextPage: nat
    var exhausted: bool
    var commits: nat

    // The run: its writes, how many are made, the states between them, and whether the next one has been initialised.
    ghost var plan: seq<Write>
    ghost var done: nat
    ghost var trail: seq<Database>
    ghost var prepared: bool
    ghost var budget: nat
    ghost var began: Database

    ghost function State(): Database
      reads this, storage
    {
      Database(storage.matches, storage.stats, nextId, nextPage, exhausted)
    }

    ghost predicate Valid()
      reads this, storage
    {
      && IsTrail(trail, plan, done, server, storage.n, clock) && trail[0] == began
      && State() == (if prepared then Initialize(trail[done], storage.n) else trail[done])
      && budget == 2 * done + commits + if prepared then 1 else 0
    }

    // The run is at one of the two ends of a write, or has stopped in it.
    ghost predicate Reached(at: nat, ok: bool)
      reads this
    {
      if ok then !prepared && done == at else Halted()
    }

    ghost predicate Halted()
      reads this
    {
      done < |plan| && (commits == 0 || (prepared && Refused(plan[done])))
    }

    constructor (server: int, clock: string, storage: HistoricalStore, nextId: int, nextPage: nat, exhausted: bool,
                 commits: nat)
      ensures State() == Database(storage.matches, storage.stats, nextId, nextPage, exhausted)
      ensures this.server == server && this.clock == clock && this.storage == storage && this.commits == commits
    {
      this.server, this.clock, this.storage := server, clock, storage;
      this.nextId, this.nextPage, this.exhausted, this.commits := nextId, nextPage, exhausted, commits;
    }

    // initialize_historical_storage, and whether another commit gets through.
    method Prepare() returns (ok: bool)
      requires Valid() && !prepared
      modifies this`commits, this`prepared, storage
      ensures Valid() && (ok ==> commits > 0 && prepared) && (!ok ==> commits == 0)
    {
      if commits == 0 {
        return false;
      }
      assert Sane(trail[done]);
      storage.NormalizeIdentities();
      commits, prepared := commits - 1, true;
      return commits > 0;
    }

    // The prepared write is in.
    ghost method Record()
      requires IsTrail(trail, plan, done, server, storage.n, clock) && trail[0] == began && done < |plan|
      requires Leads(trail[done], State(), server, storage.n, plan[done], clock)
      requires budget == 2 * done + commits + 2
      modifies this`prepared, this`done, this`trail
      ensures Valid() && !prepared && done == old(done) + 1
    {
      TrailGrows(trail, plan, done, server, storage.n, clock, State());
      prepared, done, trail := false, done + 1, trail + [State()];
    }

    // SELECT id, and the INSERT or UPDATE of the row.
    method WriteRow(d: Detail) returns (id: int)
      requires Sane(State()) && Extracted(d)
      modifies this`nextId, storage`matches
      ensures id == old(TargetRow(State(), server, d))
      ensures storage.matches == old(storage.matches)[id := MatchRow(server, d.id, d.columns, clock)]
      ensures nextId == if id == old(nextId) then old(nextId) + 1 else old(nextId)
    {
      var found := set i | i in storage.matches && storage.matches[i].server == server
        && storage.matches[i].externalId == d.id;
      id := nextId;
      if found != {} {
        id := PickAny(found);
        assert IsRow(storage.matches, id, server, d.id) && IsOnlyRow(storage.matches, id, server, d.id);
      } else {
        assert forall i :: IsRow(storage.matches, i, server, d.id) ==> i in found;
        nextId := nextId + 1;
      }
      storage.matches := storage.matches[id := MatchRow(server, d.id, d.columns, clock)];
    }

    // The loop over the players of the payload.
    method WriteStats(id: int, players: map<int, StatRow>)
      modifies storage`stats
      ensures storage.stats == StatsWith(old(storage.stats), id, players)
    {
      var left := players.Keys;
      NothingWritten(storage.stats, id, players);
      while left != {}
        invariant left <= players.Keys
        invariant storage.stats == StatsWith(old(storage.stats), id, players - left)
        decreases |left|
      {
        var p := PickAny(left);
        StatWritten(old(storage.stats), id, players, left, p);
        storage.stats := storage.stats[(id, p) := players[p]];
        left := left - {p};
      }
      assert players - left == players;
    }

    method WriteMatch(d: Detail)
      requires Sane(State()) && Extracted(d)
      modifies this`nextId, storage
      ensures State() == Upsert(old(State()), server, d, clock)
    {
      var id := WriteRow(d);
      WriteStats(id, d.players);
    }

    /** upsert_historical_match; a match without an id is refused after the initialisation. */
    method UpsertMatch(d: Detail) returns (ok: bool)
      requires Valid() && !prepared && Plans(plan, done, [Upserted(d)]) && Extracted(d)
      modifies this`nextId, this`commits, this`prepared, this`done, this`trail, storage
      ensures Valid() && Reached(old(done) + 1, ok)
    {
      assert plan[done] == [Upserted(d)][0];
      ok := Prepare();
      if !ok || d.id == "" {
        return false;
      }
      PreparedIsSane();
      WriteMatch(d);
      commits := commits - 1;
      assert Sane(trail[done]);
      Record();
    }

    lemma PreparedIsSane()
      requires Valid() && prepared
      ensures Sane(State())
    {
      assert Sane(trail[done]);
      InitializeIsSane(trail[done], storage.n);
    }

    // mark_backfill_progress_started
    method MarkStarted(bootstrap: bool) returns (ok: bool)
      requires Valid() && !prepared && Plans(plan, done, [Started(bootstrap)])
      modifies this`exhausted, this`commits, this`prepared, this`done, this`trail, storage
      ensures Valid() && Reached(old(done) + 1, ok)
    {
      assert plan[done] == [Started(bootstrap)][0];
      ok := Prepare();
      if ok {
        if bootstrap {
          exhausted := false;
        }
        commits := commits - 1;
        assert Sane(trail[done]);
        Record();
      }
    }

    /** mark_backfill_progress_page_completed */
    method MarkPageCompleted(page: nat) returns (ok: bool)
      requires Valid() && !prepared && Plans(plan, done, [PageCompleted(page)])
      modifies this`nextPage, this`exhausted, this`commits, this`prepared, this`done, this`trail, storage
      ensures Valid() && Reached(old(done) + 1, ok)
    {
      assert plan[done] == [PageCompleted(page)][0];
      ok := Prepare();
      if ok {
        nextPage, exhausted := page + 1, false;
        commits := commits - 1;
        assert Sane(trail[done]);
        Record();
      }
    }

    /** finalize_backfill_progress of a run that went well. */
    method FinalizeProgress(archiveExhausted: bool) returns (ok: bool)
      requires Valid() && !prepared && Plans(plan, done, [Finished(archiveExhausted)])
      modifies this`exhausted, this`commits, this`prepared, this`done, this`trail, storage
      ensures Valid() && Reached(old(done) + 1, ok)
    {
      assert plan[done] == [Finished(archiveExhausted)][0];
      ok := Prepare();
      if ok {
        if archiveExhausted {
          exhausted := true;
        }
        commits := commits - 1;
        assert Sane(trail[done]);
        Record();
      }
    }

    /** finalize_backfill_progress of a run that failed: the checkpoint and the tables stay as they are. */
    method FinalizeFailure()
      requires Valid() && (commits == 0 || prepared)
      modifies this`commits, storage
      ensures State() == old(State())
    {
      if commits > 0 {
        PreparedStays();
        storage.NormalizeIdentities();
        commits := commits - 1;
      }
    }

    // There is nothing left to fold right after an initialisation.
    lemma PreparedStays()
      requires Valid() && prepared
      ensures Sane(State()) && Initialize(State(), storage.n) == State()
    {
      PreparedIsSane();
      InitializeSeparates(trail[done], storage.n);
      SeparateRowsStay(State(), storage.n);
    }

    // The matches of one page.
    method UpsertDetails(ds: seq<Detail>) returns (ok: bool)
      requires Valid() && !prepared && Plans(plan, done, Upserts(ds)) && forall d :: d in ds ==> Extracted(d)
      modifies this`nextId, this`commits, this`prepared, this`done, this`trail, storage
      ensures Valid() && Reached(old(done) + |ds|, ok)
    {
      ghost var ws := Upserts(ds);
      for i := 0 to |ds|
        invariant Valid() && !prepared && done == old(done) + i
      {
        assert plan[old(done) + i] == ws[i];
        ok := UpsertMatch(ds[i]);
        if !ok {
          return false;
        }
      }
      return true;
    }

    // The summaries of one page: the ids to fetch, and whether the cutoff was reached.
    method ScanPage(page: seq<Summary>, cutoff: Option<int>) returns (ids: seq<string>, stop: bool)
      ensures ids == IdsToFetch(page, cutoff) && stop == StopsAfter(page, cutoff)
    {
      ids, stop := [], false;
      for i := 0 to |page|
        invariant ids == IdsToFetch(page[..i], cutoff) && stop == StopsAfter(page[..i], cutoff)
      {
        assert page[..i + 1] == page[..i] + [page[i]] && page[..i + 1][..i] == page[..i];
        if TooOld(page[i], cutoff) {
          stop := true;
        } else if page[i].id != "" {
          ids := ids + [page[i].id];
        }
      }
      assert page[..|page|] == page;
    }

    // One page: its matches, then the checkpoint.
    method IngestPage(a: Archive, page: nat, cutoff: Option<int>) returns (ok: bool, stop: bool)
      requires Valid() && !prepared && Extractable(a) && Plans(plan, done, PageWrites(a, page, cutoff))
      modifies this`nextId, this`nextPage, this`exhausted, this`commits, this`prepared, this`done, this`trail, storage
      ensures Valid() && Reached(old(done) + |PageWrites(a, page, cutoff)|, ok)
        && stop == StopsAfter(PageAt(a, page), cutoff)
    {
      var ids;
      ids, stop := ScanPage(PageAt(a, page), cutoff);
      PlansParts(plan, done, Upserts(Details(a, ids)), [PageCompleted(page)]);
      ok := UpsertDetails(Details(a, ids));
      if ok {
        ok := MarkPageCompleted(page);
      }
    }

    // One turn of the page loop, with `left` pages after it.
    method TryPage(a: Archive, page: nat, ghost left: nat, cutoff: Option<int>)
      returns (ok: bool, archiveExhausted: bool, stop: bool)
      requires Valid() && !prepared && Extractable(a) && PlansPages(plan, done, a, page, left + 1, cutoff)
      modifies this`nextId, this`nextPage, this`exhausted, this`commits, this`prepared, this`done, this`trail, storage
      ensures Valid() && if ok then !prepared else Halted()
      ensures ok && (archiveExhausted || stop) ==> PlansEnd(plan, done, archiveExhausted)
      ensures ok && !archiveExhausted && !stop ==> PlansPages(plan, done, a, page + 1, left, cutoff)
    {
      if PageAt(a, page) == [] {
        return true, true, false;
      }
      archiveExhausted := false;
      ok, stop := IngestPage(a, page, cutoff);
    }

    /** _ingest_server: the pages from `start` on, up to the first write that does not get through. */
    method IngestServer(a: Archive, start: nat, limit: nat, cutoff: Option<int>)
      returns (ok: bool, archiveExhausted: bool)
      requires Valid() && !prepared && Extractable(a) && PlansPages(plan, done, a, start, limit, cutoff)
      modifies this`nextId, this`nextPage, this`exhausted, this`commits, this`prepared, this`done, this`trail, storage
      ensures Valid() && if ok then !prepared && PlansEnd(plan, done, archiveExhausted) else Halted()
    {
      ghost var left := limit;
      var page, stop := start, false;
      archiveExhausted := false;
      while page < start + limit
        invariant page + left == start + limit && !archiveExhausted
        invariant Valid() && !prepared && PlansPages(plan, done, a, page, left, cutoff)
        decreases left
      {
        left := left - 1;
        ok, archiveExhausted, stop := TryPage(a, page, left, cutoff);
        if !ok || archiveExhausted || stop {
          return;
        }
        page := page + 1;
      }
      ok := true;
    }

    // The writes of a run until one does not get through, or all are made.
    method MakeRun(a: Archive, bootstrap: bool, start: nat, limit: nat, cutoff: Option<int>) returns (finished: bool)
      requires Valid() && !prepared && Extractable(a) && done == 0
      requires plan == RunWrites(a, bootstrap, start, limit, cutoff)
      modifies this`nextId, this`nextPage, this`exhausted, this`commits, this`prepared, this`done, this`trail, storage
      ensures Valid() && Reached(|plan|, finished)
    {
      var archiveExhausted;
      RunIsPlanned(a, bootstrap, start, limit, cutoff);
      finished := MarkStarted(bootstrap);
      if finished {
        finished, archiveExhausted := IngestServer(a, start, limit, cutoff);
        if finished {
          finished := FinalizeProgress(archiveExhausted);
        }
      }
    }

    /**
     One bootstrap or refresh of a server, resuming from the checkpoint unless told where to start. It
     leaves what its writes leave as far as they get through, and reports success exactly when they all do.
     */
    method RunIngestion(a: Archive, bootstrap: bool, startPage: Option<int>, limit: nat, cutoff: Option<int>)
      returns (finished: bool)
      requires Sane(State()) && Extractable(a)
      modifies this, storage
      ensures var ws := RunWrites(a, bootstrap, StartPage(startPage, bootstrap, old(nextPage)), limit, cutoff);
        && (finished <==> Completes(ws, old(commits) / 2))
        && State() == Stopped(old(State()), server, storage.n, ws, clock, old(commits))
      ensures Sane(State())
      ensures State() == Stopped(old(State()), server, storage.n, plan, clock, old(commits))
      ensures finished ==> done == |plan|
      ensures plan != [] && plan[0] == Started(bootstrap) && WritesOnlyRecent(a, cutoff, plan)
      ensures startPage.None? && !bootstrap ==> ReadsFrom(a, 1, limit, plan)
      ensures startPage.None? && !bootstrap && NewestFirst(a) && Contiguous(a) ==>
        WritesAllRecent(a, limit, cutoff, plan)
      ensures startPage.None? && bootstrap ==>
        ReadsFrom(a, if old(nextPage) == 0 then 1 else old(nextPage), limit, plan)
      ensures startPage.Some? ==> ReadsFrom(a, if startPage.value < 1 then 1 else startPage.value, limit, plan)
    {
      var start := StartPage(startPage, bootstrap, nextPage);
      assert startPage.None? && !bootstrap ==> start == 1;
      finished := RunFrom(a, bootstrap, start, limit, cutoff);
      RunReadsFrom(a, bootstrap, start, limit, cutoff);
      RunWritesOnlyRecent(a, bootstrap, start, limit, cutoff);
      if !bootstrap && NewestFirst(a) && Contiguous(a) {
        RefreshWritesAllRecent(a, limit, cutoff);
      }
    }

    // A run from a given page.
    method RunFrom(a: Archive, bootstrap: bool, start: nat, limit: nat, cutoff: Option<int>) returns (finished: bool)
      requires Sane(State()) && Extractable(a)
      modifies this, storage
      ensures plan == RunWrites(a, bootstrap, start, limit, cutoff) && Sane(State())
      ensures finished <==> Completes(plan, old(commits) / 2)
      ensures State() == Stopped(old(State()), server, storage.n, plan, clock, old(commits))
      ensures finished ==> done == |plan|
    {
      plan, done, trail, prepared, budget, began :=
        RunWrites(a, bootstrap, start, limit, cutoff), 0, [State()], false, commits, State();
      finished := MakeRun(a, bootstrap, start, limit, cutoff);
      RunIsStopped(finished);
      if !finished {
        FinalizeFailure();
      }
    }

    lemma RunIsStopped(ok: bool)
      requires Valid() && Reached(|plan|, ok)
      ensures State() == Stopped(began, server, storage.n, plan, clock, budget) && Sane(State())
      ensures ok <==> Completes(plan, budget / 2)
    {
      TrailIsStopped(trail, plan, done, server, storage.n, clock, budget - 2 * done);
      TrailIsNotRefused(trail, plan, done, server, storage.n, clock);
      assert Sane(trail[done]);
      InitializeIsSane(trail[done], storage.n);
      if !ok && commits > 0 {
        assert plan[done] in plan;
      }
    }
  }

  // ---------- What an interruption can lose when identities are shared ----------

  lemma SeparateRowsStay(db: Database, n: Normalizer)
    requires Sane(db) && KeysDistinct(db.matches, n)
    ensures Initialize(db, n) == db
  {
    var (matches, stats) := Normalize(db.matches, db.stats, n);
    RowsAfterInitialize(db, n);
    InitializeIsSane(db, n);
    forall id, p ensures HistoricalMerge.AgreeAt(db.matches, db.stats, matches, stats, id, p) {
      if id in db.matches {
        assert Group(db.matches, id, n) == {id};
        LoneMatchStays(db, n, id);
      } else {
        assert (id, p) in stats ==> (id, p).0 in matches;
        assert (id, p) in db.stats ==> (id, p).0 in db.matches;
      }
    }
    SameTables(db.matches, db.stats, matches, stats);
  }

  lemma OneCommit(db: Database, server: int, n: Normalizer, w: Write, rest: seq<Write>, clock: string, commits: nat)
    requires commits >= 2 && !Refused(w)
    ensures Stopped(db, server, n, [w] + rest, clock, commits)
      == Stopped(Commit(Initialize(db, n), server, w, clock), server, n, rest, clock, commits - 2)
  {
    var ws := [w] + rest;
    assert ws[0] == w && ws[1..] == rest;
  }

  // One match to a page.
  function TwoPages(server: int, first: Detail, second: Detail): Archive {
    Archive(server, [[Summary(first.id, None)], [Summary(second.id, None)]], id => if id == first.id then first
      else second)
  }

  ghost predicate TwoMatches(first: Detail, second: Detail) {
    Extracted(first) && Extracted(second) && first.id != "" && second.id != "" && first.id != second.id
  }

  lemma OnePageWrites(a: Archive, page: nat, d: Detail)
    requires PageAt(a, page) == [Summary(d.id, None)] && d.id != "" && a.detail(d.id) == d
    ensures PageWrites(a, page, None) == [Upserted(d), PageCompleted(page)] && !StopsAfter(PageAt(a, page), None)
  {
    var listed := PageAt(a, page);
    assert listed[..0] == [];
    assert IdsToFetch(listed, None) == [d.id];
  }

  lemma TwoPagesWrites(server: int, first: Detail, second: Detail)
    requires TwoMatches(first, second)
    ensures var a := TwoPages(server, first, second);
      && RunWrites(a, true, 1, 3, None)
        == [Started(true), Upserted(first), PageCompleted(1), Upserted(second), PageCompleted(2), Finished(true)]
      && RunWrites(a, true, 2, 3, None) == [Started(true), Upserted(second), PageCompleted(2), Finished(true)]
  {
    var a := TwoPages(server, first, second);
    OnePageWrites(a, 1, first);
    OnePageWrites(a, 2, second);
    assert PagesWrites(a, 3, 1, None) == PagesWrites(a, 3, 2, None) == [Finished(true)];
    NoCutoffGoesOn(a, 1, 3);
    NoCutoffGoesOn(a, 2, 2);
    NoCutoffGoesOn(a, 2, 3);
  }

  // The database with both matches in it, before they are folded.
  ghost function FirstIn(server: int, first: Detail, clock: string): Database {
    Upsert(EMPTY_DATABASE, server, first, clock).(nextPage := 2)
  }

  ghost function BothIn(server: int, first: Detail, second: Detail, clock: string): Database {
    Upsert(FirstIn(server, first, clock), server, second, clock)
  }

  lemma RowsOfBoth(server: int, first: Detail, second: Detail, clock: string)
    requires TwoMatches(first, second)
    ensures Sane(FirstIn(server, first, clock)) && Sane(BothIn(server, first, second, clock))
    ensures FirstIn(server, first, clock).matches == map[1 := MatchRow(server, first.id, first.columns, clock)]
    ensures BothIn(server, first, second, clock).matches
         == map[1 := MatchRow(server, first.id, first.columns, clock),
                2 := MatchRow(server, second.id, second.columns, clock)]
  {
    assert forall id :: !IsRow(EMPTY_DATABASE.matches, id, server, first.id);
    UpsertIsSane(EMPTY_DATABASE, server, first, clock);
    var db := FirstIn(server, first, clock);
    assert forall id :: !IsRow(db.matches, id, server, second.id);
    UpsertIsSane(db, server, second, clock);
  }

  lemma StatsOfBoth(server: int, first: Detail, second: Detail, clock: string)
    requires TwoMatches(first, second)
    ensures var stats := BothIn(server, first, second, clock).stats;
      && (forall i, p :: (i, p) in stats <==> (i == 1 && p in first.players) || (i == 2 && p in second.players))
      && (forall p :: p in first.players ==> stats[(1, p)] == first.players[p])
      && (forall p :: p in second.players ==> stats[(2, p)] == second.players[p])
  {
    RowsOfBoth(server, first, second, clock);
    var db := FirstIn(server, first, clock);
    assert forall id :: !IsRow(EMPTY_DATABASE.matches, id, server, first.id);
    assert forall id :: !IsRow(db.matches, id, server, second.id);
    StatsAfterUpsert(map[], 1, first.players);
    StatsAfterUpsert(db.stats, 2, second.players);
  }

  // The later match is the one the others are folded into.
  ghost predicate LaterIsPreferred(server: int, first: Detail, second: Detail, n: Normalizer, clock: string)
    requires TwoMatches(first, second)
  {
    RowsOfBoth(server, first, second, clock);
    var db := BothIn(server, first, second, clock);
    PreferenceLe(PreferenceOf(db.matches, db.stats, 1, n), PreferenceOf(db.matches, db.stats, 2, n))
  }

  ghost predicate IsGreater(a: Option<real>, b: Option<real>) {
    a.Some? && (b.None? || b.value < a.value)
  }

  // The rows 1 and 2 are the two matches, with their statistics, and there are no others.
  ghost predicate HoldsBoth(both: Database, server: int, first: Detail, second: Detail) {
    && Sane(both) && both.matches.Keys == {1, 2} && both.nextId == 3
    && IsRow(both.matches, 1, server, first.id) && both.matches[1].columns == first.columns
    && IsRow(both.matches, 2, server, second.id) && both.matches[2].columns == second.columns
    && (forall p :: (1, p) in both.stats <==> p in first.players)
      && (forall p :: p in first.players ==> both.stats[(1, p)] == first.players[p])
    && (forall p :: (2, p) in both.stats <==> p in second.players)
      && (forall p :: p in second.players ==> both.stats[(2, p)] == second.players[p])
  }

  lemma BothAreHeld(server: int, first: Detail, second: Detail, clock: string)
    requires TwoMatches(first, second)
    ensures HoldsBoth(BothIn(server, first, second, clock), server, first, second)
  {
    RowsOfBoth(server, first, second, clock);
    StatsOfBoth(server, first, second, clock);
  }

  lemma OneGroup(both: Database, server: int, first: Detail, second: Detail, n: Normalizer)
    requires TwoMatches(first, second) && SharesIdentity(first, second, n) && HoldsBoth(both, server, first, second)
    ensures Group(both.matches, 1, n) == {1, 2} && Group(both.matches, 2, n) == {1, 2}
  {
  }

  lemma LaterSurvives(both: Database, server: int, first: Detail, second: Detail, n: Normalizer)
    requires TwoMatches(first, second) && SharesIdentity(first, second, n) && HoldsBoth(both, server, first, second)
    requires PreferenceLe(PreferenceOf(both.matches, both.stats, 1, n), PreferenceOf(both.matches, both.stats, 2, n))
    ensures Survivors(both.matches, both.stats, n) == {2}
  {
    OneGroup(both, server, first, second, n);
    PreferenceLeTotal(PreferenceOf(both.matches, both.stats, 1, n), PreferenceOf(both.matches, both.stats, 2, n));
    PreferenceLeTotal(PreferenceOf(both.matches, both.stats, 2, n), PreferenceOf(both.matches, both.stats, 2, n));
    assert !Survives(both.matches, both.stats, 1, n) by {
      assert 2 in Group(both.matches, 1, n);
    }
  }

  lemma FoldedColumn(both: Database, server: int, first: Detail, second: Detail, n: Normalizer, matches: Matches,
                     stats: Stats, c: int)
    requires TwoMatches(first, second) && SharesIdentity(first, second, n) && HoldsBoth(both, server, first, second)
    requires Normalized(both.matches, both.stats, matches, stats, n) && matches.Keys == {2}
    requires 0 <= c < COLUMNS && second.columns[c] == Null
    ensures matches[2].columns[c] == first.columns[c]
  {
    OneGroup(both, server, first, second, n);
    LeftOfGroup(both.matches, both.stats, matches, stats, n, 2, c, 0, 0);
    FilledFromFirst(both.matches, c, matches[2].columns[c]);
  }

  lemma FilledFromFirst(matches: Matches, c: int, cell: Cell)
    requires (forall id :: id in matches ==> |matches[id].columns| == COLUMNS) && 0 <= c < COLUMNS
    requires 1 in matches && 2 in matches && matches[2].columns[c] == Null && IsFilled(matches, {1, 2}, c, cell)
    ensures cell == matches[1].columns[c]
  {
  }

  lemma LargestOfFirst(stats: Stats, p: int, k: int, v: Option<real>)
    requires (forall q :: q in stats ==> |stats[q].numbers| == NUMBERS) && 0 <= k < NUMBERS
    requires (1, p) in stats && (2, p) in stats && IsGreater(stats[(1, p)].numbers[k], stats[(2, p)].numbers[k])
    requires IsLargest(stats, {1, 2}, p, k, v)
    ensures v == stats[(1, p)].numbers[k]
  {
    assert 1 in {1, 2};
  }

  lemma FoldedNumber(both: Database, server: int, first: Detail, second: Detail, n: Normalizer, matches: Matches,
                     stats: Stats, p: int, k: int)
    requires TwoMatches(first, second) && SharesIdentity(first, second, n) && HoldsBoth(both, server, first, second)
    requires Normalized(both.matches, both.stats, matches, stats, n) && matches.Keys == {2}
    requires p in first.players && p in second.players && 0 <= k < NUMBERS
    requires IsGreater(first.players[p].numbers[k], second.players[p].numbers[k])
    ensures (2, p) in stats && |stats[(2, p)].numbers| == NUMBERS
      && stats[(2, p)].numbers[k] == first.players[p].numbers[k]
  {
    OneGroup(both, server, first, second, n);
    LeftOfGroup(both.matches, both.stats, matches, stats, n, 2, 0, p, k);
    assert (1, p) in both.stats && 1 in Group(both.matches, 2, n);
    LargestOfFirst(both.stats, p, k, stats[(2, p)].numbers[k]);
  }

  /** The row that is left has taken the columns it lacks, and every greater number, from the earlier match. */
  lemma BothFolded(both: Database, server: int, first: Detail, second: Detail, n: Normalizer)
    requires TwoMatches(first, second) && SharesIdentity(first, second, n) && HoldsBoth(both, server, first, second)
    requires PreferenceLe(PreferenceOf(both.matches, both.stats, 1, n), PreferenceOf(both.matches, both.stats, 2, n))
    ensures Sane(Initialize(both, n)) && Initialize(both, n).matches.Keys == {2}
      && IsRow(Initialize(both, n).matches, 2, server, second.id)
    ensures forall c :: 0 <= c < COLUMNS && second.columns[c] == Null ==>
      Initialize(both, n).matches[2].columns[c] == first.columns[c]
    ensures forall p, k :: TakesNumber(first, second, p, k) ==>
      HasNumber(Initialize(both, n).stats, p, k, first.players[p].numbers[k])
  {
    var (matches, stats) := Normalize(both.matches, both.stats, n);
    InitializeIsSane(both, n);
    NormalizeIsNormalized(both.matches, both.stats, n);
    RowsAfterInitialize(both, n);
    LaterSurvives(both, server, first, second, n);
    forall c | 0 <= c < COLUMNS && second.columns[c] == Null ensures matches[2].columns[c] == first.columns[c] {
      FoldedColumn(both, server, first, second, n, matches, stats, c);
    }
    forall p, k | TakesNumber(first, second, p, k) ensures HasNumber(stats, p, k, first.players[p].numbers[k]) {
      FoldedNumber(both, server, first, second, n, matches, stats, p, k);
    }
  }

  // Both matches have the player, and the earlier one the greater number.
  ghost predicate TakesNumber(first: Detail, second: Detail, p: int, k: int)
    requires Extracted(first) && Extracted(second)
  {
    p in first.players && p in second.players && 0 <= k < NUMBERS
      && IsGreater(first.players[p].numbers[k], second.players[p].numbers[k])
  }

  ghost predicate HasNumber(stats: Stats, p: int, k: int, v: Option<real>) {
    (2, p) in stats && 0 <= k < |stats[(2, p)].numbers| && stats[(2, p)].numbers[k] == v
  }

  lemma OneRowIsSeparate(db: Database, id: int, n: Normalizer)
    requires Sane(db) && db.matches.Keys <= {id}
    ensures Initialize(db, n) == db
  {
    SeparateRowsStay(db, n);
  }

  lemma FirstPageWrites(server: int, first: Detail, second: Detail, n: Normalizer, clock: string, rest: seq<Write>,
                        commits: nat)
    requires TwoMatches(first, second) && commits >= 6
    ensures Stopped(EMPTY_DATABASE, server, n, [Started(true)] + ([Upserted(first)] + ([PageCompleted(1)] + rest)),
                    clock, commits)
         == Stopped(FirstIn(server, first, clock), server, n, rest, clock, commits - 6)
  {
    RowsOfBoth(server, first, second, clock);
    OneRowIsSeparate(EMPTY_DATABASE, 1, n);
    OneCommit(EMPTY_DATABASE, server, n, Started(true), [Upserted(first)] + ([PageCompleted(1)] + rest), clock,
              commits);
    OneCommit(EMPTY_DATABASE, server, n, Upserted(first), [PageCompleted(1)] + rest, clock, commits - 2);
    var db := Upsert(EMPTY_DATABASE, server, first, clock);
    OneRowIsSeparate(db, 1, n);
    OneCommit(db, server, n, PageCompleted(1), rest, clock, commits - 4);
  }

  // The writes of a bootstrap up to the second match, and then `rest`.
  function FourWrites(first: Detail, second: Detail, rest: seq<Write>): seq<Write> {
    [Started(true)] + ([Upserted(first)] + ([PageCompleted(1)] + ([Upserted(second)] + rest)))
  }

  lemma FirstFourWrites(server: int, first: Detail, second: Detail, n: Normalizer, clock: string, rest: seq<Write>,
                        commits: nat)
    requires TwoMatches(first, second) && commits >= 8
    ensures Stopped(EMPTY_DATABASE, server, n, FourWrites(first, second, rest), clock, commits)
         == Stopped(BothIn(server, first, second, clock), server, n, rest, clock, commits - 8)
  {
    RowsOfBoth(server, first, second, clock);
    FirstPageWrites(server, first, second, n, clock, [Upserted(second)] + rest, commits);
    OneRowIsSeparate(FirstIn(server, first, clock), 1, n);
    OneCommit(FirstIn(server, first, clock), server, n, Upserted(second), rest, clock, commits - 6);
  }

  // What is left to write once both matches are in, when it all gets through.
  lemma LastTwoWrites(db: Database, server: int, n: Normalizer, clock: string)
    requires Sane(db) && Sane(Initialize(db, n)) && KeysDistinct(Initialize(db, n).matches, n)
    ensures Stopped(db, server, n, [PageCompleted(2), Finished(true)], clock, 4)
      == Initialize(db, n).(nextPage := 3, exhausted := true)
  {
    var ready := Initialize(db, n);
    assert [PageCompleted(2), Finished(true)] == [PageCompleted(2)] + [Finished(true)]
      && [Finished(true)] == [Finished(true)] + [];
    OneCommit(db, server, n, PageCompleted(2), [Finished(true)], clock, 4);
    var paged := ready.(nextPage := 3, exhausted := false);
    SeparateRowsStay(paged, n);
    OneCommit(paged, server, n, Finished(true), [], clock, 2);
  }

  // One clean bootstrap of the two pages, and one that stops once the matches are folded and is resumed.
  const CLEAN: seq<Attempt> := [Attempt(None, 3, 12, "")]
  const FIRST_TRY := Attempt(None, 3, 9, "")
  const SECOND_TRY := Attempt(None, 3, 8, "")
  const STOPPED_AND_RESUMED: seq<Attempt> := [FIRST_TRY] + [SECOND_TRY]

  const LAST_WRITES: seq<Write> := [PageCompleted(2), Finished(true)]

  ghost predicate Overlap(server: int, first: Detail, second: Detail, n: Normalizer) {
    TwoMatches(first, second) && SharesIdentity(first, second, n) && LaterIsPreferred(server, first, second, n, "")
  }

  lemma AttemptsOnEmpty(a: Archive, n: Normalizer, t: Attempt)
    requires Extractable(a) && t.startPage == None
    ensures AfterAttempts(a, n, [t])
      == Stopped(EMPTY_DATABASE, a.server, n, RunWrites(a, true, 1, t.limit, None), t.clock, t.commits)
  {
    assert [t][..0] == [];
    ArchiveWritesAreExtracted(a, 1, t.limit);
  }

  lemma WritesOfTwoPages(server: int, first: Detail, second: Detail)
    requires TwoMatches(first, second)
    ensures RunWrites(TwoPages(server, first, second), true, 1, 3, None) == FourWrites(first, second, LAST_WRITES)
    ensures RunWrites(TwoPages(server, first, second), true, 2, 3, None)
      == [Started(true), Upserted(second)] + LAST_WRITES
  {
    TwoPagesWrites(server, first, second);
  }

  lemma TwoPagesRun(server: int, first: Detail, second: Detail, n: Normalizer, t: Attempt)
    requires TwoMatches(first, second) && t.startPage == None && t.limit == 3 && t.clock == ""
    ensures Extractable(TwoPages(server, first, second))
    ensures AfterAttempts(TwoPages(server, first, second), n, [t])
         == Stopped(EMPTY_DATABASE, server, n, FourWrites(first, second, LAST_WRITES), "", t.commits)
  {
    var a := TwoPages(server, first, second);
    WritesOfTwoPages(server, first, second);
    AttemptsOnEmpty(a, n, t);
  }

  lemma CleanPass(server: int, first: Detail, second: Detail, n: Normalizer)
    requires Overlap(server, first, second, n)
    ensures Extractable(TwoPages(server, first, second))
    ensures AfterAttempts(TwoPages(server, first, second), n, CLEAN)
         == Initialize(BothIn(server, first, second, ""), n).(nextPage := 3, exhausted := true)
  {
    var both := BothIn(server, first, second, "");
    TwoPagesRun(server, first, second, n, Attempt(None, 3, 12, ""));
    FirstFourWrites(server, first, second, n, "", LAST_WRITES, 12);
    RowsOfBoth(server, first, second, "");
    InitializeIsSane(both, n);
    InitializeSeparates(both, n);
    LastTwoWrites(both, server, n, "");
  }

  lemma StoppedPass(server: int, first: Detail, second: Detail, n: Normalizer)
    requires Overlap(server, first, second, n)
    ensures Extractable(TwoPages(server, first, second))
    ensures AfterAttempts(TwoPages(server, first, second), n, [FIRST_TRY])
      == Initialize(BothIn(server, first, second, ""), n)
  {
    TwoPagesRun(server, first, second, n, FIRST_TRY);
    FirstFourWrites(server, first, second, n, "", LAST_WRITES, 9);
    FirstOnly(BothIn(server, first, second, ""), server, n, LAST_WRITES);
  }

  lemma FirstOnly(db: Database, server: int, n: Normalizer, ws: seq<Write>)
    requires ws != []
    ensures Stopped(db, server, n, ws, "", 1) == Initialize(db, n)
  {
  }

  // The resumed run on the one row that the folding left: the row is overwritten by its own detail.
  lemma ResumedWrites(db: Database, server: int, second: Detail, n: Normalizer)
    requires Sane(db) && Extracted(second) && second.id != "" && db.matches.Keys == {2}
    requires IsRow(db.matches, 2, server, second.id)
    ensures Stopped(db, server, n, [Started(true), Upserted(second)] + LAST_WRITES, "", 8)
         == Upsert(db, server, second, "").(nextPage := 3, exhausted := true)
  {
    var started, after := db.(exhausted := false), Upsert(db, server, second, "");
    assert [Started(true), Upserted(second)] + LAST_WRITES == [Started(true)] + ([Upserted(second)] + LAST_WRITES);
    OneRowIsSeparate(db, 2, n);
    OneCommit(db, server, n, Started(true), [Upserted(second)] + LAST_WRITES, "", 8);
    OneRowIsSeparate(started, 2, n);
    OneCommit(started, server, n, Upserted(second), LAST_WRITES, "", 6);
    assert FindRow(db.matches, server, second.id) == Some(2);
    UpsertIsSane(started, server, second, "");
    OneRowIsSeparate(Upsert(started, server, second, ""), 2, n);
    LastTwoWrites(Upsert(started, server, second, ""), server, n, "");
  }

  lemma ResumeOnce(a: Archive, n: Normalizer, ts: seq<Attempt>, t: Attempt, page: nat)
    requires Extractable(a) && t.startPage == None && page == AfterAttempts(a, n, ts).nextPage >= 1
    ensures AfterAttempts(a, n, ts + [t])
      == Stopped(AfterAttempts(a, n, ts), a.server, n, RunWrites(a, true, page, t.limit, None), t.clock, t.commits)
  {
    assert (ts + [t])[..|ts|] == ts;
    ArchiveWritesAreExtracted(a, page, t.limit);
  }

  // What is left once both matches have been folded.
  ghost function FoldedBoth(server: int, first: Detail, second: Detail, n: Normalizer): Database
    requires TwoMatches(first, second)
  {
    RowsOfBoth(server, first, second, "");
    Initialize(BothIn(server, first, second, ""), n)
  }

  lemma FoldedBothIsLater(server: int, first: Detail, second: Detail, n: Normalizer)
    requires Overlap(server, first, second, n)
    ensures var left := FoldedBoth(server, first, second, n);
      Sane(left) && left.matches.Keys == {2} && IsRow(left.matches, 2, server, second.id) && left.nextPage == 2
  {
    RowsOfBoth(server, first, second, "");
    BothAreHeld(server, first, second, "");
    BothFolded(BothIn(server, first, second, ""), server, first, second, n);
  }

  lemma ResumedPass(server: int, first: Detail, second: Detail, n: Normalizer)
    requires Overlap(server, first, second, n)
    ensures Extractable(TwoPages(server, first, second))
    ensures AfterAttempts(TwoPages(server, first, second), n, STOPPED_AND_RESUMED)
         == Upsert(FoldedBoth(server, first, second, n), server, second, "").(nextPage := 3, exhausted := true)
  {
    var a, left := TwoPages(server, first, second), FoldedBoth(server, first, second, n);
    StoppedPass(server, first, second, n);
    FoldedBothIsLater(server, first, second, n);
    ResumeOnce(a, n, [FIRST_TRY], SECOND_TRY, 2);
    WritesOfTwoPages(server, first, second);
    ResumedWrites(left, server, second, n);
  }

  /**
   Two matches of one identity on two pages, the later one preferred: a clean bootstrap keeps what only
   the earlier one knew, and one that stops after folding them and resumes writes it over.
   */
  lemma ResumingLosesTheEarlierMatch(server: int, first: Detail, second: Detail, n: Normalizer)
    requires Overlap(server, first, second, n)
    ensures Extractable(TwoPages(server, first, second))
    ensures var clean, resumed :=
      AfterAttempts(TwoPages(server, first, second), n, CLEAN),
        AfterAttempts(TwoPages(server, first, second), n, STOPPED_AND_RESUMED);
      && clean.exhausted && resumed.exhausted && IsRow(clean.matches, 2, server, second.id)
        && IsRow(resumed.matches, 2, server, second.id)
      && (forall c :: 0 <= c < COLUMNS && second.columns[c] == Null ==> clean.matches[2].columns[c] == first.columns[c])
      && resumed.matches[2].columns == second.columns
      && (forall p, k :: TakesNumber(first, second, p, k) ==> HasNumber(clean.stats, p, k, first.players[p].numbers[k]))
      && (forall p :: p in second.players ==> (2, p) in resumed.stats && resumed.stats[(2, p)] == second.players[p])
  {
    var both := BothIn(server, first, second, "");
    BothAreHeld(server, first, second, "");
    BothFolded(both, server, first, second, n);
    CleanPass(server, first, second, n);
    ResumedPass(server, first, second, n);
    var left := FoldedBoth(server, first, second, n);
    assert FindRow(left.matches, server, second.id) == Some(2);
    StatsAfterUpsert(left.stats, 2, second.players);
  }

  // ---------- A start page beyond the checkpoint ----------

  // Two matches that are not one, on a page each.
  ghost predicate TwoApart(first: Detail, second: Detail, n: Normalizer) {
    TwoMatches(first, second) && !SharesIdentity(first, second, n) && !SharesIdentity(second, first, n)
  }

  lemma DetailsOfTwo(server: int, first: Detail, second: Detail)
    requires TwoMatches(first, second)
    ensures var a := TwoPages(server, first, second);
      && Contiguous(a) && Extractable(a) && |a.pages| == 2
      && PageDetails(a, 1) == [first] && PageDetails(a, 2) == [second]
        && forall p: nat :: p != 1 && p != 2 ==> PageDetails(a, p) == []
  {
    var a := TwoPages(server, first, second);
    OneListed(a, 1, first);
    OneListed(a, 2, second);
  }

  lemma OneListed(a: Archive, page: nat, d: Detail)
    requires PageAt(a, page) == [Summary(d.id, None)] && d.id != "" && a.detail(d.id) == d
    ensures PageDetails(a, page) == [d]
  {
    var listed := PageAt(a, page);
    assert listed[..0] == [];
    assert IdsToFetch(listed, None) == [d.id];
  }

  lemma TwoAreApart(server: int, first: Detail, second: Detail, n: Normalizer)
    requires TwoApart(first, second, n)
    ensures Extractable(TwoPages(server, first, second))
    ensures NoSharedIdentity(TwoPages(server, first, second), n) && Consistent(TwoPages(server, first, second))
  {
    var a := TwoPages(server, first, second);
    assert forall x :: a.detail(x) == first || a.detail(x) == second;
    forall k ensures !(k in ItemsOf(first) && k in ItemsOf(second)) {
      assert k in ItemsOf(first) ==> k.id == first.id;
    }
  }

  lemma EachOfTwoMatters(server: int, first: Detail, second: Detail)
    requires TwoMatches(first, second)
    ensures EachPageMatters(TwoPages(server, first, second))
    ensures OnlyOn(TwoPages(server, first, second), 1, RowOf(first.id))
  {
    var a := TwoPages(server, first, second);
    DetailsOfTwo(server, first, second);
    RowIsOnlyOn(a, 1, first, second);
    RowIsOnlyOn(a, 2, second, first);
  }

  lemma RowIsOnlyOn(a: Archive, page: nat, d: Detail, other: Detail)
    requires PageDetails(a, page) == [d] && d.id != other.id
    requires forall p: nat :: p != page ==> PageDetails(a, p) == [] || PageDetails(a, p) == [other]
    ensures OnlyOn(a, page, RowOf(d.id)) && PageMatters(a, page)
  {
    ItemsOfRow(d, d.id);
    ItemsOfRow(other, d.id);
    assert d in PageDetails(a, page);
    forall q: nat | q != page ensures !WrittenBy(PageDetails(a, q), RowOf(d.id)) {
    }
  }

  lemma EmptyFollows(a: Archive)
    ensures Follows(a, EMPTY_DATABASE, CheckpointAt(a, 1))
  {
    assert CheckpointAt(a, 1) == Store(map[], 1, false);
    assert Shows(EMPTY_DATABASE, a.server, map[]);
  }

  lemma WritesFromSecond(server: int, first: Detail, second: Detail)
    requires TwoMatches(first, second)
    ensures PagesWrites(TwoPages(server, first, second), 2, 3, None) == [Upserted(second)] + LAST_WRITES
    ensures Completes(PagesWrites(TwoPages(server, first, second), 2, 3, None), 4)
  {
    WritesOfTwoPages(server, first, second);
    var ws := PagesWrites(TwoPages(server, first, second), 2, 3, None);
    assert [Started(true)] + ws == [Started(true), Upserted(second)] + LAST_WRITES;
    assert ws == ([Started(true)] + ws)[1..];
  }

  /**
   A bootstrap of an empty database that is told to start at page 2 gets through, records the archive as exhausted,
   and has no row for the match of page 1: its checkpoint cannot be trusted.
   */
  lemma GivenStartMaySkip(server: int, first: Detail, second: Detail, n: Normalizer, clock: string)
    requires TwoApart(first, second, n)
    ensures var a := TwoPages(server, first, second);
      var skipped := Stopped(EMPTY_DATABASE, server, n, PagesWrites(a, 2, 3, None), clock, 8);
      skipped.exhausted && Lookup(skipped, server, RowOf(first.id)) == None && !SoundDatabase(a, skipped)
  {
    var a, st := TwoPages(server, first, second), CheckpointAt(TwoPages(server, first, second), 1);
    var ws := PagesWrites(a, 2, 3, None);
    DetailsOfTwo(server, first, second);
    TwoAreApart(server, first, second, n);
    EachOfTwoMatters(server, first, second);
    EmptyFollows(a);
    WritesFromSecond(server, first, second);
    GivenStartIsSoundIff(a, n, EMPTY_DATABASE, 2, 3, clock, 8);
    SkippedShows(a, n, st, ws, clock, 8, RowOf(first.id));
  }

  lemma SkippedShows(a: Archive, n: Normalizer, st: Store, ws: seq<Write>, clock: string, commits: nat, k: Item)
    requires Extractable(a) && NoSharedIdentity(a, n) && Follows(a, EMPTY_DATABASE, st) && st == CheckpointAt(a, 1)
    requires ws == PagesWrites(a, 2, 3, None) && Completes(ws, commits / 2) && EndsExhausted(ws) && OnlyOn(a, 1, k)
    ensures var skipped := Stopped(EMPTY_DATABASE, a.server, n, ws, clock, commits);
      skipped.exhausted && Lookup(skipped, a.server, k) == None
  {
    RunWritesAreListed(a, 2, 3);
    StoppedFollows(a, n, EMPTY_DATABASE, st, ws, clock, commits);
    LastWriteExhausts(st, ws, commits / 2);
    SkippedMatchIsMissing(a, 1, 2, 3, commits / 2, k);
    var skipped, left := Stopped(EMPTY_DATABASE, a.server, n, ws, clock, commits), Interrupted(st, ws, commits / 2);
    assert Lookup(skipped, a.server, k) == TableAt(left.table, k);
  }

  // A match of page 1, and one that started later.
  lemma ListingsApart(n: Normalizer)
    ensures TwoApart(EarlierListing(), LaterMatch(), n)
  {
  }

  function LaterMatch(): Detail {
    Detail("B", [Null, Null, Text("later"), Null, Text("map"), Text("map"), Null, Null, Null, Null, Null],
           map[7 := Kills(5.0)])
  }

  // ---------- When a resumed bootstrap of the two matches agrees with a clean one ----------

  // The earlier row and statistics of a player have nothing that the later ones lack, and no greater number.
  ghost predicate AddsNoColumn(first: Detail, second: Detail)
    requires Extracted(first) && Extracted(second)
  {
    forall c :: 0 <= c < COLUMNS && second.columns[c] == Null ==> first.columns[c] == Null
  }

  ghost predicate AddsNoStat(first: StatRow, second: StatRow)
    requires |first.numbers| == NUMBERS && |second.numbers| == NUMBERS
  {
    && (second.playerRef == Null ==> first.playerRef == Null) && (second.team == Null ==> first.team == Null)
    && forall k :: 0 <= k < NUMBERS ==> !IsGreater(first.numbers[k], second.numbers[k])
  }

  /** What a caller can see of the two listings: the earlier one knows nothing more than the later one. */
  ghost predicate AddsNothing(first: Detail, second: Detail)
    requires Extracted(first) && Extracted(second)
  {
    && AddsNoColumn(first, second)
    && forall p :: p in first.players && p in second.players ==> AddsNoStat(first.players[p], second.players[p])
  }

  lemma MergedRowIff(target: MatchRow, source: MatchRow)
    requires |target.columns| == COLUMNS && |source.columns| == COLUMNS
    ensures MergedRow(target, source).columns == target.columns
       <==> forall c :: 0 <= c < COLUMNS && target.columns[c] == Null ==> source.columns[c] == Null
  {
    var merged := MergedRow(target, source).columns;
    if merged == target.columns {
      forall c | 0 <= c < COLUMNS && target.columns[c] == Null ensures source.columns[c] == Null {
        assert merged[c] == Coalesce(target.columns[c], source.columns[c]);
      }
    }
  }

  lemma MergedStatIff(target: StatRow, source: StatRow)
    requires |target.numbers| == NUMBERS && |source.numbers| == NUMBERS
    ensures MergedStat(target, source) == target <==> AddsNoStat(source, target)
  {
    var merged := MergedStat(target, source);
    forall k | 0 <= k < NUMBERS
      ensures merged.numbers[k] == target.numbers[k] <==> !IsGreater(source.numbers[k], target.numbers[k])
    {
      assert merged.numbers[k] == MaxValue(target.numbers[k], source.numbers[k]);
    }
    if AddsNoStat(source, target) {
      assert merged.numbers == target.numbers;
    }
  }

  lemma FoldedTables(server: int, first: Detail, second: Detail, n: Normalizer)
    requires Overlap(server, first, second, n)
    ensures var both := BothIn(server, first, second, "");
      && Sane(both) && 1 in both.matches && 2 in both.matches
      && FoldedBoth(server, first, second, n)
         == both.(matches := MatchesAfter(both.matches, 1, 2), stats := MergedStats(both.stats, 1, 2))
  {
    var both := BothIn(server, first, second, "");
    RowsOfBoth(server, first, second, "");
    BothAreHeld(server, first, second, "");
    OneGroup(both, server, first, second, n);
    TwoMatchesFold(both.matches, both.stats, n, 1, 2);
  }

  // The statistic of a player after the folding, and the one the later listing has.
  lemma FoldedStatIff(both: Database, server: int, first: Detail, second: Detail, p: int)
    requires TwoMatches(first, second) && HoldsBoth(both, server, first, second) && p in second.players
    ensures var stats := MergedStats(both.stats, 1, 2);
      && (2, p) in stats
      && (stats[(2, p)] == second.players[p]
        <==> (p in first.players ==> AddsNoStat(first.players[p], second.players[p])))
  {
    StatsAfter(both.stats, 1, 2, 2, p);
    assert (1, p) in both.stats <==> p in first.players;
    if p in first.players {
      MergedStatIff(second.players[p], first.players[p]);
    }
  }

  lemma OverwrittenStatsIff(stats: Stats, id: int, players: map<int, StatRow>)
    requires forall p :: p in players ==> (id, p) in stats
    ensures StatsWith(stats, id, players) == stats <==> forall p :: p in players ==> stats[(id, p)] == players[p]
  {
    StatsAfterUpsert(stats, id, players);
    if forall p :: p in players ==> stats[(id, p)] == players[p] {
      SameStats(StatsWith(stats, id, players), stats);
    }
  }

  // Overwriting the folded row with the later listing changes nothing exactly when the earlier one added nothing.
  lemma OverwriteIff(server: int, first: Detail, second: Detail, n: Normalizer)
    requires Overlap(server, first, second, n)
    ensures var left := FoldedBoth(server, first, second, n);
      Upsert(left, server, second, "") == left <==> AddsNothing(first, second)
  {
    var both, left := BothIn(server, first, second, ""), FoldedBoth(server, first, second, n);
    RowsOfBoth(server, first, second, "");
    BothAreHeld(server, first, second, "");
    FoldedTables(server, first, second, n);
    FoldedBothIsLater(server, first, second, n);
    assert FindRow(left.matches, server, second.id) == Some(2);
    MergedRowIff(both.matches[2], both.matches[1]);
    RowOverwriteIff(left.matches, both.matches, server, first, second);
    forall p | p in second.players
      ensures (2, p) in left.stats
      ensures left.stats[(2, p)] == second.players[p]
        <==> (p in first.players ==> AddsNoStat(first.players[p], second.players[p]))
    {
      FoldedStatIff(both, server, first, second, p);
    }
    OverwrittenStatsIff(left.stats, 2, second.players);
  }

  lemma RowOverwriteIff(left: Matches, both: Matches, server: int, first: Detail, second: Detail)
    requires TwoMatches(first, second)
    requires both == map[1 := MatchRow(server, first.id, first.columns, ""),
                         2 := MatchRow(server, second.id, second.columns, "")]
    requires left == MatchesAfter(both, 1, 2)
    ensures left[2 := MatchRow(server, second.id, second.columns, "")] == left <==> AddsNoColumn(first, second)
  {
    MergedRowIff(both[2], both[1]);
    assert left[2] == MergedRow(both[2], both[1]) && left[2].lastSeen == "";
  }

  /**
   For two matches of one identity, the later one preferred: the bootstrap that stops after folding them and is
   resumed ends as the clean one does exactly when the earlier listing adds nothing to the later one.
   */
  lemma ResumingAgreesIff(server: int, first: Detail, second: Detail, n: Normalizer)
    requires Overlap(server, first, second, n)
    ensures Extractable(TwoPages(server, first, second))
    ensures var a := TwoPages(server, first, second);
      AfterAttempts(a, n, CLEAN) == AfterAttempts(a, n, STOPPED_AND_RESUMED) <==> AddsNothing(first, second)
  {
    CleanPass(server, first, second, n);
    ResumedPass(server, first, second, n);
    OverwriteIff(server, first, second, n);
    SameApartFromProgress(FoldedBoth(server, first, second, n),
                          Upsert(FoldedBoth(server, first, second, n), server, second, ""));
  }

  lemma SameApartFromProgress(db: Database, other: Database)
    requires db.nextPage == other.nextPage && db.exhausted == other.exhausted
    ensures db == other <==> db.(nextPage := 3, exhausted := true) == other.(nextPage := 3, exhausted := true)
  {
  }

  const GAME_MODE := 6

  function Kills(kills: real): StatRow {
    StatRow(Null, Null, [None, Some(kills), None, None, None, None, None, None, None, None, None, None])
  }

  // The same match listed twice: at first with its game mode and ten kills, later without the mode and with
  // five kills and one more player.
  function EarlierListing(): Detail {
    Detail("A", [Null, Null, Text("start"), Null, Text("map"), Text("map"), Text("warfare"), Null, Null, Null, Null],
           map[7 := Kills(10.0)])
  }

  function LaterListing(): Detail {
    Detail("B", [Null, Null, Text("start"), Null, Text("map"), Text("map"), Null, Null, Null, Null, Null],
           map[7 := Kills(5.0), 8 := Kills(1.0)])
  }

  lemma {:induction false} CountTagged(players: set<int>, id: int)
    ensures |set p | p in players :: (id, p)| == |players|
  {
    var tagged := set p | p in players :: (id, p);
    if players == {} {
      assert tagged == {};
    } else {
      var q := SomeElement(players);
      CountTagged(players - {q}, id);
      var rest := set p | p in players - {q} :: (id, p);
      assert tagged == rest + {(id, q)};
    }
  }

  lemma TaggedStats(stats: Stats, id: int, players: set<int>)
    requires forall p :: (id, p) in stats <==> p in players
    ensures |set k | k in stats && k.0 == id| == |players|
  {
    var own, tagged := set k | k in stats && k.0 == id, set p | p in players :: (id, p);
    forall k ensures k in own <==> k in tagged {
      var (i, p) := k;
      assert k in own ==> (id, p) in stats;
    }
    assert own == tagged;
    CountTagged(players, id);
  }

  lemma MorePlayersArePreferred(both: Database, server: int, first: Detail, second: Detail, n: Normalizer)
    requires TwoMatches(first, second) && HoldsBoth(both, server, first, second)
    requires first.columns[ENDED_AT] == second.columns[ENDED_AT]
    requires IsDigits(n.strip(first.id)) == IsDigits(n.strip(second.id))
    requires |first.players| < |second.players|
    ensures PreferenceLe(PreferenceOf(both.matches, both.stats, 1, n), PreferenceOf(both.matches, both.stats, 2, n))
  {
    TaggedStats(both.stats, 1, first.players.Keys);
    TaggedStats(both.stats, 2, second.players.Keys);
  }

  lemma ListingsShareIdentity(n: Normalizer)
    requires n.strip("A") == "A" && n.strip("B") == "B"
    ensures TwoMatches(EarlierListing(), LaterListing()) && SharesIdentity(EarlierListing(), LaterListing(), n)
    ensures EarlierListing().columns[ENDED_AT] == LaterListing().columns[ENDED_AT]
    ensures IsDigits(n.strip(EarlierListing().id)) == IsDigits(n.strip(LaterListing().id))
  {
    assert "A"[0] > '9' && "B"[0] > '9';
  }

  lemma LaterHasMorePlayers()
    ensures |EarlierListing().players| < |LaterListing().players|
  {
    assert EarlierListing().players.Keys == {7} && LaterListing().players.Keys == {7, 8};
  }

  lemma ListingsOverlap(server: int, n: Normalizer)
    requires n.strip("A") == "A" && n.strip("B") == "B"
    ensures Overlap(server, EarlierListing(), LaterListing(), n)
  {
    ListingsShareIdentity(n);
    LaterHasMorePlayers();
    BothAreHeld(server, EarlierListing(), LaterListing(), "");
    MorePlayersArePreferred(BothIn(server, EarlierListing(), LaterListing(), ""), server, EarlierListing(),
                            LaterListing(), n);
  }

  lemma ListingsDiffer()
    ensures Extracted(EarlierListing()) && Extracted(LaterListing())
      && TakesNumber(EarlierListing(), LaterListing(), 7, 1)
    ensures EarlierListing().players[7].numbers[1] == Some(10.0) && LaterListing().players[7].numbers[1] == Some(5.0)
    ensures EarlierListing().columns[GAME_MODE] == Text("warfare") && LaterListing().columns[GAME_MODE] == Null
      && 7 in LaterListing().players
  {
  }

  /**
   An archive on which a resumed bootstrap ends with five kills and no mode where a clean one ends with ten
   and the mode.
   */
  lemma ResumingMayDiffer(server: int, n: Normalizer)
    requires n.strip("A") == "A" && n.strip("B") == "B"
    ensures Extractable(TwoPages(server, EarlierListing(), LaterListing()))
    ensures var clean := AfterAttempts(TwoPages(server, EarlierListing(), LaterListing()), n, CLEAN);
      clean.exhausted && HasNumber(clean.stats, 7, 1, Some(10.0)) && 2 in clean.matches
        && clean.matches[2].columns[GAME_MODE] == Text("warfare")
    ensures var resumed := AfterAttempts(TwoPages(server, EarlierListing(), LaterListing()), n, STOPPED_AND_RESUMED);
      resumed.exhausted && HasNumber(resumed.stats, 7, 1, Some(5.0)) && 2 in resumed.matches
        && resumed.matches[2].columns[GAME_MODE] == Null
  {
    ListingsOverlap(server, n);
    ResumingLosesTheEarlierMatch(server, EarlierListing(), LaterListing(), n);
    ListingsDiffer();
  }
}
