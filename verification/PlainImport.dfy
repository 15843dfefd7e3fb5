/**
 The resumable import as long as no match is folded into another: the database is a table of items,
 each written over by its latest detail, and a run may stop after any of its writes.
 */
module PlainImport {
  import opened Options
  import opened HistoricalMerge
  import opened ArchiveListing

  // What the database holds of a match: its row, and one statistic per player.
  datatype Item = RowOf(id: string) | StatOf(id: string, player: int)

  datatype Value = Columns(columns: seq<Cell>) | Numbers(stat: StatRow)

  type Table = map<Item, Value>

  // The items a detail writes.
  function ItemsOf(d: Detail): Table {
    var items := {RowOf(d.id)} + (set p | p in d.players :: StatOf(d.id, p));
    map k | k in items ::
      match k {
        case RowOf(_) => Columns(d.columns)
        case StatOf(_, p) => Numbers(d.players[p])
      }
  }

  // The table and the progress row of one server and mode; a missing row reads as page 1.
  datatype Store = Store(table: Table, nextPage: nat, exhausted: bool)

  function Apply(st: Store, w: Write): Store {
    match w
    case Started(bootstrap) => if bootstrap then st.(exhausted := false) else st
    case Upserted(d) => st.(table := st.table + ItemsOf(d))
    case PageCompleted(page) => st.(nextPage := page + 1, exhausted := false)
    case Finished(exhausted) => if exhausted then st.(exhausted := true) else st
  }

  /** What is left when only `budget` writes get through. */
  function Interrupted(st: Store, ws: seq<Write>, budget: nat): Store
    decreases budget
  {
    if ws == [] || budget == 0 || Refused(ws[0]) then st
    else Interrupted(Apply(st, ws[0]), ws[1..], budget - 1)
  }

  // ---------- The table of the whole archive ----------

  function UpsertAll(table: Table, ds: seq<Detail>): Table {
    if ds == [] then table else UpsertAll(table, ds[..|ds| - 1]) + ItemsOf(ds[|ds| - 1])
  }

  // The matches a bootstrap writes for a page.
  function PageDetails(a: Archive, page: nat): seq<Detail> {
    Details(a, IdsToFetch(PageAt(a, page), None))
  }

  // The table after the first `page` pages, each written once.
  function TableUpTo(a: Archive, page: nat): Table {
    if page == 0 then map[] else UpsertAll(TableUpTo(a, page - 1), PageDetails(a, page))
  }

  function FullTable(a: Archive): Table {
    TableUpTo(a, |a.pages|)
  }

  ghost predicate WrittenBy(ds: seq<Detail>, k: Item) {
    exists d :: d in ds && k in ItemsOf(d)
  }

  // Some page from `page` on writes the match `k`.
  ghost predicate WrittenFrom(a: Archive, page: nat, k: Item) {
    exists p: nat :: page <= p && WrittenBy(PageDetails(a, p), k)
  }

  predicate AgreeAt(s: Table, t: Table, k: Item) {
    (k in s <==> k in t) && (k in s && k in t ==> s[k] == t[k])
  }

  // Every match that no page from `page` on will write again is already as it will be in the end.
  ghost predicate Settled(a: Archive, table: Table, page: nat) {
    forall k :: !WrittenFrom(a, page, k) ==> AgreeAt(table, FullTable(a), k)
  }

  /** A checkpoint that can be trusted. */
  ghost predicate Sound(a: Archive, st: Store) {
    && 1 <= st.nextPage <= |a.pages| + 1
    && (st.exhausted ==> PageAt(a, st.nextPage) == [])
    && Settled(a, st.table, st.nextPage)
  }

  lemma {:induction false} UpsertAllAt(s: Table, t: Table, ds: seq<Detail>, k: Item)
    ensures WrittenBy(ds, k) ==> AgreeAt(UpsertAll(s, ds), UpsertAll(t, ds), k)
    ensures !WrittenBy(ds, k) ==> AgreeAt(UpsertAll(s, ds), s, k)
  {
    if ds != [] {
      UpsertAllAt(s, t, ds[..|ds| - 1], k);
      assert ds[|ds| - 1] in ds;
      assert WrittenBy(ds, k) ==> k in ItemsOf(ds[|ds| - 1]) || WrittenBy(ds[..|ds| - 1], k);
    }
  }

  lemma NothingAfterTheEnd(a: Archive, page: nat, k: Item)
    requires page > |a.pages|
    ensures !WrittenFrom(a, page, k)
  {
    forall p: nat | page <= p ensures !WrittenBy(PageDetails(a, p), k) {
      assert PageAt(a, p) == [];
    }
  }

  lemma WrittenFromNext(a: Archive, page: nat, k: Item)
    ensures WrittenFrom(a, page, k) <==> WrittenBy(PageDetails(a, page), k) || WrittenFrom(a, page + 1, k)
  {
    if WrittenFrom(a, page, k) {
      var p: nat :| page <= p && WrittenBy(PageDetails(a, p), k);
      assert p == page || page + 1 <= p;
    }
  }

  // The table after each number of pages.
  function Tables(a: Archive): nat -> Table {
    (p: nat) => TableUpTo(a, p)
  }

  // The page `p + 1` leads from one table to the next.
  ghost predicate LeadsOn(a: Archive, tables: nat -> Table, p: nat) {
    tables(p + 1) == UpsertAll(tables(p), PageDetails(a, p + 1))
  }

  lemma TablesLeadOn(a: Archive, p: nat)
    ensures LeadsOn(a, Tables(a), p)
  {
  }

  ghost predicate AgreeNext(tables: nat -> Table, p: nat, k: Item) {
    AgreeAt(tables(p), tables(p + 1), k)
  }

  lemma {:induction false} StaysAlong(tables: nat -> Table, page: nat, upTo: nat, k: Item)
    requires page <= upTo && forall p: nat :: page <= p < upTo ==> AgreeNext(tables, p, k)
    ensures AgreeAt(tables(page), tables(upTo), k)
  {
    if page < upTo {
      StaysAlong(tables, page, upTo - 1, k);
      assert AgreeNext(tables, upTo - 1, k);
    }
  }

  lemma NextTableAgrees(a: Archive, tables: nat -> Table, page: nat, p: nat, k: Item)
    requires page <= p && !WrittenFrom(a, page + 1, k) && LeadsOn(a, tables, p)
    ensures AgreeNext(tables, p, k)
  {
    PageLeaves(a, page + 1, p + 1, tables(p), k);
  }

  lemma TablesStay(a: Archive, tables: nat -> Table, page: nat, upTo: nat, k: Item)
    requires page <= upTo && !WrittenFrom(a, page + 1, k) && forall p: nat :: LeadsOn(a, tables, p)
    ensures AgreeAt(tables(page), tables(upTo), k)
  {
    forall p: nat | page <= p < upTo ensures AgreeNext(tables, p, k) {
      assert LeadsOn(a, tables, p);
      NextTableAgrees(a, tables, page, p, k);
    }
    StaysAlong(tables, page, upTo, k);
  }

  // An item that later pages do not write is in the end as it is after `page` pages.
  lemma TableStays(a: Archive, page: nat, upTo: nat, k: Item)
    requires page <= upTo && !WrittenFrom(a, page + 1, k)
    ensures AgreeAt(TableUpTo(a, page), TableUpTo(a, upTo), k)
  {
    forall p: nat ensures LeadsOn(a, Tables(a), p) {
      TablesLeadOn(a, p);
    }
    TablesStay(a, Tables(a), page, upTo, k);
  }

  lemma PageLeaves(a: Archive, from: nat, page: nat, table: Table, k: Item)
    requires from <= page && !WrittenFrom(a, from, k)
    ensures AgreeAt(UpsertAll(table, PageDetails(a, page)), table, k)
  {
    UpsertAllAt(table, map[], PageDetails(a, page), k);
  }

  lemma FullTableAt(a: Archive, page: nat, k: Item)
    requires page <= |a.pages| && !WrittenFrom(a, page + 1, k)
    ensures AgreeAt(TableUpTo(a, page), FullTable(a), k)
  {
    TableStays(a, page, |a.pages|, k);
  }

  lemma PageSettles(a: Archive, table: Table, page: nat)
    requires Settled(a, table, page) && 1 <= page <= |a.pages|
    ensures Settled(a, UpsertAll(table, PageDetails(a, page)), page + 1)
  {
    var ds := PageDetails(a, page);
    forall k | !WrittenFrom(a, page + 1, k) ensures AgreeAt(UpsertAll(table, ds), FullTable(a), k) {
      WrittenFromNext(a, page, k);
      UpsertAllAt(table, TableUpTo(a, page - 1), ds, k);
      if WrittenBy(ds, k) {
        FullTableAt(a, page, k);
      }
    }
  }

  lemma SettledEarlier(a: Archive, table: Table, page: nat, earlier: nat)
    requires Settled(a, table, page) && earlier <= page
    ensures Settled(a, table, earlier)
  {
    forall k | !WrittenFrom(a, earlier, k) ensures !WrittenFrom(a, page, k) {
    }
  }

  lemma SettledAtTheEnd(a: Archive, table: Table, page: nat)
    requires Settled(a, table, page) && page > |a.pages|
    ensures table == FullTable(a)
  {
    forall k
      ensures (k in table <==> k in FullTable(a)) && (k in table && k in FullTable(a) ==> table[k] == FullTable(a)[k])
    {
      NothingAfterTheEnd(a, page, k);
      assert AgreeAt(table, FullTable(a), k);
    }
  }

  // ---------- Stopping anywhere keeps the checkpoint sound ----------

  // Going on from the checkpoint `page` leaves a sound checkpoint wherever it stops.
  ghost predicate KeepsSound(a: Archive, page: nat, ws: seq<Write>) {
    forall st, budget: nat :: Sound(a, st) && st.nextPage == page ==> Sound(a, Interrupted(st, ws, budget))
  }

  // No two details of the archive say different things of one item.
  ghost predicate Consistent(a: Archive) {
    forall x, y, k :: k in ItemsOf(a.detail(x)) && k in ItemsOf(a.detail(y)) ==>
      ItemsOf(a.detail(x))[k] == ItemsOf(a.detail(y))[k]
  }

  lemma UpsertLast(table: Table, ds: seq<Detail>, last: Detail)
    ensures UpsertAll(table, ds + [last]) == UpsertAll(table, ds) + ItemsOf(last)
  {
    assert (ds + [last])[..|ds|] == ds;
  }

  lemma {:induction false} UpsertAllFront(table: Table, d: Detail, ds: seq<Detail>)
    ensures UpsertAll(table, [d] + ds) == UpsertAll(table + ItemsOf(d), ds)
  {
    if ds == [] {
      assert [d] + ds == [] + [d];
      UpsertLast(table, [], d);
    } else {
      var front, last := ds[..|ds| - 1], ds[|ds| - 1];
      UpsertAllFront(table, d, front);
      UpsertLast(table, [d] + front, last);
      UpsertLast(table + ItemsOf(d), front, last);
      assert [d] + ds == ([d] + front) + [last] && ds == front + [last];
    }
  }

  lemma {:induction false} UpsertAllFinds(table: Table, ds: seq<Detail>, k: Item, v: Value)
    requires WrittenBy(ds, k) && forall e :: e in ds && k in ItemsOf(e) ==> ItemsOf(e)[k] == v
    ensures k in UpsertAll(table, ds) && UpsertAll(table, ds)[k] == v
  {
    var last := ds[|ds| - 1];
    assert last in ds;
    if k !in ItemsOf(last) {
      var d :| d in ds && k in ItemsOf(d);
      assert d in ds[..|ds| - 1];
      UpsertAllFinds(table, ds[..|ds| - 1], k, v);
    }
  }

  lemma DetailsAreOfArchive(a: Archive, page: nat, d: Detail) returns (id: string)
    requires d in PageDetails(a, page)
    ensures d == a.detail(id)
  {
    var ids := IdsToFetch(PageAt(a, page), None);
    var i :| 0 <= i < |ids| && PageDetails(a, page)[i] == d;
    id := ids[i];
  }

  lemma ConsistentOnPages(a: Archive, p: nat, q: nat, d: Detail, e: Detail, k: Item)
    requires Consistent(a) && d in PageDetails(a, p) && e in PageDetails(a, q) && k in ItemsOf(d) && k in ItemsOf(e)
    ensures ItemsOf(d)[k] == ItemsOf(e)[k]
  {
    var x := DetailsAreOfArchive(a, p, d);
    var y := DetailsAreOfArchive(a, q, e);
  }

  // A page that writes the item writes it as the detail does.
  lemma PageWritesItem(a: Archive, page: nat, d: Detail, k: Item, next: nat, before: Table)
    requires Consistent(a) && d in PageDetails(a, page) && k in ItemsOf(d) && WrittenBy(PageDetails(a, next), k)
    ensures HoldsItem(UpsertAll(before, PageDetails(a, next)), d, k)
  {
    var ds := PageDetails(a, next);
    forall e | e in ds && k in ItemsOf(e) ensures ItemsOf(e)[k] == ItemsOf(d)[k] {
      ConsistentOnPages(a, page, next, d, e, k);
    }
    UpsertAllFinds(before, ds, k, ItemsOf(d)[k]);
  }

  lemma PageKeepsItem(a: Archive, page: nat, d: Detail, k: Item, next: nat, before: Table)
    requires Consistent(a) && d in PageDetails(a, page) && HoldsItem(before, d, k)
    ensures HoldsItem(UpsertAll(before, PageDetails(a, next)), d, k)
  {
    if WrittenBy(PageDetails(a, next), k) {
      PageWritesItem(a, page, d, k, next, before);
    } else {
      UpsertAllAt(before, before, PageDetails(a, next), k);
    }
  }

  // The table has the item as the detail gives it.
  ghost predicate HoldsItem(table: Table, d: Detail, k: Item) {
    k in ItemsOf(d) && k in table && table[k] == ItemsOf(d)[k]
  }

  lemma NextTableHolds(a: Archive, tables: nat -> Table, page: nat, d: Detail, k: Item, p: nat)
    requires Consistent(a) && d in PageDetails(a, page) && LeadsOn(a, tables, p) && HoldsItem(tables(p), d, k)
    ensures HoldsItem(tables(p + 1), d, k)
  {
    PageKeepsItem(a, page, d, k, p + 1, tables(p));
  }

  lemma OwnTableHolds(a: Archive, tables: nat -> Table, page: nat, d: Detail, k: Item)
    requires Consistent(a) && d in PageDetails(a, page) && k in ItemsOf(d) && 1 <= page && LeadsOn(a, tables, page - 1)
    ensures HoldsItem(tables(page), d, k)
  {
    assert WrittenBy(PageDetails(a, page), k);
    PageWritesItem(a, page, d, k, page, tables(page - 1));
  }

  lemma {:induction false} TablesHold(a: Archive, tables: nat -> Table, page: nat, d: Detail, k: Item, upTo: nat)
    requires Consistent(a) && d in PageDetails(a, page) && k in ItemsOf(d) && 1 <= page <= upTo
    requires forall p: nat :: LeadsOn(a, tables, p)
    ensures HoldsItem(tables(upTo), d, k)
  {
    assert LeadsOn(a, tables, upTo - 1);
    if page < upTo {
      TablesHold(a, tables, page, d, k, upTo - 1);
      NextTableHolds(a, tables, page, d, k, upTo - 1);
    } else {
      OwnTableHolds(a, tables, page, d, k);
    }
  }

  lemma ConsistentTable(a: Archive, page: nat, d: Detail, k: Item, upTo: nat)
    requires Consistent(a) && d in PageDetails(a, page) && k in ItemsOf(d) && 1 <= page <= upTo
    ensures HoldsItem(TableUpTo(a, upTo), d, k)
  {
    forall p: nat ensures LeadsOn(a, Tables(a), p) {
      TablesLeadOn(a, p);
    }
    TablesHold(a, Tables(a), page, d, k, upTo);
  }

  lemma UpsertKeepsSettled(a: Archive, table: Table, next: nat, page: nat, d: Detail)
    requires Settled(a, table, next) && d in PageDetails(a, page) && 1 <= page <= |a.pages|
    requires page == next || Consistent(a)
    ensures Settled(a, table + ItemsOf(d), next)
  {
    forall k | !WrittenFrom(a, next, k) ensures AgreeAt(table + ItemsOf(d), FullTable(a), k) {
      assert AgreeAt(table, FullTable(a), k);
      if k in ItemsOf(d) {
        assert WrittenBy(PageDetails(a, page), k);
        ConsistentTable(a, page, d, k, |a.pages|);
      }
    }
  }

  // The rest of a page, then its checkpoint, then more.
  lemma {:induction false} RestOfPageKeepsSound(a: Archive, st: Store, page: nat, ds: seq<Detail>, rest: seq<Write>,
      budget: nat)
    requires Sound(a, st) && 1 <= page <= st.nextPage && page <= |a.pages| && (page == st.nextPage || Consistent(a))
    requires (forall d :: d in ds ==> d in PageDetails(a, page)) && Settled(a, UpsertAll(st.table, ds), page + 1)
    requires KeepsSound(a, page + 1, rest)
    ensures Sound(a, Interrupted(st, Upserts(ds) + [PageCompleted(page)] + rest, budget))
    decreases |ds|
  {
    var ws := Upserts(ds) + [PageCompleted(page)] + rest;
    if ds == [] {
      assert ws == [PageCompleted(page)] + rest && ws[1..] == rest;
      if budget > 0 {
        var after := Apply(st, ws[0]);
        assert Sound(a, after);
        assert Sound(a, Interrupted(after, rest, budget - 1));
      }
    } else {
      var d := ds[0];
      assert ws[0] == Upserted(d) && ws[1..] == Upserts(ds[1..]) + [PageCompleted(page)] + rest;
      if budget > 0 && !Refused(ws[0]) {
        UpsertKeepsSettled(a, st.table, st.nextPage, page, d);
        assert ds == [d] + ds[1..];
        UpsertAllFront(st.table, d, ds[1..]);
        RestOfPageKeepsSound(a, Apply(st, ws[0]), page, ds[1..], rest, budget - 1);
      }
    }
  }

  lemma {:induction false} PagesKeepSound(a: Archive, st: Store, page: nat, limit: nat, budget: nat)
    requires Contiguous(a) && Sound(a, st) && 1 <= page <= st.nextPage && (page == st.nextPage || Consistent(a))
    ensures Sound(a, Interrupted(st, PagesWrites(a, page, limit, None), budget))
    decreases limit
  {
    var ws := PagesWrites(a, page, limit, None);
    if limit == 0 || PageAt(a, page) == [] {
      LastWriteKeepsSound(a, st, page, ws, budget);
    } else {
      var rest := PagesWrites(a, page + 1, limit - 1, None);
      forall st', b: nat | Sound(a, st') && st'.nextPage == page + 1 ensures Sound(a, Interrupted(st', rest, b)) {
        PagesKeepSound(a, st', page + 1, limit - 1, b);
      }
      SettledEarlier(a, st.table, st.nextPage, page);
      PageSettles(a, st.table, page);
      RestOfPageKeepsSound(a, st, page, PageDetails(a, page), rest, budget);
    }
  }

  lemma LastWriteKeepsSound(a: Archive, st: Store, page: nat, ws: seq<Write>, budget: nat)
    requires Contiguous(a) && Sound(a, st) && 1 <= page <= st.nextPage
    requires ws == [Finished(false)] || (ws == [Finished(true)] && PageAt(a, page) == [])
    ensures Sound(a, Interrupted(st, ws, budget))
  {
    if budget > 0 {
      assert ws[1..] == [];
      assert Interrupted(st, ws, budget) == Interrupted(Apply(st, ws[0]), [], budget - 1) == Apply(st, ws[0]);
    }
  }

  /**
   Wherever a bootstrap stops, everything below its checkpoint is in the table for good, and an exhausted
   archive is.
   */
  lemma RunKeepsSound(a: Archive, st: Store, start: nat, limit: nat, budget: nat)
    requires Contiguous(a) && Sound(a, st) && 1 <= start <= st.nextPage && (start == st.nextPage || Consistent(a))
    ensures Sound(a, Interrupted(st, RunWrites(a, true, start, limit, None), budget))
  {
    var ws := RunWrites(a, true, start, limit, None);
    assert ws[1..] == PagesWrites(a, start, limit, None);
    if budget > 0 {
      PagesKeepSound(a, Apply(st, ws[0]), start, limit, budget - 1);
    }
  }

  // ---------- Interrupted and resumed, as if never interrupted ----------

  // A run that may stop after `budget` writes; it resumes from the checkpoint or starts at a given page.
  datatype PlainAttempt = PlainAttempt(startPage: Option<int>, limit: nat, budget: nat)

  const EMPTY_STORE := Store(map[], 1, false)

  function StartOf(t: PlainAttempt, st: Store): nat {
    StartPage(t.startPage, true, st.nextPage)
  }

  function AfterAttempts(a: Archive, ts: seq<PlainAttempt>): Store {
    if ts == [] then EMPTY_STORE
    else
      var st, t := AfterAttempts(a, ts[..|ts| - 1]), ts[|ts| - 1];
      Interrupted(st, RunWrites(a, true, StartOf(t, st), t.limit, None), t.budget)
  }

  // No attempt starts beyond the checkpoint it finds, or before it unless the archive is consistent.
  ghost predicate NeverSkips(a: Archive, ts: seq<PlainAttempt>) {
    forall i :: 0 <= i < |ts| ==>
      var st := AfterAttempts(a, ts[..i]);
        StartOf(ts[i], st) == st.nextPage || (Consistent(a) && StartOf(ts[i], st) <= st.nextPage)
  }

  lemma EmptyStoreIsSound(a: Archive)
    ensures Sound(a, EMPTY_STORE)
  {
    forall k | !WrittenFrom(a, 1, k) ensures AgreeAt(map[], FullTable(a), k) {
      FullTableAt(a, 0, k);
    }
  }

  lemma {:induction false} AttemptsAreSound(a: Archive, ts: seq<PlainAttempt>)
    requires Contiguous(a) && NeverSkips(a, ts)
    ensures Sound(a, AfterAttempts(a, ts))
  {
    if ts == [] {
      EmptyStoreIsSound(a);
    } else {
      var front, t := ts[..|ts| - 1], ts[|ts| - 1];
      forall i | 0 <= i < |front| ensures front[..i] == ts[..i] {
      }
      AttemptsAreSound(a, front);
      var st := AfterAttempts(a, front);
      RunKeepsSound(a, st, StartOf(t, st), t.limit, t.budget);
    }
  }

  /** After any interruptions, an archive recorded as exhausted is in the table exactly as one clean pass leaves it. */
  lemma ExhaustedMeansComplete(a: Archive, ts: seq<PlainAttempt>)
    requires Contiguous(a) && NeverSkips(a, ts) && AfterAttempts(a, ts).exhausted
    ensures AfterAttempts(a, ts).table == FullTable(a) && PageAt(a, AfterAttempts(a, ts).nextPage) == []
  {
    AttemptsAreSound(a, ts);
    SettledAtTheEnd(a, AfterAttempts(a, ts).table, AfterAttempts(a, ts).nextPage);
  }

  // When every write gets through, the last one decides.
  lemma {:induction false} LastWriteExhausts(st: Store, ws: seq<Write>, budget: nat)
    requires EndsExhausted(ws) && Completes(ws, budget)
    ensures Interrupted(st, ws, budget).exhausted
    decreases |ws|
  {
    assert ws[0] in ws;
    if |ws| == 1 {
      assert ws[1..] == [];
      assert Interrupted(st, ws, budget) == Interrupted(Apply(st, ws[0]), [], budget - 1);
    } else {
      assert forall w :: w in ws[1..] ==> w in ws;
      LastWriteExhausts(Apply(st, ws[0]), ws[1..], budget - 1);
    }
  }

  ghost predicate EndsExhausted(ws: seq<Write>) {
    ws != [] && ws[|ws| - 1] == Finished(true)
  }

  lemma EndsConcat(ws: seq<Write>, rest: seq<Write>)
    requires EndsExhausted(rest)
    ensures EndsExhausted(ws + rest)
  {
  }

  lemma {:induction false} PagesEndExhausted(a: Archive, page: nat, limit: nat, ws: seq<Write>)
    requires 1 <= page <= |a.pages| + 1 < page + limit && ws == PagesWrites(a, page, limit, None)
    ensures EndsExhausted(ws)
    decreases limit
  {
    if PageAt(a, page) != [] {
      var rest := PagesWrites(a, page + 1, limit - 1, None);
      NoCutoffGoesOn(a, page, limit);
      PagesEndExhausted(a, page + 1, limit - 1, rest);
      EndsConcat(PageWrites(a, page, None), rest);
    }
  }

  lemma NoCutoffGoesOn(a: Archive, page: nat, limit: nat)
    requires limit > 0 && PageAt(a, page) != []
    ensures PagesWrites(a, page, limit, None) == PageWrites(a, page, None) + PagesWrites(a, page + 1, limit - 1, None)
  {
  }

  /**
   A resumed bootstrap that gets through ends, after any interruptions before it, with the table of one clean
   pass.
   */
  lemma ResumingCompletes(a: Archive, ts: seq<PlainAttempt>, last: PlainAttempt)
    requires Contiguous(a) && NeverSkips(a, ts + [last]) && last.startPage.None?
    requires var st := AfterAttempts(a, ts);
      st.nextPage + last.limit > |a.pages| + 1
        && Completes(RunWrites(a, true, st.nextPage, last.limit, None), last.budget)
    ensures AfterAttempts(a, ts + [last]).exhausted && AfterAttempts(a, ts + [last]).table == FullTable(a)
  {
    var st := AfterAttempts(a, ts);
    assert (ts + [last])[..|ts|] == ts;
    forall i | 0 <= i < |ts| ensures (ts + [last])[..i] == ts[..i] {
    }
    assert NeverSkips(a, ts);
    AttemptsAreSound(a, ts);
    PagesEndExhausted(a, st.nextPage, last.limit, PagesWrites(a, st.nextPage, last.limit, None));
    LastWriteExhausts(st, RunWrites(a, true, st.nextPage, last.limit, None), last.budget);
    ExhaustedMeansComplete(a, ts + [last]);
  }

  // ---------- When a given start page is safe ----------

  ghost predicate PageMatters(a: Archive, page: nat) {
    exists k :: OnlyOn(a, page, k)
  }

  // Every page lists a match that no other page writes.
  ghost predicate EachPageMatters(a: Archive) {
    forall p: nat :: 1 <= p <= |a.pages| ==> PageMatters(a, p)
  }

  // The store of a bootstrap that has just completed the pages below `next`.
  function CheckpointAt(a: Archive, next: nat): Store
    requires next >= 1
  {
    Store(TableUpTo(a, next - 1), next, false)
  }

  lemma CheckpointIsSound(a: Archive, next: nat)
    requires 1 <= next <= |a.pages| + 1
    ensures Sound(a, CheckpointAt(a, next))
  {
    forall k | !WrittenFrom(a, next, k) ensures AgreeAt(TableUpTo(a, next - 1), FullTable(a), k) {
      FullTableAt(a, next - 1, k);
    }
  }

  lemma {:induction false} TableUpToHolds(a: Archive, page: nat, k: Item)
    ensures k in TableUpTo(a, page) ==> exists p: nat :: 1 <= p <= page && WrittenBy(PageDetails(a, p), k)
  {
    if page > 0 {
      TableUpToHolds(a, page - 1, k);
      UpsertAllAt(TableUpTo(a, page - 1), map[], PageDetails(a, page), k);
    }
  }

  // A run only adds what its pages list.
  lemma {:induction false} WritesAddTheirOwn(st: Store, ws: seq<Write>, budget: nat, k: Item)
    requires WritesElse(ws, k)
    ensures k in Interrupted(st, ws, budget).table <==> k in st.table
    decreases |ws|
  {
    if ws != [] && budget > 0 && !Refused(ws[0]) {
      WritesAddTheirOwn(Apply(st, ws[0]), ws[1..], budget - 1, k);
    }
  }

  ghost predicate WritesElse(ws: seq<Write>, k: Item) {
    forall w :: w in ws && w.Upserted? ==> k !in ItemsOf(w.d)
  }

  lemma {:induction false} WritesFrom(a: Archive, page: nat, limit: nat, d: Detail) returns (p: nat)
    requires Writes(a, page, limit, None, d)
    ensures page <= p && d in PageDetails(a, p)
    decreases limit
  {
    if d in PageDetails(a, page) {
      p := page;
    } else {
      p := WritesFrom(a, page + 1, limit - 1, d);
    }
  }

  lemma PagesWriteTheirOwn(a: Archive, page: nat, limit: nat, k: Item)
    requires !WrittenFrom(a, page, k)
    ensures WritesElse(PagesWrites(a, page, limit, None), k)
  {
    forall w | w in PagesWrites(a, page, limit, None) && w.Upserted? ensures k !in ItemsOf(w.d) {
      WritesAreUpserts(a, page, limit, None, w.d);
      var p := WritesFrom(a, page, limit, w.d);
      assert !WrittenBy(PageDetails(a, p), k);
    }
  }

  ghost predicate CompletesFrom(ws: seq<Write>, page: nat) {
    forall w :: w in ws && w.PageCompleted? ==> w.page >= page
  }

  lemma {:induction false} PagesCompleteFrom(a: Archive, page: nat, limit: nat)
    ensures CompletesFrom(PagesWrites(a, page, limit, None), page)
    decreases limit
  {
    if limit > 0 && PageAt(a, page) != [] {
      PagesCompleteFrom(a, page + 1, limit - 1);
      CompletesFromConcat(Upserts(PageDetails(a, page)) + [PageCompleted(page)],
                          PagesWrites(a, page + 1, limit - 1, None), page);
    }
  }

  lemma CompletesFromConcat(ws: seq<Write>, rest: seq<Write>, page: nat)
    requires CompletesFrom(ws, page) && CompletesFrom(rest, page + 1)
    ensures CompletesFrom(ws + rest, page)
  {
  }

  lemma {:induction false} CheckpointMovesOn(st: Store, ws: seq<Write>, budget: nat, page: nat)
    requires CompletesFrom(ws, page) && Completes(ws, budget)
    requires st.nextPage > page || exists w :: w in ws && w.PageCompleted?
    ensures Interrupted(st, ws, budget).nextPage > page
    decreases |ws|
  {
    if ws != [] {
      assert ws[0] in ws && forall w :: w in ws[1..] ==> w in ws;
      assert forall w :: w in ws ==> w == ws[0] || w in ws[1..];
      CheckpointMovesOn(Apply(st, ws[0]), ws[1..], budget - 1, page);
    }
  }

  lemma EndReadTooEarly(a: Archive, next: nat, start: nat, limit: nat, budget: nat)
    requires Contiguous(a) && 1 <= next <= |a.pages| < start && limit > 0 && budget > 0
    ensures !Sound(a, Interrupted(CheckpointAt(a, next), PagesWrites(a, start, limit, None), budget))
  {
    var st, ws := CheckpointAt(a, next), PagesWrites(a, start, limit, None);
    assert ws == [Finished(true)] && ws[1..] == [];
    assert Interrupted(st, ws, budget) == Interrupted(Apply(st, ws[0]), [], budget - 1);
  }

  // A match that only the page `page` writes.
  ghost predicate OnlyOn(a: Archive, page: nat, k: Item) {
    WrittenBy(PageDetails(a, page), k) && forall q: nat :: q != page ==> !WrittenBy(PageDetails(a, q), k)
  }

  lemma NotWrittenAfter(a: Archive, page: nat, later: nat, k: Item)
    requires OnlyOn(a, page, k) && page < later
    ensures !WrittenFrom(a, later, k)
  {
  }

  lemma NotWrittenBefore(a: Archive, page: nat, k: Item)
    requires 1 <= page && OnlyOn(a, page, k)
    ensures k !in TableUpTo(a, page - 1)
  {
    TableUpToHolds(a, page - 1, k);
  }

  lemma SkippedMatchIsMissing(a: Archive, next: nat, start: nat, limit: nat, budget: nat, k: Item)
    requires 1 <= next < start && OnlyOn(a, next, k)
    ensures k !in Interrupted(CheckpointAt(a, next), PagesWrites(a, start, limit, None), budget).table
  {
    NotWrittenBefore(a, next, k);
    NotWrittenAfter(a, next, start, k);
    PagesWriteTheirOwn(a, start, limit, k);
    WritesAddTheirOwn(CheckpointAt(a, next), PagesWrites(a, start, limit, None), budget, k);
  }

  lemma SkippedMatchIsDue(a: Archive, next: nat, k: Item)
    requires 1 <= next <= |a.pages| && OnlyOn(a, next, k)
    ensures k in FullTable(a) && !WrittenFrom(a, next + 1, k)
  {
    assert !WrittenFrom(a, next + 1, k);
    FullTableAt(a, next, k);
    UpsertAllKeeps(TableUpTo(a, next - 1), PageDetails(a, next), k);
  }

  lemma SkippedPageIsUnsound(a: Archive, next: nat, start: nat, limit: nat, budget: nat, k: Item)
    requires 1 <= next < start <= |a.pages| && limit > 0 && OnlyOn(a, next, k) && Contiguous(a)
    requires Completes(PagesWrites(a, start, limit, None), budget)
    ensures !Sound(a, Interrupted(CheckpointAt(a, next), PagesWrites(a, start, limit, None), budget))
  {
    var ws := PagesWrites(a, start, limit, None);
    SkippedMatchIsMissing(a, next, start, limit, budget, k);
    SkippedMatchIsDue(a, next, k);
    PagesCompleteFrom(a, start, limit);
    assert PageCompleted(start) in ws;
    CheckpointMovesOn(CheckpointAt(a, next), ws, budget, start);
    var after := Interrupted(CheckpointAt(a, next), ws, budget);
    NotWrittenLater(a, next + 1, after.nextPage, k);
    assert !AgreeAt(after.table, FullTable(a), k);
  }

  lemma NotWrittenLater(a: Archive, page: nat, later: nat, k: Item)
    requires !WrittenFrom(a, page, k) && page <= later
    ensures !WrittenFrom(a, later, k)
  {
  }

  lemma {:induction false} UpsertAllKeeps(table: Table, ds: seq<Detail>, k: Item)
    requires WrittenBy(ds, k)
    ensures k in UpsertAll(table, ds)
  {
    if k !in ItemsOf(ds[|ds| - 1]) {
      UpsertAllKeeps(table, ds[..|ds| - 1], k);
    }
  }

  /** A start page given by hand is safe exactly when it does not lie beyond the checkpoint. */
  lemma GivenStartIsSoundIff(a: Archive, next: nat, start: nat, limit: nat, budget: nat)
    requires Contiguous(a) && Consistent(a) && EachPageMatters(a) && 1 <= next <= |a.pages| && 1 <= start && limit > 0
    requires Completes(PagesWrites(a, start, limit, None), budget)
    ensures Sound(a, Interrupted(CheckpointAt(a, next), PagesWrites(a, start, limit, None), budget)) <==> start <= next
  {
    CheckpointIsSound(a, next);
    if start <= next {
      PagesKeepSound(a, CheckpointAt(a, next), start, limit, budget);
    } else {
      if start > |a.pages| {
        EndReadTooEarly(a, next, start, limit, budget);
      } else {
        assert PageMatters(a, next);
        var k :| OnlyOn(a, next, k);
        SkippedPageIsUnsound(a, next, start, limit, budget, k);
      }
    }
  }
}
