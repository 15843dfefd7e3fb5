/**
 The remote archive of a server and the writes a run makes for it (historical_ingestion): pages of
 listed matches, the details behind them, and the checkpoints between the pages.
 */
module ArchiveListing {
  import opened Options
  import opened HistoricalMerge

  // One line of a listing page; `at` is the match timestamp when there is one.
  datatype Summary = Summary(id: string, at: Option<int>)

  // A fetched match: the columns it stores and the statistics of its players.
  datatype Detail = Detail(id: string, columns: seq<Cell>, players: map<int, StatRow>)

  // What the extraction of a payload gives: every column, and a pretty name that is not the empty text.
  ghost predicate Extracted(d: Detail) {
    && |d.columns| == COLUMNS && d.columns[MAP_PRETTY_NAME] != Text("")
    && forall p :: p in d.players ==> |d.players[p].numbers| == NUMBERS
  }

  // The remote archive of one server: non-empty pages, then nothing; and the detail behind each listed id.
  datatype Archive = Archive(server: int, pages: seq<seq<Summary>>, detail: string -> Detail)

  datatype Write = Started(bootstrap: bool) | Upserted(d: Detail) | PageCompleted(page: nat) | Finished(exhausted: bool)

  ghost predicate Contiguous(a: Archive) {
    forall i :: 0 <= i < |a.pages| ==> a.pages[i] != []
  }

  function PageAt(a: Archive, page: nat): seq<Summary> {
    if 1 <= page <= |a.pages| then a.pages[page - 1] else []
  }

  // ---------- What a run writes ----------

  predicate TooOld(s: Summary, cutoff: Option<int>) {
    cutoff.Some? && s.at.Some? && s.at.value < cutoff.value
  }

  function IdsToFetch(page: seq<Summary>, cutoff: Option<int>): seq<string> {
    if page == [] then []
    else
      var last := page[|page| - 1];
      IdsToFetch(page[..|page| - 1], cutoff) + (if TooOld(last, cutoff) || last.id == "" then [] else [last.id])
  }

  predicate StopsAfter(page: seq<Summary>, cutoff: Option<int>) {
    exists s <- page :: TooOld(s, cutoff)
  }

  function Details(a: Archive, ids: seq<string>): seq<Detail> {
    seq<Detail>(|ids|, i requires 0 <= i < |ids| => a.detail(ids[i]))
  }

  function Upserts(ds: seq<Detail>): seq<Write> {
    seq(|ds|, i requires 0 <= i < |ds| => Upserted(ds[i]))
  }

  function PageWrites(a: Archive, page: nat, cutoff: Option<int>): seq<Write> {
    Upserts(Details(a, IdsToFetch(PageAt(a, page), cutoff))) + [PageCompleted(page)]
  }

  // The pages from `page` on, at most `limit` of them.
  function PagesWrites(a: Archive, page: nat, limit: nat, cutoff: Option<int>): seq<Write>
    decreases limit
  {
    if limit == 0 then [Finished(false)]
    else if PageAt(a, page) == [] then [Finished(true)]
    else
      PageWrites(a, page, cutoff)
      + (if StopsAfter(PageAt(a, page), cutoff) then [Finished(false)] else PagesWrites(a, page + 1, limit - 1, cutoff))
  }

  function RunWrites(a: Archive, bootstrap: bool, start: nat, limit: nat, cutoff: Option<int>): seq<Write> {
    [Started(bootstrap)] + PagesWrites(a, start, limit, cutoff)
  }

  // upsert_historical_match refuses a match without an id.
  predicate Refused(w: Write) {
    w.Upserted? && w.d.id == ""
  }

  // Every write gets through.
  predicate Completes(ws: seq<Write>, budget: nat) {
    |ws| <= budget && forall w <- ws :: !Refused(w)
  }

  // _resolve_start_page
  function StartPage(startPage: Option<int>, bootstrap: bool, nextPage: nat): (start: nat)
    ensures start >= 1
    ensures startPage.None? && bootstrap && nextPage >= 1 ==> start == nextPage
  {
    if startPage.Some? then (if startPage.value > 1 then startPage.value else 1)
    else if !bootstrap then 1
    else if nextPage > 1 then nextPage else 1
  }

  // ---------- What a refresh with a cutoff writes ----------

  // The archive lists the newest matches first.
  ghost predicate NewestFirst(a: Archive) {
    forall p: nat, q: nat, s, t :: p < q && s in PageAt(a, p) && t in PageAt(a, q) && s.at.Some? && t.at.Some? ==>
      t.at.value <= s.at.value
  }

  ghost predicate ListedRecent(a: Archive, page: nat, cutoff: Option<int>, s: Summary) {
    s in PageAt(a, page) && !TooOld(s, cutoff) && s.id != ""
  }

  lemma {:induction false} IdsToFetchHolds(page: seq<Summary>, cutoff: Option<int>, id: string)
    ensures id in IdsToFetch(page, cutoff) <==> exists s :: s in page && !TooOld(s, cutoff) && s.id == id && id != ""
  {
    if page != [] {
      var front, last := page[..|page| - 1], page[|page| - 1];
      IdsToFetchHolds(front, cutoff, id);
      assert forall s :: s in page <==> s in front || s == last;
    }
  }

  // The run from `page` on writes `d`, on this page or, if it goes on, later.
  predicate Writes(a: Archive, page: nat, limit: nat, cutoff: Option<int>, d: Detail)
    decreases limit
  {
    && limit > 0 && PageAt(a, page) != []
    && (d in Details(a, IdsToFetch(PageAt(a, page), cutoff))
      || (!StopsAfter(PageAt(a, page), cutoff) && Writes(a, page + 1, limit - 1, cutoff, d)))
  }

  lemma UpsertsHold(ds: seq<Detail>, d: Detail, page: nat)
    ensures Upserted(d) in Upserts(ds) + [PageCompleted(page)] <==> d in ds
  {
    if d in ds {
      var i :| 0 <= i < |ds| && ds[i] == d;
      assert Upserts(ds)[i] == Upserted(d);
    }
  }

  lemma {:induction false} WritesAreUpserts(a: Archive, page: nat, limit: nat, cutoff: Option<int>, d: Detail)
    ensures Writes(a, page, limit, cutoff, d) <==> Upserted(d) in PagesWrites(a, page, limit, cutoff)
    decreases limit
  {
    if limit > 0 && PageAt(a, page) != [] {
      UpsertsHold(Details(a, IdsToFetch(PageAt(a, page), cutoff)), d, page);
      WritesAreUpserts(a, page + 1, limit - 1, cutoff, d);
    }
  }

  lemma DetailsHold(a: Archive, page: nat, cutoff: Option<int>, d: Detail)
    ensures d in Details(a, IdsToFetch(PageAt(a, page), cutoff))
      <==> exists s :: ListedRecent(a, page, cutoff, s) && d == a.detail(s.id)
  {
    var ids := IdsToFetch(PageAt(a, page), cutoff);
    if d in Details(a, ids) {
      var i :| 0 <= i < |ids| && Details(a, ids)[i] == d;
      assert ids[i] in ids;
      IdsToFetchHolds(PageAt(a, page), cutoff, ids[i]);
      var s :| s in PageAt(a, page) && !TooOld(s, cutoff) && s.id == ids[i];
      assert ListedRecent(a, page, cutoff, s);
    }
    if s :| ListedRecent(a, page, cutoff, s) && d == a.detail(s.id) {
      IdsToFetchHolds(PageAt(a, page), cutoff, s.id);
      var i :| 0 <= i < |ids| && ids[i] == s.id;
      assert Details(a, ids)[i] == d;
    }
  }

  lemma GoesOnBefore(a: Archive, page: nat, cutoff: Option<int>, p: nat, s: Summary)
    requires NewestFirst(a) && page < p && ListedRecent(a, p, cutoff, s) && s.at.Some?
    ensures !StopsAfter(PageAt(a, page), cutoff)
  {
    forall t | t in PageAt(a, page) ensures !TooOld(t, cutoff) {
      if t.at.Some? {
        assert s.at.value <= t.at.value;
      }
    }
  }

  lemma {:induction false} ReachesRecent(a: Archive, page: nat, limit: nat, cutoff: Option<int>, p: nat, s: Summary)
    requires NewestFirst(a) && Contiguous(a) && 1 <= page <= p && p - page < limit
    requires ListedRecent(a, p, cutoff, s) && s.at.Some?
    ensures Writes(a, page, limit, cutoff, a.detail(s.id))
    decreases limit
  {
    if page == p {
      DetailsHold(a, p, cutoff, a.detail(s.id));
    } else {
      GoesOnBefore(a, page, cutoff, p, s);
      ReachesRecent(a, page + 1, limit - 1, cutoff, p, s);
    }
  }

  ghost predicate WasListed(a: Archive, cutoff: Option<int>, d: Detail) {
    exists p: nat, s :: ListedRecent(a, p, cutoff, s) && d == a.detail(s.id)
  }

  lemma {:induction false} WritesAreListed(a: Archive, page: nat, limit: nat, cutoff: Option<int>, d: Detail)
    requires Writes(a, page, limit, cutoff, d)
    ensures WasListed(a, cutoff, d)
    decreases limit
  {
    DetailsHold(a, page, cutoff, d);
    if d !in Details(a, IdsToFetch(PageAt(a, page), cutoff)) {
      WritesAreListed(a, page + 1, limit - 1, cutoff, d);
    }
  }

  /** A refresh of an archive that lists the newest first stops early and still misses no match from the cutoff on. */
  lemma RefreshMissesNothingRecent(a: Archive, limit: nat, cutoff: Option<int>, p: nat, s: Summary)
    requires NewestFirst(a) && Contiguous(a) && 1 <= p <= limit
    requires ListedRecent(a, p, cutoff, s) && s.at.Some?
    ensures Upserted(a.detail(s.id)) in PagesWrites(a, 1, limit, cutoff)
  {
    ReachesRecent(a, 1, limit, cutoff, p, s);
    WritesAreUpserts(a, 1, limit, cutoff, a.detail(s.id));
  }

  // A listed match with an id whose time is known and not before the cutoff.
  predicate IsRecent(s: Summary, cutoff: Option<int>) {
    s.id != "" && s.at.Some? && (cutoff.Some? ==> cutoff.value <= s.at.value)
  }

  ghost predicate WritesAllRecent(a: Archive, limit: nat, cutoff: Option<int>, ws: seq<Write>) {
    forall p, s :: 1 <= p <= limit && s in PageAt(a, p) && IsRecent(s, cutoff) ==> Upserted(a.detail(s.id)) in ws
  }

  lemma RefreshWritesAllRecent(a: Archive, limit: nat, cutoff: Option<int>)
    requires NewestFirst(a) && Contiguous(a)
    ensures WritesAllRecent(a, limit, cutoff, RunWrites(a, false, 1, limit, cutoff))
  {
    forall p, s | 1 <= p <= limit && s in PageAt(a, p) && IsRecent(s, cutoff)
      ensures Upserted(a.detail(s.id)) in RunWrites(a, false, 1, limit, cutoff)
    {
      RefreshMissesNothingRecent(a, limit, cutoff, p, s);
    }
  }

  // Nothing is written but matches that are listed with an id and not with a time before the cutoff.
  ghost predicate WritesOnlyRecent(a: Archive, cutoff: Option<int>, ws: seq<Write>) {
    forall d :: Upserted(d) in ws ==>
      exists p: nat, s :: IsListedSince(a, p, s, cutoff) && a.detail(s.id) == d
  }

  ghost predicate IsListedSince(a: Archive, p: nat, s: Summary, cutoff: Option<int>) {
    s in PageAt(a, p) && s.id != "" && (cutoff.Some? && s.at.Some? ==> cutoff.value <= s.at.value)
  }

  lemma RunWritesOnlyRecent(a: Archive, bootstrap: bool, page: nat, limit: nat, cutoff: Option<int>)
    ensures WritesOnlyRecent(a, cutoff, RunWrites(a, bootstrap, page, limit, cutoff))
  {
    forall d | Upserted(d) in RunWrites(a, bootstrap, page, limit, cutoff)
      ensures exists p: nat, s :: IsListedSince(a, p, s, cutoff) && a.detail(s.id) == d
    {
      RefreshWritesOnlyRecent(a, page, limit, cutoff, d);
      var p: nat, s :| ListedRecent(a, p, cutoff, s) && d == a.detail(s.id);
      assert IsListedSince(a, p, s, cutoff);
    }
  }

  // The pages completed are those from `page` on without a gap, at most `limit` of them, and `page` itself is read.
  ghost predicate ReadsFrom(a: Archive, page: int, limit: nat, ws: seq<Write>) {
    && (forall p: nat :: PageCompleted(p) in ws ==> page <= p < page + limit && PageAt(a, p) != [])
    && (forall p: nat, q: nat :: PageCompleted(p) in ws && page <= q <= p ==> PageCompleted(q) in ws)
    && (limit > 0 && 1 <= page <= |a.pages| && a.pages[page - 1] != [] ==> PageCompleted(page) in ws)
    && (limit > 0 && page > |a.pages| ==> |ws| == 2 && ws[1] == Finished(true))
  }

  lemma PageWritesComplete(a: Archive, page: nat, cutoff: Option<int>, p: nat)
    ensures PageCompleted(p) in PageWrites(a, page, cutoff) <==> p == page
  {
    assert PageWrites(a, page, cutoff)[|PageWrites(a, page, cutoff)| - 1] == PageCompleted(page);
  }

  // The run from `page` on completes page `p`.
  predicate Completed(a: Archive, page: nat, limit: nat, cutoff: Option<int>, p: nat)
    decreases limit
  {
    && limit > 0 && PageAt(a, page) != []
    && (p == page || (!StopsAfter(PageAt(a, page), cutoff) && Completed(a, page + 1, limit - 1, cutoff, p)))
  }

  lemma {:induction false} CompletedIsWritten(a: Archive, page: nat, limit: nat, cutoff: Option<int>, p: nat)
    ensures PageCompleted(p) in PagesWrites(a, page, limit, cutoff) <==> Completed(a, page, limit, cutoff, p)
    decreases limit
  {
    if limit == 0 || PageAt(a, page) == [] {
      NothingIsCompleted(a, page, limit, cutoff, p);
    } else {
      CompletedIsWritten(a, page + 1, limit - 1, cutoff, p);
      CompletedOnThisPage(a, page, limit, cutoff, p);
    }
  }

  lemma CompletedOnThisPage(a: Archive, page: nat, limit: nat, cutoff: Option<int>, p: nat)
    requires limit > 0 && PageAt(a, page) != []
    requires PageCompleted(p) in PagesWrites(a, page + 1, limit - 1, cutoff)
      <==> Completed(a, page + 1, limit - 1, cutoff, p)
    ensures PageCompleted(p) in PagesWrites(a, page, limit, cutoff) <==> Completed(a, page, limit, cutoff, p)
  {
    PageWritesComplete(a, page, cutoff, p);
    OnThisPageOrLater(a, page, limit, cutoff, PageCompleted(p));
  }

  lemma NothingIsCompleted(a: Archive, page: nat, limit: nat, cutoff: Option<int>, p: nat)
    requires limit == 0 || PageAt(a, page) == []
    ensures PageCompleted(p) !in PagesWrites(a, page, limit, cutoff)
  {
  }

  lemma OnThisPageOrLater(a: Archive, page: nat, limit: nat, cutoff: Option<int>, w: Write)
    requires limit > 0 && PageAt(a, page) != []
    ensures w in PagesWrites(a, page, limit, cutoff) <==>
      || w in PageWrites(a, page, cutoff)
      || (if StopsAfter(PageAt(a, page), cutoff) then w == Finished(false)
          else w in PagesWrites(a, page + 1, limit - 1, cutoff))
  {
  }

  lemma {:induction false} CompletedInOrder(a: Archive, page: nat, limit: nat, cutoff: Option<int>, p: nat, q: nat)
    requires Completed(a, page, limit, cutoff, p)
    ensures page <= p < page + limit && PageAt(a, p) != []
    ensures page <= q <= p ==> Completed(a, page, limit, cutoff, q)
    decreases limit
  {
    if p != page {
      CompletedInOrder(a, page + 1, limit - 1, cutoff, p, q);
    }
  }

  lemma RunCompletes(a: Archive, bootstrap: bool, page: nat, limit: nat, cutoff: Option<int>, p: nat)
    ensures PageCompleted(p) in RunWrites(a, bootstrap, page, limit, cutoff) <==> Completed(a, page, limit, cutoff, p)
  {
    CompletedIsWritten(a, page, limit, cutoff, p);
  }

  lemma RunReadsFrom(a: Archive, bootstrap: bool, page: nat, limit: nat, cutoff: Option<int>)
    ensures ReadsFrom(a, page, limit, RunWrites(a, bootstrap, page, limit, cutoff))
  {
    var ws := RunWrites(a, bootstrap, page, limit, cutoff);
    forall p: nat ensures PageCompleted(p) in ws <==> Completed(a, page, limit, cutoff, p) {
      RunCompletes(a, bootstrap, page, limit, cutoff, p);
    }
    forall p: nat, q: nat
      ensures Completed(a, page, limit, cutoff, p) ==> page <= p < page + limit && PageAt(a, p) != []
      ensures Completed(a, page, limit, cutoff, p) && page <= q <= p ==> Completed(a, page, limit, cutoff, q)
    {
      if Completed(a, page, limit, cutoff, p) {
        CompletedInOrder(a, page, limit, cutoff, p, q);
      }
    }
    if limit > 0 && page > |a.pages| {
      assert PagesWrites(a, page, limit, cutoff) == [Finished(true)];
    }
  }

  /** A refresh writes no match whose listing is older than the cutoff. */
  lemma RefreshWritesOnlyRecent(a: Archive, page: nat, limit: nat, cutoff: Option<int>, d: Detail)
    requires Upserted(d) in PagesWrites(a, page, limit, cutoff)
    ensures WasListed(a, cutoff, d)
  {
    WritesAreUpserts(a, page, limit, cutoff, d);
    WritesAreListed(a, page, limit, cutoff, d);
  }
}
