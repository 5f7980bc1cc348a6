/** import_soups: fetch pages of records from the search endpoint and write each page
    in one committed transaction. */
module Importer {
  import opened Wrappers
  import opened Chunking
  import opened Payload
  import opened Store

  /** A request for one page: how many records and from which offset. */
  datatype Request = Request(limit: int, offset: nat)

  /** The endpoint's answer: a page of records (an absent or null result list is an
      empty page), or an HTTP error status. */
  datatype Response = Page(records: seq<SourceRecipe>) | HttpError(status: int)

  datatype ImportError = FetchFailed(status: int) | WriteFailed

  /** The number of records in the pages. */
  function Total(pages: seq<seq<SourceRecipe>>): nat
    decreases |pages|
  {
    if pages == [] then 0 else Total(pages[..|pages| - 1]) + |pages[|pages| - 1]|
  }

  /** The request for the page after done records: `min(page_size, total - imported)`
      records from offset done. */
  function RequestAt(total: int, pageSize: int, done: nat): Request {
    Request(Min(pageSize, total - done), done)
  }

  /** The pages are the endpoint's answers to the requests the loop makes, in order:
      each was asked for while fewer than total records were imported, and none is
      empty. */
  ghost predicate FetchedInOrder(fetch: Request -> Response, total: int, pageSize: int,
                                 pages: seq<seq<SourceRecipe>>) {
    forall k | 0 <= k < |pages| ::
      && Total(pages[..k]) < total
      && pages[k] != []
      && fetch(RequestAt(total, pageSize, Total(pages[..k]))) == Page(pages[k])
  }

  lemma TotalSnoc(pages: seq<seq<SourceRecipe>>, page: seq<SourceRecipe>)
    ensures Total(pages + [page]) == Total(pages) + |page|
    ensures forall k | 0 <= k <= |pages| :: (pages + [page])[..k] == pages[..k]
  {
    assert (pages + [page])[..|pages|] == pages;
  }

  // ---------- the writes of a page, as a function of the tables ----------

  /** What one record writes, under its key. */
  datatype Entry = Entry(key: RecipeKey, w: Writes)

  function EntryOf(srcId: Id, hash: string -> string, r: SourceRecipe): Entry {
    Entry(RecipeKeyOf(srcId, r), WritesOf(hash, r))
  }

  function EntryFor(srcId: Id, hash: string -> string): SourceRecipe -> Entry {
    r => EntryOf(srcId, hash, r)
  }

  /** The entries of a page's records, in order. */
  function Entries(entry: SourceRecipe -> Entry, records: seq<SourceRecipe>): (es: seq<Entry>)
    ensures |es| == |records|
    decreases |records|
  {
    if records == [] then [] else Entries(entry, records[..|records| - 1]) + [entry(records[|records| - 1])]
  }

  function EntriesOf(srcId: Id, hash: string -> string, records: seq<SourceRecipe>): (es: seq<Entry>)
    ensures |es| == |records|
  {
    Entries(EntryFor(srcId, hash), records)
  }

  /** The entries of one more record are the entries so far and the record's own. */
  lemma EntriesSnoc(entry: SourceRecipe -> Entry, records: seq<SourceRecipe>, i: nat)
    requires i < |records|
    ensures Entries(entry, records[..i + 1]) == Entries(entry, records[..i]) + [entry(records[i])]
  {
    assert records[..i + 1][..i] == records[..i];
  }

  function PagesEntries(srcId: Id, hash: string -> string, pages: seq<seq<SourceRecipe>>): (pes: seq<seq<Entry>>)
    ensures |pes| == |pages|
    decreases |pages|
  {
    if pages == [] then []
    else PagesEntries(srcId, hash, pages[..|pages| - 1]) + [EntriesOf(srcId, hash, pages[|pages| - 1])]
  }

  /** One insertion order per entry, for the entry's unique ingredient names. */
  ghost predicate OrdersFor(es: seq<Entry>, orders: seq<seq<string>>) {
    |orders| == |es| && forall i | 0 <= i < |es| :: Enumerates(orders[i], UniqueNames(es[i].w.items))
  }

  lemma OrdersForPrefix(es: seq<Entry>, orders: seq<seq<string>>, n: nat)
    requires OrdersFor(es, orders) && n <= |es|
    ensures OrdersFor(es[..n], orders[..n])
  {
    forall i | 0 <= i < n ensures Enumerates(orders[..n][i], UniqueNames(es[..n][i].w.items)) {
      assert orders[..n][i] == orders[i] && es[..n][i] == es[i];
    }
  }

  lemma OrdersForSnoc(es: seq<Entry>, orders: seq<seq<string>>, e: Entry, order: seq<string>)
    requires OrdersFor(es, orders) && Enumerates(order, UniqueNames(e.w.items))
    ensures OrdersFor(es + [e], orders + [order])
    ensures (es + [e])[..|es|] == es && (orders + [order])[..|orders|] == orders
  {
    assert (es + [e])[..|es|] == es && (orders + [order])[..|orders|] == orders;
  }

  /** The entries written one after the other; None once one fails. */
  function ApplyEntries(d: Db, es: seq<Entry>, now: Timestamp, orders: seq<seq<string>>): Option<Db>
    requires OrdersFor(es, orders)
    decreases |es|
  {
    if es == [] then Some(d)
    else
      var n := |es| - 1;
      OrdersForPrefix(es, orders, n);
      match ApplyEntries(d, es[..n], now, orders[..n])
      case None => None
      case Some(d1) => ApplyWrites(d1, es[n].key, es[n].w, now, orders[n])
  }

  /** Writing one more entry after the entries written so far. */
  lemma ApplyEntriesSnoc(d: Db, es: seq<Entry>, now: Timestamp, orders: seq<seq<string>>,
                         e: Entry, order: seq<string>, d1: Db)
    requires OrdersFor(es, orders) && Enumerates(order, UniqueNames(e.w.items))
    requires ApplyEntries(d, es, now, orders) == Some(d1)
    ensures OrdersFor(es + [e], orders + [order])
    ensures ApplyEntries(d, es + [e], now, orders + [order]) == ApplyWrites(d1, e.key, e.w, now, order)
  {
    OrdersForSnoc(es, orders, e, order);
  }

  ghost predicate OrdersForPages(pes: seq<seq<Entry>>, orders: seq<seq<seq<string>>>) {
    |orders| == |pes| && forall k | 0 <= k < |pes| :: OrdersFor(pes[k], orders[k])
  }

  lemma OrdersForPagesPrefix(pes: seq<seq<Entry>>, orders: seq<seq<seq<string>>>, n: nat)
    requires OrdersForPages(pes, orders) && n <= |pes|
    ensures OrdersForPages(pes[..n], orders[..n])
  {
    forall k | 0 <= k < n ensures OrdersFor(pes[..n][k], orders[..n][k]) {
      assert pes[..n][k] == pes[k] && orders[..n][k] == orders[k];
    }
  }

  /** The pages written one after the other; None once one fails. */
  function ApplyPages(d: Db, pes: seq<seq<Entry>>, now: Timestamp, orders: seq<seq<seq<string>>>): Option<Db>
    requires OrdersForPages(pes, orders)
    decreases |pes|
  {
    if pes == [] then Some(d)
    else
      var n := |pes| - 1;
      OrdersForPagesPrefix(pes, orders, n);
      match ApplyPages(d, pes[..n], now, orders[..n])
      case None => None
      case Some(d1) => ApplyEntries(d1, pes[n], now, orders[n])
  }

  // ---------- what the writes keep ----------

  /** One entry's writes leave a row for its key, keep every other recipe row and leave
      the sources alone. */
  lemma ApplyWritesKeys(d: Db, key: RecipeKey, w: Writes, now: Timestamp, order: seq<string>)
    requires Enumerates(order, UniqueNames(w.items))
    requires ApplyWrites(d, key, w, now, order).Some?
    ensures var d' := ApplyWrites(d, key, w, now, order).value;
      && d'.t.recipes.Keys == d.t.recipes.Keys + {key}
      && d'.t.sources == d.t.sources
  {
    var d1 := WithRecipe(d, key, w.fields, now, w.signature);
    var rid := d1.t.recipes[key].id;
    IngredientsInserted(d1, order);
    IngredientsAndJoinsKeepRecipes(d1, rid, w.items, order);
  }

  /** Key sets only grow while the entries are written and each entry adds its own key. */
  lemma KeysSnoc(es: seq<Entry>, k0: set<RecipeKey>, k1: set<RecipeKey>, k2: set<RecipeKey>)
    requires es != []
    requires k0 <= k1 && (forall e | e in es[..|es| - 1] :: e.key in k1)
    requires k2 == k1 + {es[|es| - 1].key}
    ensures k0 <= k2 && (forall e | e in es :: e.key in k2)
  {
    forall e | e in es ensures e.key in k2 {
      var i :| 0 <= i < |es| && es[i] == e;
      if i < |es| - 1 {
        assert es[..|es| - 1][i] == e;
      }
    }
  }

  /** After a page is written every entry of it has a recipe row, earlier rows stay,
      and the sources are unchanged. */
  lemma {:induction false} ApplyEntriesKeys(d: Db, es: seq<Entry>, now: Timestamp, orders: seq<seq<string>>)
    requires OrdersFor(es, orders)
    requires ApplyEntries(d, es, now, orders).Some?
    ensures var d' := ApplyEntries(d, es, now, orders).value;
      && d.t.recipes.Keys <= d'.t.recipes.Keys
      && (forall e | e in es :: e.key in d'.t.recipes)
      && d'.t.sources == d.t.sources
    decreases |es|
  {
    if es != [] {
      var n := |es| - 1;
      OrdersForPrefix(es, orders, n);
      ApplyEntriesKeys(d, es[..n], now, orders[..n]);
      var d1 := ApplyEntries(d, es[..n], now, orders[..n]).value;
      ApplyWritesKeys(d1, es[n].key, es[n].w, now, orders[n]);
      var d2 := ApplyWrites(d1, es[n].key, es[n].w, now, orders[n]).value;
      KeysSnoc(es, d.t.recipes.Keys, d1.t.recipes.Keys, d2.t.recipes.Keys);
    }
  }

  /** Key sets only grow while the pages are written and each page adds the keys of
      its entries. */
  lemma PageKeysSnoc(pes: seq<seq<Entry>>, pre: seq<seq<Entry>>, k0: set<RecipeKey>, k1: set<RecipeKey>, k2: set<RecipeKey>)
    requires pes != [] && pre == pes[..|pes| - 1]
    requires k0 <= k1 && k1 <= k2
    requires forall k, e | 0 <= k < |pre| && e in pre[k] :: e.key in k1
    requires forall e | e in pes[|pes| - 1] :: e.key in k2
    ensures k0 <= k2 && (forall k, e | 0 <= k < |pes| && e in pes[k] :: e.key in k2)
  {
    forall k, e | 0 <= k < |pes| && e in pes[k] ensures e.key in k2 {
      if k < |pre| {
        assert pre[k] == pes[k];
      }
    }
  }

  /** After the pages are written every entry of every page has a recipe row, earlier
      rows stay, and the sources are unchanged. */
  lemma {:induction false} ApplyPagesKeys(d: Db, pes: seq<seq<Entry>>, now: Timestamp, orders: seq<seq<seq<string>>>)
    requires OrdersForPages(pes, orders)
    requires ApplyPages(d, pes, now, orders).Some?
    ensures var d' := ApplyPages(d, pes, now, orders).value;
      && d.t.recipes.Keys <= d'.t.recipes.Keys
      && (forall k, e | 0 <= k < |pes| && e in pes[k] :: e.key in d'.t.recipes)
      && d'.t.sources == d.t.sources
    decreases |pes|
  {
    if pes != [] {
      var n := |pes| - 1;
      OrdersForPagesPrefix(pes, orders, n);
      ApplyPagesKeys(d, pes[..n], now, orders[..n]);
      var d1 := ApplyPages(d, pes[..n], now, orders[..n]).value;
      ApplyEntriesKeys(d1, pes[n], now, orders[n]);
      var d2 := ApplyEntries(d1, pes[n], now, orders[n]).value;
      PageKeysSnoc(pes, pes[..n], d.t.recipes.Keys, d1.t.recipes.Keys, d2.t.recipes.Keys);
    }
  }

  /** Writing one more page after the pages written so far. */
  lemma ApplyPagesSnoc(d: Db, pes: seq<seq<Entry>>, now: Timestamp, orders: seq<seq<seq<string>>>,
                       es: seq<Entry>, pageOrders: seq<seq<string>>, d1: Db, d2: Db)
    requires OrdersForPages(pes, orders) && OrdersFor(es, pageOrders)
    requires ApplyPages(d, pes, now, orders) == Some(d1)
    requires ApplyEntries(d1, es, now, pageOrders) == Some(d2)
    ensures OrdersForPages(pes + [es], orders + [pageOrders])
    ensures ApplyPages(d, pes + [es], now, orders + [pageOrders]) == Some(d2)
  {
    assert (pes + [es])[..|pes|] == pes;
    assert (orders + [pageOrders])[..|orders|] == orders;
    forall k | 0 <= k < |pes| + 1 ensures OrdersFor((pes + [es])[k], (orders + [pageOrders])[k]) {
      if k < |pes| {
        assert (pes + [es])[k] == pes[k] && (orders + [pageOrders])[k] == orders[k];
      }
    }
  }

  // ---------- the import loop ----------

  /** The body of the record loop: upsert_recipe, upsert_ingredients_and_join,
      upsert_nutrition and insert_chunks, with e the record's key and writes. ok is
      false when a write failed. */
  method ImportRecord(db: Database, srcId: Id, r: SourceRecipe, hash: string -> string, now: Timestamp)
    returns (ok: bool, ghost e: Entry, ghost order: seq<string>)
    requires db.Valid()
    modifies db
    ensures db.Valid() && db.committed == old(db.committed)
    ensures e == EntryOf(srcId, hash, r) && Enumerates(order, UniqueNames(e.w.items))
    ensures ok <==> ApplyWrites(old(db.State()), e.key, e.w, now, order).Some?
    ensures ok ==> db.State() == ApplyWrites(old(db.State()), e.key, e.w, now, order).value
  {
    e := EntryOf(srcId, hash, r);
    var recipeId, items, texts, title, plain := db.UpsertRecipe(srcId, r, hash, now);
    ok, order := db.UpsertIngredientsAndJoin(recipeId, items);
    if ok {
      db.UpsertNutrition(recipeId, r);
      db.InsertChunks(recipeId, title, texts, plain);
    }
  }

  /** The records of one page, in order, stopping at the first failed write: orders
      covers the records written, the failing one included. */
  method ImportPage(db: Database, srcId: Id, records: seq<SourceRecipe>, hash: string -> string, now: Timestamp)
    returns (ok: bool, ghost orders: seq<seq<string>>)
    requires db.Valid()
    modifies db
    ensures db.Valid() && db.committed == old(db.committed)
    ensures |orders| <= |records|
    ensures OrdersFor(EntriesOf(srcId, hash, records[..|orders|]), orders)
    ensures ok ==> |orders| == |records|
    ensures ok ==> ApplyEntries(old(db.State()), EntriesOf(srcId, hash, records[..|orders|]), now, orders) == Some(db.State())
    ensures !ok ==> ApplyEntries(old(db.State()), EntriesOf(srcId, hash, records[..|orders|]), now, orders) == None
  {
    orders := [];
    var i := 0;
    while i < |records|
      invariant 0 <= i <= |records| && |orders| == i
      invariant db.Valid() && db.committed == old(db.committed)
      invariant OrdersFor(EntriesOf(srcId, hash, records[..i]), orders)
      invariant ApplyEntries(old(db.State()), EntriesOf(srcId, hash, records[..i]), now, orders) == Some(db.State())
    {
      ghost var es := EntriesOf(srcId, hash, records[..i]);
      ghost var d1 := db.State();
      ghost var e, order;
      ok, e, order := ImportRecord(db, srcId, records[i], hash, now);
      EntriesSnoc(EntryFor(srcId, hash), records, i);
      assert EntryFor(srcId, hash)(records[i]) == e;
      ApplyEntriesSnoc(old(db.State()), es, now, orders, e, order, d1);
      orders := orders + [order];
      if !ok {
        return;
      }
      i := i + 1;
    }
    ok := true;
  }

  lemma PagesSnoc(srcId: Id, hash: string -> string, pages: seq<seq<SourceRecipe>>, page: seq<SourceRecipe>)
    ensures PagesEntries(srcId, hash, pages + [page]) == PagesEntries(srcId, hash, pages) + [EntriesOf(srcId, hash, page)]
  {
    assert (pages + [page])[..|pages|] == pages;
  }

  /** A fetched page that was answered in order extends the pages fetched in order. */
  lemma FetchedSnoc(fetch: Request -> Response, total: int, pageSize: int, pages: seq<seq<SourceRecipe>>,
                    page: seq<SourceRecipe>)
    requires FetchedInOrder(fetch, total, pageSize, pages)
    requires Total(pages) < total && page != []
    requires fetch(RequestAt(total, pageSize, Total(pages))) == Page(page)
    ensures FetchedInOrder(fetch, total, pageSize, pages + [page])
    ensures Total(pages + [page]) == Total(pages) + |page|
  {
    TotalSnoc(pages, page);
    forall k | 0 <= k < |pages| + 1
      ensures && Total((pages + [page])[..k]) < total
              && (pages + [page])[k] != []
              && fetch(RequestAt(total, pageSize, Total((pages + [page])[..k]))) == Page((pages + [page])[k])
    {
      if k < |pages| {
        assert (pages + [page])[k] == pages[k];
      }
    }
  }

  /** One page of the loop: its records and the commit. On success the pages written so
      far are followed by this page's entries and everything is committed; on failure
      nothing is committed. */
  method CommitPage(db: Database, srcId: Id, records: seq<SourceRecipe>, hash: string -> string, now: Timestamp,
                    ghost d0: Db, ghost pes: seq<seq<Entry>>, ghost orders: seq<seq<seq<string>>>,
                    ghost pes': seq<seq<Entry>>)
    returns (ok: bool, ghost pageOrders: seq<seq<string>>)
    requires db.Valid() && OrdersForPages(pes, orders) && ApplyPages(d0, pes, now, orders) == Some(db.State())
    requires pes' == pes + [EntriesOf(srcId, hash, records)]
    modifies db
    ensures db.Valid()
    ensures !ok ==> db.committed == old(db.committed)
    ensures ok ==>
      && db.committed == db.Live()
      && OrdersForPages(pes', orders + [pageOrders])
      && ApplyPages(d0, pes', now, orders + [pageOrders]) == Some(db.State())
  {
    ghost var d1 := db.State();
    ok, pageOrders := ImportPage(db, srcId, records, hash, now);
    if ok {
      assert records[..|pageOrders|] == records;
      ghost var d2 := db.State();
      db.Commit();
      ApplyPagesSnoc(d0, pes, now, orders, EntriesOf(srcId, hash, records), pageOrders, d1, d2);
    }
  }

  /** How one turn of the loop ends: the endpoint answered with an empty page, a
      request or a write failed, or the page's records were written and committed. */
  datatype Turn = Exhausted | Failed(error: ImportError) | Committed(records: seq<SourceRecipe>)

  /** One turn of the loop after done records: request `min(page_size, total - imported)`
      records from offset done, stop on an HTTP error or an empty page, and otherwise
      write the page and commit it. */
  method ImportTurn(db: Database, fetch: Request -> Response, total: int, pageSize: int, srcId: Id,
                    hash: string -> string, now: Timestamp, done: nat,
                    ghost d0: Db, ghost pages: seq<seq<SourceRecipe>>, ghost orders: seq<seq<seq<string>>>)
    returns (turn: Turn, ghost pageOrders: seq<seq<string>>)
    requires db.Valid() && done == Total(pages) < total
    requires FetchedInOrder(fetch, total, pageSize, pages)
    requires OrdersForPages(PagesEntries(srcId, hash, pages), orders)
    requires ApplyPages(d0, PagesEntries(srcId, hash, pages), now, orders) == Some(db.State())
    modifies db
    ensures db.Valid()
    ensures !turn.Committed? ==> db.committed == old(db.committed)
    ensures turn == Exhausted ==> fetch(RequestAt(total, pageSize, done)) == Page([])
    ensures turn.Failed? && turn.error.FetchFailed? ==>
      fetch(RequestAt(total, pageSize, done)) == HttpError(turn.error.status)
    ensures turn == Failed(WriteFailed) ==>
      var next := fetch(RequestAt(total, pageSize, done)); next.Page? && next.records != []
    ensures turn.Committed? ==>
      var pages' := pages + [turn.records];
      && FetchedInOrder(fetch, total, pageSize, pages')
      && Total(pages') == done + |turn.records|
      && OrdersForPages(PagesEntries(srcId, hash, pages'), orders + [pageOrders])
      && ApplyPages(d0, PagesEntries(srcId, hash, pages'), now, orders + [pageOrders]) == Some(db.State())
      && db.committed == db.Live()
  {
    var batch := Min(pageSize, total - done);
    var response := fetch(Request(batch, done));
    assert response == fetch(RequestAt(total, pageSize, done));
    pageOrders := [];
    if response.HttpError? {
      return Failed(FetchFailed(response.status)), pageOrders;
    }
    var records := response.records;
    if records == [] {
      return Exhausted, pageOrders;
    }
    FetchedSnoc(fetch, total, pageSize, pages, records);
    PagesSnoc(srcId, hash, pages, records);
    var ok;
    ok, pageOrders := CommitPage(db, srcId, records, hash, now, d0, PagesEntries(srcId, hash, pages), orders,
                                 PagesEntries(srcId, hash, pages + [records]));
    turn := if ok then Committed(records) else Failed(WriteFailed);
  }

  /** The loop of import_soups after the source row is ensured: pages are requested
      while fewer than total records are imported; the loop stops on an empty page, an
      HTTP error or a failed write. Every page that was written is committed; failure
      says why the loop stopped early. */
  method ImportPages(db: Database, fetch: Request -> Response, total: int, pageSize: int, srcId: Id,
                     hash: string -> string, now: Timestamp, ghost d0: Db)
    returns (imported: nat, failure: Option<ImportError>, ghost pages: seq<seq<SourceRecipe>>,
             ghost orders: seq<seq<seq<string>>>)
    requires db.Valid() && d0 == db.State()
    modifies db
    ensures db.Valid()
    ensures imported == Total(pages)
    ensures FetchedInOrder(fetch, total, pageSize, pages)
    ensures OrdersForPages(PagesEntries(srcId, hash, pages), orders)
    ensures ApplyPages(d0, PagesEntries(srcId, hash, pages), now, orders).Some?
    ensures pages == [] ==> db.committed == old(db.committed)
    ensures pages != [] ==> db.committed == ApplyPages(d0, PagesEntries(srcId, hash, pages), now, orders).value.t
    ensures failure == None ==>
      imported >= total || fetch(RequestAt(total, pageSize, imported)) == Page([])
    ensures failure.Some? ==> imported < total
    ensures failure.Some? && failure.value.FetchFailed? ==>
      fetch(RequestAt(total, pageSize, imported)) == HttpError(failure.value.status)
    ensures failure == Some(WriteFailed) ==>
      var next := fetch(RequestAt(total, pageSize, imported)); next.Page? && next.records != []
  {
    var offset := 0;
    imported, failure := 0, None;
    pages, orders := [], [];
    while imported < total
      invariant db.Valid()
      invariant imported == offset == Total(pages)
      invariant FetchedInOrder(fetch, total, pageSize, pages)
      invariant OrdersForPages(PagesEntries(srcId, hash, pages), orders)
      invariant ApplyPages(d0, PagesEntries(srcId, hash, pages), now, orders) == Some(db.State())
      invariant pages == [] ==> db.committed == old(db.committed)
      invariant pages != [] ==> db.committed == db.Live()
      decreases total - imported
    {
      var turn, pageOrders := ImportTurn(db, fetch, total, pageSize, srcId, hash, now, offset, d0, pages, orders);
      if !turn.Committed? {
        failure := if turn.Failed? then Some(turn.error) else None;
        return;
      }
      pages, orders := pages + [turn.records], orders + [pageOrders];
      imported, offset := imported + |turn.records|, offset + |turn.records|;
    }
  }

  /** import_soups on an open connection with no pending writes. It ensures the source
      row, then requests pages of at most pageSize records until total records are
      imported or a page comes back empty, committing after each page; on an HTTP error
      or a failed write it rolls back and stops; closing the connection discards what
      was not committed. The result is the number of records imported. The committed
      tables are the source row and the writes of the fetched pages, applied in order;
      when no page was imported nothing is committed. */
  method ImportSoups(db: Database, fetch: Request -> Response, total: int, pageSize: int, sourceName: string,
                     hash: string -> string, now: Timestamp)
    returns (result: Result<nat, ImportError>, ghost pages: seq<seq<SourceRecipe>>,
             ghost orders: seq<seq<seq<string>>>)
    requires db.Valid() && db.Live() == db.committed
    modifies db
    ensures db.Valid() && db.Live() == db.committed
    ensures FetchedInOrder(fetch, total, pageSize, pages)
    ensures var d0 := WithSource(old(db.State()), sourceName);
      var pes := PagesEntries(d0.t.sources[sourceName], hash, pages);
      && sourceName in d0.t.sources
      && OrdersForPages(pes, orders)
      && var applied := ApplyPages(d0, pes, now, orders);
      && applied.Some?
      && (pages == [] ==> db.committed == old(db.committed))
      && (pages != [] ==> db.committed == applied.value.t)
    ensures result.Success? ==>
      && result.value == Total(pages)
      && (Total(pages) >= total || fetch(RequestAt(total, pageSize, Total(pages))) == Page([]))
    ensures result.Failure? ==> Total(pages) < total
    ensures result.Failure? && result.error.FetchFailed? ==>
      fetch(RequestAt(total, pageSize, Total(pages))) == HttpError(result.error.status)
    ensures result == Failure(WriteFailed) ==>
      var next := fetch(RequestAt(total, pageSize, Total(pages))); next.Page? && next.records != []
  {
    var srcId := db.EnsureSource(sourceName);
    var imported, failure;
    imported, failure, pages, orders := ImportPages(db, fetch, total, pageSize, srcId, hash, now, db.State());
    db.Rollback();
    result := if failure.Some? then Failure(failure.value) else Success(imported);
  }
}
