/** What one import may and may not do to the tables, for every batch and every database. */
module ImportEffects {
  import opened Common
  import opened CostingTables
  import opened OfferRows
  import opened OfferImport
  import opened BatchTracking
  import CostingStore

  function NamedCount(rows: seq<OfferRow>): nat {
    if rows == [] then 0 else NamedCount(rows[..|rows| - 1]) + if Named(rows[|rows| - 1]) then 1 else 0
  }

  // ---- The tables stay well formed ----

  lemma CreateOfferIsValid(db: Db, source: string, actor: string, finalise: bool)
    requires Valid(db)
    ensures Valid(CreateOffer(db, source, actor, finalise))
    ensures HasOffer(CreateOffer(db, source, actor, finalise).offers, db.nextOffer)
    ensures CreateOffer(db, source, actor, finalise).products == db.products
  {
    CostingStore.CreateOfferKeepsValid(db, source, actor, finalise);
    assert CreateOffer(db, source, actor, finalise).offers[|db.offers|].id == db.nextOffer;
  }

  lemma ImportKeepsValid(db: Db, rows: seq<OfferRow>, actor: string, source: string, finalise: bool, settings: Settings)
    requires Valid(db)
    ensures Valid(Import(db, rows, actor, source, finalise, settings).0)
  {
    var s, batch := Opened(db, source, actor, finalise), BatchOf(db, actor, finalise);
    CreateOfferIsValid(db, source, actor, finalise);
    RealRowsKeepValid(s, rows, settings, batch);
    var s' := RealRows(s, rows, settings, batch);
    CostingStore.UpdateCountsKeepsValid(s'.db, db.nextOffer, |rows|, s'.report.productsCreated,
                                        s'.report.productsUpdated, s'.report.costingsCreated, s'.report.skipped);
  }

  // ---- Counts ----

  lemma RowGrowth(s: RunState, row: OfferRow, settings: Settings, batch: Batch)
    requires Named(row)
    ensures var s' := RealRow(s, row, settings, batch);
      var r := RealResult(s, row, settings);
      && |s'.db.products| == |s.db.products| + (if Lookup(s.db.products, row) < |s.db.products| then 0 else 1)
      && |s'.db.costings| == |s.db.costings| + (if r.costed.Some? then 1 else 0)
      && s.db.costings <= s'.db.costings
      && s'.db.offers == s.db.offers && s'.db.nextOffer == s.db.nextOffer
  {
    RowWritesUpserted(s, row, settings, batch);
  }

  /** Each tally grows exactly as the table it counts. */
  lemma {:induction false} TalliesAreGrowth(s: RunState, rows: seq<OfferRow>, settings: Settings, batch: Batch)
    ensures var s' := RealRows(s, rows, settings, batch);
      && |s'.db.products| - |s.db.products| == s'.report.productsCreated - s.report.productsCreated
      && |s'.db.costings| - |s.db.costings| == s'.report.costingsCreated - s.report.costingsCreated
      && (s'.report.productsCreated + s'.report.productsUpdated)
           - (s.report.productsCreated + s.report.productsUpdated) == NamedCount(rows)
      && s'.report.skipped - s.report.skipped == |rows| - NamedCount(rows)
      && |s'.report.rows| == |s.report.rows| + |rows|
      && s'.report.source == s.report.source && s'.report.batchId == s.report.batchId
      && s.db.costings <= s'.db.costings
      && s'.db.offers == s.db.offers && s'.db.nextOffer == s.db.nextOffer
  {
    if rows != [] {
      var n := |rows| - 1;
      TalliesAreGrowth(s, rows[..n], settings, batch);
      var before := RealRows(s, rows[..n], settings, batch);
      if Named(rows[n]) {
        RowGrowth(before, rows[n], settings, batch);
      }
    }
  }

  /** The report and the batch row both count what the import really added. */
  lemma ReportCountsTheGrowth(
    db: Db, rows: seq<OfferRow>, actor: string, source: string, finalise: bool, settings: Settings)
    requires OfferIdsAscend(db)
    ensures var (db', rep) := Import(db, rows, actor, source, finalise, settings);
      && rep.productsCreated == |db'.products| - |db.products|
      && rep.costingsCreated == |db'.costings| - |db.costings|
      && rep.productsCreated + rep.productsUpdated == NamedCount(rows)
      && rep.skipped == |rows| - NamedCount(rows)
      && |rep.rows| == |rows| && rep.source == source && rep.batchId == Some(db.nextOffer)
      && db.costings <= db'.costings
      && db'.offers == db.offers + [Offer(db.nextOffer, source, actor, finalise, |rows|, rep.productsCreated,
                                          rep.productsUpdated, rep.costingsCreated, rep.skipped)]
      && db'.nextOffer == db.nextOffer + 1
  {
    TalliesAreGrowth(Opened(db, source, actor, finalise), rows, settings, BatchOf(db, actor, finalise));
    CountsAreWritten(db, rows, actor, source, finalise, settings);
  }

  lemma CountsAreWritten(
    db: Db, rows: seq<OfferRow>, actor: string, source: string, finalise: bool, settings: Settings)
    requires OfferIdsAscend(db)
    ensures var (db', rep) := Import(db, rows, actor, source, finalise, settings);
      db'.offers == db.offers + [Offer(db.nextOffer, source, actor, finalise, |rows|, rep.productsCreated,
                                       rep.productsUpdated, rep.costingsCreated, rep.skipped)]
  {
    var s, o := Opened(db, source, actor, finalise), Offer(db.nextOffer, source, actor, finalise, 0, 0, 0, 0, 0);
    var s' := RealRows(s, rows, settings, BatchOf(db, actor, finalise));
    assert s'.db.offers == db.offers + [o] by {
      TalliesAreGrowth(s, rows, settings, BatchOf(db, actor, finalise));
    }
    CountsGoToTheNewOffer(db.offers, o, |rows|, s'.report.productsCreated, s'.report.productsUpdated,
                          s'.report.costingsCreated, s'.report.skipped);
  }

  lemma CountsGoToTheNewOffer(
    os: seq<Offer>, o: Offer, rowCount: nat, created: nat, updated: nat, costed: nat, skipped: nat)
    requires forall i | 0 <= i < |os| :: os[i].id < o.id
    ensures UpdateCounts(os + [o], o.id, rowCount, created, updated, costed, skipped)
      == os + [WithCounts(o, rowCount, created, updated, costed, skipped)]
  {
  }

  // ---- Provenance ----

  /** What an import may do to one product that was there before. */
  predicate Respected(p: Product, q: Product) {
    && q.id == p.id && q.origin == p.origin && q.active == p.active
    && (p.origin == Human ==> q.selling == p.selling && q.retail == p.retail)
    && (q.ean == p.ean || (q.ean.Some? && |q.ean.value| in {8, 13}))
  }

  /** What an import may create: an auto-priced product, without EAN or with a valid one. */
  predicate WellCreated(q: Product) {
    q.origin == Auto && q.active && (q.ean.Some? ==> |q.ean.value| in {8, 13})
  }

  predicate ProductsRespected(ps: seq<Product>, qs: seq<Product>) {
    && |ps| <= |qs|
    && (forall k | 0 <= k < |ps| :: Respected(ps[k], qs[k]))
    && (forall k | |ps| <= k < |qs| :: WellCreated(qs[k]))
  }

  lemma RowRespects(s: RunState, row: OfferRow, settings: Settings, batch: Batch, ps: seq<Product>)
    requires Named(row) && ProductsRespected(ps, s.db.products)
    ensures ProductsRespected(ps, RealRow(s, row, settings, batch).db.products)
  {
    RowWritesUpserted(s, row, settings, batch);
  }

  /** No import changes a human price or the origin of a stored product, and the only EANs it
      writes are valid ones. */
  lemma {:induction false} RowsRespect(s: RunState, rows: seq<OfferRow>, settings: Settings, batch: Batch)
    ensures ProductsRespected(s.db.products, RealRows(s, rows, settings, batch).db.products)
  {
    if rows != [] {
      var n := |rows| - 1;
      RowsRespect(s, rows[..n], settings, batch);
      if Named(rows[n]) {
        RowRespects(RealRows(s, rows[..n], settings, batch), rows[n], settings, batch, s.db.products);
      }
    }
  }

  lemma ImportRespectsStoredProducts(
    db: Db, rows: seq<OfferRow>, actor: string, source: string, finalise: bool, settings: Settings)
    ensures ProductsRespected(db.products, Import(db, rows, actor, source, finalise, settings).0.products)
  {
    RowsRespect(Opened(db, source, actor, finalise), rows, settings, BatchOf(db, actor, finalise));
  }

  datatype Prices = Prices(selling: Option<real>, retail: Option<real>)

  function PricesOf(p: Product): Prices {
    Prices(p.selling, p.retail)
  }

  /** The prices in the report line of the last row that touched each product. */
  function LastReported(s: RunState, rows: seq<OfferRow>, settings: Settings, batch: Batch, before: map<nat, Prices>)
    : map<nat, Prices>
  {
    if rows == [] then before
    else
      var n := |rows| - 1;
      var rest := LastReported(s, rows[..n], settings, batch, before);
      var s1 := RealRows(s, rows[..n], settings, batch);
      if !Named(rows[n]) then rest
      else
        var line := RealResult(s1, rows[n], settings).report;
        rest[UpsertedId(s1.db, rows[n].name, RowEan(rows[n])) := Prices(line.sellingPrice, line.retailPrice)]
  }

  /** Every auto-priced product carries the prices last reported for it. */
  predicate AutoPricesReported(ps: seq<Product>, last: map<nat, Prices>) {
    forall k | 0 <= k < |ps| && ps[k].origin == Auto :: ps[k].id in last && last[ps[k].id] == PricesOf(ps[k])
  }

  lemma ReportLineCarriesThePrices(row: OfferRow, eans: set<string>, seen: Seen, settings: Settings)
    ensures var r := HandleRow(row, eans, seen, settings);
      r.report.sellingPrice == SellingOf(r) && r.report.retailPrice == RetailOf(r)
  {
  }

  lemma UpsertReportsItsPrices(ps: seq<Product>, next: nat, row: OfferRow, selling: Option<real>, retail: Option<real>,
                               last: map<nat, Prices>)
    requires ProductsOk(ps, next) && AutoPricesReported(ps, last)
    ensures var id := if Lookup(ps, row) < |ps| then ps[Lookup(ps, row)].id else next;
      AutoPricesReported(Upserted(ps, next, row, selling, retail), last[id := Prices(selling, retail)])
  {
  }

  lemma RowReportsItsPrices(s: RunState, row: OfferRow, settings: Settings, batch: Batch, last: map<nat, Prices>)
    requires Valid(s.db) && Named(row) && AutoPricesReported(s.db.products, last)
    ensures var line := RealResult(s, row, settings).report;
      AutoPricesReported(RealRow(s, row, settings, batch).db.products,
        last[UpsertedId(s.db, row.name, RowEan(row)) := Prices(line.sellingPrice, line.retailPrice)])
  {
    var seen := SeenAt(s.db.products, Lookup(s.db.products, row));
    RowWritesUpserted(s, row, settings, batch);
    PricesIgnoreEanWarnings(row, s.eans, seen, settings);
    ReportLineCarriesThePrices(row, s.eans, seen, settings);
    StripIdempotent(row.name);
    var line := RealResult(s, row, settings).report;
    UpsertReportsItsPrices(s.db.products, s.db.nextProduct, row, line.sellingPrice, line.retailPrice, last);
  }

  /** An auto price always is that of the last import row that touched the product; a row that
      cannot be costed leaves none. */
  lemma {:induction false} AutoPricesFollowTheReport(
    s: RunState, rows: seq<OfferRow>, settings: Settings, batch: Batch, last: map<nat, Prices>)
    requires Valid(s.db) && HasOffer(s.db.offers, batch.id)
    requires AutoPricesReported(s.db.products, last)
    ensures AutoPricesReported(RealRows(s, rows, settings, batch).db.products,
                               LastReported(s, rows, settings, batch, last))
  {
    if rows != [] {
      var n := |rows| - 1;
      AutoPricesFollowTheReport(s, rows[..n], settings, batch, last);
      RealRowsKeepValid(s, rows[..n], settings, batch);
      if Named(rows[n]) {
        RowReportsItsPrices(RealRows(s, rows[..n], settings, batch), rows[n], settings, batch,
                            LastReported(s, rows[..n], settings, batch, last));
      }
    }
  }

  // ---- Costings ----

  lemma {:induction false} NoneOutsideABatch(cs: seq<Costing>, batch: nat)
    requires forall x | 0 <= x < |cs| :: cs[x].batch == Some(batch)
    ensures CostingsOutside(cs, batch) == []
  {
    if cs != [] {
      NoneOutsideABatch(cs[..|cs| - 1], batch);
    }
  }

  lemma {:induction false} AllOutsideABatch(cs: seq<Costing>, batch: nat)
    requires forall x | 0 <= x < |cs| :: cs[x].batch != Some(batch)
    ensures CostingsOutside(cs, batch) == cs
  {
    if cs != [] {
      AllOutsideABatch(cs[..|cs| - 1], batch);
    }
  }

  lemma {:induction false} AllOffersOutside(os: seq<Offer>, id: nat)
    requires forall x | 0 <= x < |os| :: os[x].id != id
    ensures OffersOutside(os, id) == os
  {
    if os != [] {
      AllOffersOutside(os[..|os| - 1], id);
    }
  }

  /** Deleting an upload undoes its import on costings and uploads exactly, and keeps the catalogue
      as the import left it. */
  lemma DeleteUndoesImport(
    db: Db, rows: seq<OfferRow>, actor: string, source: string, finalise: bool, settings: Settings)
    requires Valid(db)
    ensures var db1 := Import(db, rows, actor, source, finalise, settings).0;
      var db2 := DeleteOffer(db1, db.nextOffer);
      db2.costings == db.costings && db2.offers == db.offers && db2.products == db1.products
  {
    var id := db.nextOffer;
    var db1 := Import(db, rows, actor, source, finalise, settings).0;
    ReportCountsTheGrowth(db, rows, actor, source, finalise, settings);
    ImportSavesForTheUpload(db, rows, actor, source, finalise, settings);
    var added := db1.costings[|db.costings|..];
    assert db1.costings == db.costings + added;
    OldCostingsAreOutside(db);
    CostingsOutsideSplits(db.costings, added, id);
    AllOutsideABatch(db.costings, id);
    NoneOutsideABatch(added, id);
    AllOffersOutside(db.offers, id);
    var last := |db.offers|;
    assert db1.offers[last].id == id && db1.offers[..last] == db.offers;
  }

  /** No stored costing refers to an upload that is still to come. */
  lemma OldCostingsAreOutside(db: Db)
    requires Valid(db)
    ensures forall x | 0 <= x < |db.costings| :: db.costings[x].batch != Some(db.nextOffer)
  {
    forall x | 0 <= x < |db.costings| ensures db.costings[x].batch != Some(db.nextOffer) {
      if db.costings[x].batch.Some? {
        var k :| 0 <= k < |db.offers| && db.offers[k].id == db.costings[x].batch.value;
        assert db.offers[k].id < db.nextOffer;
      }
    }
  }
}
