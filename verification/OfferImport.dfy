/** The batch driver `run_offer_import` (epiproc/costing/offer_import.py): a real run that writes
    every row, and a dry run that simulates the batch over an unchanged database. */
module OfferImport {
  import opened Common
  import opened Calc
  import opened CostingTables
  import opened CostingStore
  import opened OfferRows

  datatype ImportReport = ImportReport(
    source: string, productsCreated: nat, productsUpdated: nat, costingsCreated: nat, skipped: nat,
    batchId: Option<nat>, rows: seq<RowReport>)

  function EmptyReport(source: string): ImportReport {
    ImportReport(source, 0, 0, 0, 0, None, [])
  }

  predicate Named(row: OfferRow) {
    row.name != ""
  }

  function AddSkipped(rep: ImportReport, row: OfferRow): ImportReport {
    rep.(skipped := rep.skipped + 1, rows := rep.rows + [BlankReport(row, row.warnings, Skipped, None)])
  }

  /** The tallies and the report line of one named row. */
  function AddRow(rep: ImportReport, seen: Seen, r: RowResult): ImportReport {
    rep.(productsCreated := rep.productsCreated + if seen.Absent? then 1 else 0,
         productsUpdated := rep.productsUpdated + if seen.Absent? then 0 else 1,
         costingsCreated := rep.costingsCreated + if r.costed.Some? then 1 else 0,
         rows := rep.rows + [r.report])
  }

  function AddEan(eans: set<string>, row: OfferRow): set<string> {
    eans + if RowEan(row).Some? then {RowEan(row).value} else {}
  }

  /** How the driver sees row `k` of the products table, or that there is none. */
  function SeenAt(ps: seq<Product>, k: nat): Seen {
    if k >= |ps| then Absent
    else if ps[k].origin == Human then HumanPriced(ps[k].selling, ps[k].retail)
    else AutoPriced
  }

  function Lookup(ps: seq<Product>, row: OfferRow): nat {
    FindByKey(ps, row.name, RowEan(row))
  }

  // ---- The real run ----

  /** Who imports, into which batch, and as which status. */
  datatype Batch = Batch(id: nat, actor: string, status: Status)

  datatype RunState = RunState(db: Db, report: ImportReport, eans: set<string>)

  function SellingOf(r: RowResult): Option<real> {
    if r.costed.Some? then r.costed.value.inputs.sellingPrice else None
  }

  function RetailOf(r: RowResult): Option<real> {
    if r.costed.Some? then r.costed.value.inputs.retailPrice else None
  }

  /** The upsert of a named row and, when it is costed, its new version. */
  function WriteRow(db: Db, row: OfferRow, r: RowResult, batch: Batch): Db {
    var upserted := UpsertByKey(db, row.name, RowEan(row), row.upt, SellingOf(r), RetailOf(r));
    if r.costed.None? then upserted
    else SaveCosting(upserted, UpsertedId(db, row.name, RowEan(row)), r.costed.value.inputs,
                     r.costed.value.results, batch.actor, batch.status, Some(batch.id))
  }

  function RealResult(s: RunState, row: OfferRow, settings: Settings): RowResult {
    HandleRow(row, s.eans, SeenAt(s.db.products, Lookup(s.db.products, row)), settings)
  }

  function RealRow(s: RunState, row: OfferRow, settings: Settings, batch: Batch): RunState {
    if !Named(row) then s.(report := AddSkipped(s.report, row))
    else
      var seen := SeenAt(s.db.products, Lookup(s.db.products, row));
      var r := RealResult(s, row, settings);
      RunState(WriteRow(s.db, row, r, batch), AddRow(s.report, seen, r), AddEan(s.eans, row))
  }

  function RealRows(s: RunState, rows: seq<OfferRow>, settings: Settings, batch: Batch): RunState {
    if rows == [] then s
    else RealRow(RealRows(s, rows[..|rows| - 1], settings, batch), rows[|rows| - 1], settings, batch)
  }

  /** State after opening the batch row. */
  function Opened(db: Db, source: string, actor: string, finalise: bool): RunState {
    RunState(CreateOffer(db, source, actor, finalise), EmptyReport(source).(batchId := Some(db.nextOffer)), {})
  }

  function BatchOf(db: Db, actor: string, finalise: bool): Batch {
    Batch(db.nextOffer, actor, if finalise then Final else Draft)
  }

  function CloseBatch(s: RunState, id: nat, rowCount: nat): Db {
    s.db.(offers := UpdateCounts(s.db.offers, id, rowCount, s.report.productsCreated, s.report.productsUpdated,
                                 s.report.costingsCreated, s.report.skipped))
  }

  /** One confirmed upload, in one transaction. */
  function Import(db: Db, rows: seq<OfferRow>, actor: string, source: string, finalise: bool, settings: Settings)
    : (Db, ImportReport)
  {
    var s := RealRows(Opened(db, source, actor, finalise), rows, settings, BatchOf(db, actor, finalise));
    (CloseBatch(s, db.nextOffer, |rows|), s.report)
  }

  // ---- Whose costings an import saves ----

  /** A costing of this upload: final exactly when the upload finalises, and saved by the uploader. */
  predicate SavedBy(c: Costing, actor: string, finalise: bool, upload: nat) {
    c.createdBy == actor && (c.status == Final <==> finalise) && c.batch == Some(upload)
  }

  lemma {:induction false} RowsSaveForTheBatch(s: RunState, rows: seq<OfferRow>, settings: Settings, batch: Batch)
    ensures var cs := RealRows(s, rows, settings, batch).db.costings;
      && s.db.costings <= cs
      && forall x | |s.db.costings| <= x < |cs| :: SavedBy(cs[x], batch.actor, batch.status == Final, batch.id)
  {
    if rows != [] {
      RowsSaveForTheBatch(s, rows[..|rows| - 1], settings, batch);
    }
  }

  /** Whatever the batch: an import keeps every stored costing and saves its own as the uploader's, in the upload
      it opened, as finals if it finalises and as drafts if it does not. */
  lemma ImportSavesForTheUpload(
    db: Db, rows: seq<OfferRow>, actor: string, source: string, finalise: bool, settings: Settings)
    ensures var cs := Import(db, rows, actor, source, finalise, settings).0.costings;
      && db.costings <= cs
      && forall x | |db.costings| <= x < |cs| :: SavedBy(cs[x], actor, finalise, db.nextOffer)
  {
    RowsSaveForTheBatch(Opened(db, source, actor, finalise), rows, settings, BatchOf(db, actor, finalise));
  }

  // ---- The dry run ----

  /** A simulated stored product: prices only, no provenance. */
  datatype Simulated = Simulated(selling: Option<real>, retail: Option<real>)

  datatype DryState = DryState(report: ImportReport, eans: set<string>, drySeen: map<string, Simulated>)

  /** The one string both kinds of key share in `dry_seen`. */
  function DryKey(row: OfferRow): string {
    if RowEan(row).Some? then RowEan(row).value else Strip(row.name)
  }

  /** A simulated product has no provenance, so it always looks auto-priced. */
  function DrySeenAs(ps: seq<Product>, s: DryState, row: OfferRow): Seen {
    if DryKey(row) in s.drySeen then AutoPriced else SeenAt(ps, Lookup(ps, row))
  }

  function Simulate(seen: Seen, r: RowResult): Simulated {
    if r.costed.Some? then Simulated(SellingOf(r), RetailOf(r)) else Simulated(StoredSelling(seen), StoredRetail(seen))
  }

  function DryRow(ps: seq<Product>, s: DryState, row: OfferRow, settings: Settings): DryState {
    if !Named(row) then s.(report := AddSkipped(s.report, row))
    else
      var seen := DrySeenAs(ps, s, row);
      var r := HandleRow(row, s.eans, seen, settings);
      DryState(AddRow(s.report, seen, r), AddEan(s.eans, row), s.drySeen[DryKey(row) := Simulate(seen, r)])
  }

  function DryRows(ps: seq<Product>, s: DryState, rows: seq<OfferRow>, settings: Settings): DryState {
    if rows == [] then s
    else DryRow(ps, DryRows(ps, s, rows[..|rows| - 1], settings), rows[|rows| - 1], settings)
  }

  function DryImport(ps: seq<Product>, rows: seq<OfferRow>, source: string, settings: Settings): ImportReport {
    DryRows(ps, DryState(EmptyReport(source), {}, map[]), rows, settings).report
  }

  // ---- The driver ----

  lemma WriteRowKeepsValid(db: Db, row: OfferRow, r: RowResult, batch: Batch)
    requires Valid(db)
    requires HasOffer(db.offers, batch.id)
    ensures Valid(WriteRow(db, row, r, batch))
    ensures WriteRow(db, row, r, batch).offers == db.offers
    ensures WriteRow(db, row, r, batch).nextOffer == db.nextOffer
  {
    var upserted := UpsertByKey(db, row.name, RowEan(row), row.upt, SellingOf(r), RetailOf(r));
    UpsertKeepsValid(db, row.name, RowEan(row), row.upt, SellingOf(r), RetailOf(r));
    if r.costed.Some? {
      var id := UpsertedId(db, row.name, RowEan(row));
      assert HasProduct(upserted.products, id) by {
        var k := FindByKey(db.products, Strip(row.name), RowEan(row));
        assert upserted.products[k].id == id;
      }
      SaveCostingKeepsValid(upserted, id, r.costed.value.inputs, r.costed.value.results, batch.actor, batch.status,
                            Some(batch.id));
    }
  }

  /** Selling and retail price of a costable row: stored admin prices win, the rest is computed. */
  method PriceAndWarn(inputs: CostingInputs, flagged: seq<string>, seen: Seen, settings: Settings)
    returns (c: Costed, warnings: seq<string>)
    requires inputs.sellingPrice == None && inputs.retailPrice == None
    ensures c == PriceRow(inputs, seen, settings)
    ensures warnings == if c.inputs.sellingPrice.None? then Warn(flagged, "margin_invalid") else flagged
  {
    warnings := flagged;
    var priced, results, d := inputs, settings.compute(inputs), settings.defaults;
    var selling := StoredSelling(seen);
    if selling.None? {
      if d.ourTargetMargin.Some? && d.ourTargetMargin.value < 1.0 {
        selling := Some(AutoSelling(results.totalDirectCost, d.ourTargetMargin.value));
      } else if "margin_invalid" !in warnings {
        warnings := warnings + ["margin_invalid"];
      }
    }
    if selling.Some? {
      priced := priced.(sellingPrice := selling);
      results := settings.compute(priced);
    }
    var retail := StoredRetail(seen);
    if retail.None? && selling.Some? {
      if d.customerTargetMargin.Some? && d.vatRate.Some? && d.customerTargetMargin.value < 1.0 {
        retail := Some(AutoRetail(selling.value, d.customerTargetMargin.value, d.vatRate.value));
      }
    }
    if retail.Some? {
      priced := priced.(retailPrice := retail);
      results := settings.compute(priced);
    }
    c := Costed(priced, results);
  }

  /** The outcome of a row whose EAN warnings are already on it. */
  method CostRow(row: OfferRow, flagged: seq<string>, seen: Seen, settings: Settings) returns (r: RowResult)
    ensures forall eans :: flagged == EanWarnings(row, eans) ==> r == HandleRow(row, eans, seen, settings)
  {
    var action := if seen.Absent? then CreatedProduct else UpdatedProduct;
    var inputs, warnings := BuildInputsLoop(row.(warnings := flagged), settings);
    if inputs.None? {
      return RowResult(BlankReport(row, warnings, Attention, Some(action)), None);
    }
    var c, w := PriceAndWarn(inputs.value, warnings, seen, settings);
    r := RowResult(BlankReport(row, w, CostedRow, Some(action)).(
                     boxCode := c.inputs.box.code, totalDirectCost := Some(c.results.totalDirectCost),
                     sellingPrice := c.inputs.sellingPrice, retailPrice := c.inputs.retailPrice,
                     ourGp := c.results.ourGp, customerGpPct := c.results.customerGpPct),
                   Some(c));
  }

  /** The closure state of `run_offer_import`, updated by `handle`. */
  class Driver {
    const settings: Settings
    const store: Store
    var report: ImportReport
    var seenEans: set<string>
    var drySeen: map<string, Simulated>

    constructor (settings: Settings, store: Store, source: string)
      ensures this.settings == settings && this.store == store
      ensures report == EmptyReport(source) && seenEans == {} && drySeen == map[]
    {
      this.settings, this.store := settings, store;
      report, seenEans, drySeen := EmptyReport(source), {}, map[];
    }

    function Run(): RunState
      reads this, store
    {
      RunState(store.State(), report, seenEans)
    }

    function Dry(): DryState
      reads this
    {
      DryState(report, seenEans, drySeen)
    }

    /** Flag an EAN seen before in the file, or one that does not look like an EAN. */
    method FlagEan(row: OfferRow) returns (flagged: seq<string>)
      modifies this`seenEans
      ensures flagged == EanWarnings(row, old(seenEans))
      ensures seenEans == AddEan(old(seenEans), row)
    {
      flagged := row.warnings;
      var key := RowEan(row);
      if key.Some? && key.value in seenEans {
        flagged := flagged + ["duplicate_ean"];
      }
      if key.Some? {
        seenEans := seenEans + {key.value};
      } else if row.ean.Some? && row.ean.value != "" && "ean_suspect" !in flagged {
        flagged := flagged + ["ean_suspect"];
      }
    }

    /** Flag the row's EAN, price the row against the product seen, and tally it. */
    method Decide(row: OfferRow, seen: Seen) returns (r: RowResult)
      modifies this`report, this`seenEans
      ensures r == HandleRow(row, old(seenEans), seen, settings)
      ensures report == AddRow(old(report), seen, r)
      ensures seenEans == AddEan(old(seenEans), row)
    {
      var flagged := FlagEan(row);
      if seen.Absent? {
        report := report.(productsCreated := report.productsCreated + 1);
      } else {
        report := report.(productsUpdated := report.productsUpdated + 1);
      }
      r := CostRow(row, flagged, seen, settings);
      if r.costed.Some? {
        report := report.(costingsCreated := report.costingsCreated + 1);
      }
      report := report.(rows := report.rows + [r.report]);
    }

    /** `handle` on the import's transaction. */
    method HandleReal(row: OfferRow, batch: Batch)
      requires Valid(store.State()) && HasOffer(store.offers, batch.id)
      modifies this`report, this`seenEans, store`products, store`nextProduct, store`costings, store`nextCosting
      ensures Run() == RealRow(old(Run()), row, settings, batch)
      ensures Valid(store.State()) && store.offers == old(store.offers)
    {
      if row.name == "" {
        report := report.(skipped := report.skipped + 1,
                          rows := report.rows + [BlankReport(row, row.warnings, Skipped, None)]);
        return;
      }
      var seen := SeenAt(store.products, Lookup(store.products, row));
      var r := Decide(row, seen);
      var id, _ := store.UpsertProductByKey(row.name, RowEan(row), row.upt, SellingOf(r), RetailOf(r));
      if r.costed.Some? {
        var _ := store.SaveCosting(id, r.costed.value.inputs, r.costed.value.results,
                                   batch.actor, batch.status, Some(batch.id));
      }
    }

    /** for row in rows: handle(row). */
    method HandleAll(rows: seq<OfferRow>, batch: Batch)
      requires Valid(store.State()) && HasOffer(store.offers, batch.id)
      modifies this`report, this`seenEans, store`products, store`nextProduct, store`costings, store`nextCosting
      ensures Run() == RealRows(old(Run()), rows, settings, batch)
      ensures Valid(store.State()) && store.offers == old(store.offers)
    {
      for i := 0 to |rows|
        invariant Run() == RealRows(old(Run()), rows[..i], settings, batch)
        invariant Valid(store.State()) && store.offers == old(store.offers)
      {
        HandleReal(rows[i], batch);
        assert rows[..i + 1][..i] == rows[..i];
      }
      assert rows[..|rows|] == rows;
    }

    /** `handle` on a dry run: the store is only read. */
    method HandleDry(row: OfferRow)
      modifies this`report, this`seenEans, this`drySeen
      ensures Dry() == DryRow(store.products, old(Dry()), row, settings)
    {
      if row.name == "" {
        report := report.(skipped := report.skipped + 1,
                          rows := report.rows + [BlankReport(row, row.warnings, Skipped, None)]);
        return;
      }
      var key := DryKey(row);
      var seen := if key in drySeen then AutoPriced else SeenAt(store.products, Lookup(store.products, row));
      var r := Decide(row, seen);
      drySeen := drySeen[key := Simulate(seen, r)];
    }
  }

  method RunReal(store: Store, rows: seq<OfferRow>, actor: string, source: string, finalise: bool, settings: Settings)
    returns (report: ImportReport)
    requires Valid(store.State())
    modifies store
    ensures (store.State(), report) == Import(old(store.State()), rows, actor, source, finalise, settings)
    ensures old(store.costings) <= store.costings
    ensures forall x | |old(store.costings)| <= x < |store.costings| ::
      SavedBy(store.costings[x], actor, finalise, old(store.nextOffer))
    ensures Valid(store.State())
  {
    ImportSavesForTheUpload(store.State(), rows, actor, source, finalise, settings);
    var driver := new Driver(settings, store, source);
    var id := store.CreateOfferImport(source, actor, finalise);
    driver.report := driver.report.(batchId := Some(id));
    var batch := Batch(id, actor, if finalise then Final else Draft);
    assert driver.Run() == Opened(old(store.State()), source, actor, finalise);
    driver.HandleAll(rows, batch);
    report := driver.report;
    ghost var ended := driver.Run();
    store.UpdateOfferImportCounts(id, |rows|, report.productsCreated, report.productsUpdated,
                                  report.costingsCreated, report.skipped);
    assert store.State() == CloseBatch(ended, id, |rows|);
  }

  /** Without a frame: a dry run changes no table. */
  method RunDry(store: Store, rows: seq<OfferRow>, source: string, settings: Settings)
    returns (report: ImportReport)
    ensures report == DryImport(store.products, rows, source, settings)
  {
    var driver := new Driver(settings, store, source);
    ghost var start := driver.Dry();
    for i := 0 to |rows|
      invariant driver.Dry() == DryRows(store.products, start, rows[..i], settings)
    {
      driver.HandleDry(rows[i]);
      assert rows[..i + 1][..i] == rows[..i];
    }
    assert rows[..|rows|] == rows;
    report := driver.report;
  }

  /** `run_offer_import`. */
  method RunOfferImport(store: Store, rows: seq<OfferRow>, actor: string, dryRun: bool, source: string,
                        finalise: bool, settings: Settings)
    returns (report: ImportReport)
    requires Valid(store.State())
    modifies store
    ensures dryRun ==> unchanged(store) && report == DryImport(old(store.products), rows, source, settings)
    ensures !dryRun ==> (store.State(), report) == Import(old(store.State()), rows, actor, source, finalise, settings)
    ensures old(store.costings) <= store.costings
    ensures forall x | |old(store.costings)| <= x < |store.costings| ::
      SavedBy(store.costings[x], actor, finalise, old(store.nextOffer))
    ensures Valid(store.State())
  {
    if dryRun {
      report := RunDry(store, rows, source, settings);
    } else {
      report := RunReal(store, rows, actor, source, finalise, settings);
    }
  }
}
