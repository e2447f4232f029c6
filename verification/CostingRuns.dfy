/** Every run of admin saves, hand-saved costings, offer imports and upload deletions. */
module CostingRuns {
  import opened Common
  import opened Calc
  import opened CostingTables
  import opened OfferRows
  import opened OfferImport
  import opened BatchTracking
  import opened ImportEffects

  datatype Op =
    | SaveProduct(form: ProductForm)
    | SaveByHand(productId: nat, inputs: CostingInputs, createdBy: string, status: Status)
    | ImportOffer(rows: seq<OfferRow>, actor: string, source: string, finalise: bool,
                  defaults: Defaults, boxTypes: seq<BoxType>, menuItems: seq<MenuItem>)
    | DeleteUpload(id: nat)

  /** The tables, and for each product the prices in the report line of the last import row that touched it. */
  datatype World = World(db: Db, last: map<nat, Prices>)

  function SettingsOf(op: Op, compute: Calculator): Settings
    requires op.ImportOffer?
  {
    Settings(compute, op.defaults, op.boxTypes, op.menuItems)
  }

  function Reported(db: Db, op: Op, compute: Calculator, last: map<nat, Prices>): map<nat, Prices>
    requires op.ImportOffer?
  {
    LastReported(Opened(db, op.source, op.actor, op.finalise), op.rows, SettingsOf(op, compute),
                 BatchOf(db, op.actor, op.finalise), last)
  }

  /** One operation; a refused one leaves the tables alone. */
  function Apply(w: World, op: Op, compute: Calculator): World {
    match op
    case SaveProduct(form) =>
      (match AdminSave(w.db, form)
       case Ok((db, _)) => w.(db := db)
       case Err(_) => w)
    case SaveByHand(productId, inputs, createdBy, status) =>
      if ById(w.db.products, productId) == |w.db.products| then w
      else w.(db := SaveCosting(w.db, productId, inputs, compute(inputs), createdBy, status, None))
    case ImportOffer(rows, actor, source, finalise, _, _, _) =>
      World(Import(w.db, rows, actor, source, finalise, SettingsOf(op, compute)).0, Reported(w.db, op, compute, w.last))
    case DeleteUpload(id) => w.(db := DeleteOffer(w.db, id))
  }

  function Run(w: World, ops: seq<Op>, compute: Calculator): World {
    if ops == [] then w else Apply(Run(w, ops[..|ops| - 1], compute), ops[|ops| - 1], compute)
  }

  predicate Invariant(w: World, compute: Calculator) {
    && Valid(w.db)
    && Reproducible(w.db.costings, compute)
    && AutoPricesReported(w.db.products, w.last)
  }

  // ---- Snapshots stay reproducible ----

  lemma {:induction false} RowsStayReproducible(s: RunState, rows: seq<OfferRow>, settings: Settings, batch: Batch)
    requires Reproducible(s.db.costings, settings.compute)
    ensures Reproducible(RealRows(s, rows, settings, batch).db.costings, settings.compute)
  {
    if rows != [] {
      var n := |rows| - 1;
      RowsStayReproducible(s, rows[..n], settings, batch);
      var before := RealRows(s, rows[..n], settings, batch);
      if Named(rows[n]) {
        RowIsReproducible(rows[n], before.eans, SeenAt(before.db.products, Lookup(before.db.products, rows[n])),
                          settings);
      }
    }
  }

  lemma RowIsReproducible(row: OfferRow, eans: set<string>, seen: Seen, settings: Settings)
    ensures var c := HandleRow(row, eans, seen, settings).costed;
      c.Some? ==> c.value.results == settings.compute(c.value.inputs)
  {
  }

  lemma DeleteStaysReproducible(db: Db, id: nat, compute: Calculator)
    requires Reproducible(db.costings, compute)
    ensures Reproducible(DeleteOffer(db, id).costings, compute)
  {
    OutsideKeepsTheOthers(db.costings, id);
    var kept := CostingsOutside(db.costings, id);
    forall i | 0 <= i < |kept| ensures kept[i].results == compute(kept[i].inputs) {
      assert kept[i] in db.costings;
    }
  }

  lemma ApplyStaysReproducible(w: World, op: Op, compute: Calculator)
    requires Reproducible(w.db.costings, compute)
    ensures Reproducible(Apply(w, op, compute).db.costings, compute)
  {
    match op
    case SaveProduct(form) =>
    case SaveByHand(_, _, _, _) =>
    case ImportOffer(rows, actor, source, finalise, _, _, _) =>
      RowsStayReproducible(Opened(w.db, source, actor, finalise), rows, SettingsOf(op, compute),
                           BatchOf(w.db, actor, finalise));
    case DeleteUpload(id) =>
      DeleteStaysReproducible(w.db, id, compute);
  }

  // ---- The tables stay well formed ----

  lemma ApplyKeepsValid(w: World, op: Op, compute: Calculator)
    requires Valid(w.db)
    ensures Valid(Apply(w, op, compute).db)
  {
    match op
    case SaveProduct(form) =>
      AdminSaveKeepsValid(w.db, form);
    case SaveByHand(productId, inputs, createdBy, status) =>
      if ById(w.db.products, productId) < |w.db.products| {
        assert HasProduct(w.db.products, productId) by {
          assert w.db.products[ById(w.db.products, productId)].id == productId;
        }
        SaveCostingKeepsValid(w.db, productId, inputs, compute(inputs), createdBy, status, None);
      }
    case ImportOffer(rows, actor, source, finalise, _, _, _) =>
      ImportKeepsValid(w.db, rows, actor, source, finalise, SettingsOf(op, compute));
    case DeleteUpload(id) =>
      DeleteOfferKeepsValid(w.db, id);
  }

  // ---- Auto prices stay those last reported ----

  lemma ApplyKeepsAutoPrices(w: World, op: Op, compute: Calculator)
    requires Valid(w.db) && AutoPricesReported(w.db.products, w.last)
    ensures AutoPricesReported(Apply(w, op, compute).db.products, Apply(w, op, compute).last)
  {
    match op
    case SaveProduct(form) =>
    case SaveByHand(_, _, _, _) =>
    case ImportOffer(rows, actor, source, finalise, _, _, _) =>
      CreateOfferIsValid(w.db, source, actor, finalise);
      AutoPricesFollowTheReport(Opened(w.db, source, actor, finalise), rows, SettingsOf(op, compute),
                                BatchOf(w.db, actor, finalise), w.last);
    case DeleteUpload(id) =>
  }

  /** MAIN RESULT. After any run from an empty database: every stored costing is what the calculator
      makes of its stored inputs; versions rise in creation order within each product, also when a
      deletion freed a number; EANs are unique and every reference resolves; and every auto-priced
      product carries the prices reported for the last import row that touched it. */
  lemma {:induction false} RunKeepsInvariant(ops: seq<Op>, compute: Calculator)
    ensures Invariant(Run(World(EMPTY_DB, map[]), ops, compute), compute)
  {
    if ops != [] {
      var n := |ops| - 1;
      RunKeepsInvariant(ops[..n], compute);
      var w := Run(World(EMPTY_DB, map[]), ops[..n], compute);
      ApplyKeepsValid(w, ops[n], compute);
      ApplyStaysReproducible(w, ops[n], compute);
      ApplyKeepsAutoPrices(w, ops[n], compute);
    }
  }

  /** Two costings of one product never share a version. */
  lemma VersionsAreUnique(ops: seq<Op>, compute: Calculator, i: nat, j: nat)
    requires var cs := Run(World(EMPTY_DB, map[]), ops, compute).db.costings;
      i < j < |cs| && cs[i].productId == cs[j].productId
    ensures var cs := Run(World(EMPTY_DB, map[]), ops, compute).db.costings;
      cs[i].version < cs[j].version && cs[i].id < cs[j].id
  {
    RunKeepsInvariant(ops, compute);
    var cs := Run(World(EMPTY_DB, map[]), ops, compute).db.costings;
    assert Precedes(cs[i], cs[j]);
  }

  // ---- Human prices ----

  /** A product that is human-priced stays so, and only an admin save may change its prices. */
  predicate HumansKept(ps: seq<Product>, qs: seq<Product>, alsoPrices: bool) {
    && |ps| <= |qs|
    && forall k | 0 <= k < |ps| ::
      && qs[k].id == ps[k].id
      && (ps[k].origin == Human ==> qs[k].origin == Human && (alsoPrices ==> PricesOf(qs[k]) == PricesOf(ps[k])))
  }

  lemma ApplyKeepsHumans(w: World, op: Op, compute: Calculator)
    ensures HumansKept(w.db.products, Apply(w, op, compute).db.products, !op.SaveProduct?)
  {
    if op.ImportOffer? {
      ImportRespectsStoredProducts(w.db, op.rows, op.actor, op.source, op.finalise, SettingsOf(op, compute));
      var qs := Apply(w, op, compute).db.products;
      forall k | 0 <= k < |w.db.products|
        ensures qs[k].id == w.db.products[k].id
        ensures w.db.products[k].origin == Human ==>
          qs[k].origin == Human && PricesOf(qs[k]) == PricesOf(w.db.products[k])
      {
        assert Respected(w.db.products[k], qs[k]);
      }
    }
  }

  /** MAIN RESULT. Over any run a human product stays human; over a run without admin saves its
      prices do not move either. */
  lemma {:induction false} HumanPricesSurviveRuns(w: World, ops: seq<Op>, compute: Calculator)
    ensures HumansKept(w.db.products, Run(w, ops, compute).db.products, forall op | op in ops :: !op.SaveProduct?)
  {
    if ops != [] {
      var n := |ops| - 1;
      HumanPricesSurviveRuns(w, ops[..n], compute);
      ApplyKeepsHumans(Run(w, ops[..n], compute), ops[n], compute);
      assert ops[n] in ops && forall op | op in ops[..n] :: op in ops;
    }
  }
}
