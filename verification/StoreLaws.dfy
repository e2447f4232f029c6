/** What each write to the costing tables leaves on every row (epiproc/db/costing.py). */
module StoreLaws {
  import opened Common
  import opened Calc
  import opened CostingTables

  // ---- The import's key ----

  /** Somebody holds this EAN, and it is long enough to be one. */
  predicate EanHits(ps: seq<Product>, ean: Option<string>) {
    ean.Some? && |ean.value| in {8, 13} && exists i :: 0 <= i < |ps| && ps[i].ean == ean
  }

  /** The key finds the first holder of an 8- or 13-digit EAN, else the first product of the stripped name. */
  lemma KeyFindsEanThenName(ps: seq<Product>, name: string, ean: Option<string>)
    ensures var k, n := FindByKey(ps, name, ean), Strip(name);
      if EanHits(ps, ean) then
        k < |ps| && ps[k].ean == ean && forall i | 0 <= i < k :: ps[i].ean != ean
      else
        (k < |ps| ==> ps[k].name == n) && forall i | 0 <= i < k :: ps[i].name != n
  {
  }

  // ---- The import's upsert ----

  /** Of the product that was there, if any, and the row's values, what the written product shows. */
  predicate ImportedOnto(q: Product, was: Option<Product>, name: string, ean: Option<string>, upt: Option<int>,
                         selling: Option<real>, retail: Option<real>)
  {
    var admins := was.Some? && was.value.origin == Human;
    && q.name == Strip(name)
    && (ean.Some? ==> q.ean == ean)
    && (ean.None? ==> q.ean == if was.Some? then was.value.ean else None)
    && (was.Some? ==> q.id == was.value.id && q.unitsPerTray == upt.GetOr(was.value.unitsPerTray))
    && (was.Some? ==> q.active == was.value.active && q.origin == was.value.origin)
    && (was.None? ==> q.unitsPerTray == (if upt.GetOr(0) != 0 then upt.value else 1) && q.active && q.origin == Auto)
    && (admins ==> q.selling == was.value.selling && q.retail == was.value.retail)
    && (!admins ==> q.selling == selling && q.retail == retail)
  }

  /** The import writes one row, the one its key finds or a new one; no other row and no other table changes. */
  lemma UpsertWritesTheRow(db: Db, name: string, ean: Option<string>, upt: Option<int>,
                           selling: Option<real>, retail: Option<real>)
    ensures var db', k := UpsertByKey(db, name, ean, upt, selling, retail), FindByKey(db.products, name, ean);
      && k < |db'.products| == (if k < |db.products| then |db.products| else |db.products| + 1)
      && ImportedOnto(db'.products[k], if k < |db.products| then Some(db.products[k]) else None, name, ean, upt,
                      selling, retail)
      && db'.products[k].id == UpsertedId(db, name, ean)
      && (k == |db.products| ==> UpsertedId(db, name, ean) == db.nextProduct)
      && db'.nextProduct == (if k < |db.products| then db.nextProduct else db.nextProduct + 1)
      && (forall i | 0 <= i < |db.products| && i != k :: db'.products[i] == db.products[i])
      && db'.costings == db.costings && db'.offers == db.offers
  {
    StripIdempotent(name);
  }

  // ---- The admin's save ----

  /** The stored product shows the form. */
  predicate ShowsForm(q: Product, form: ProductForm) {
    && q.name == Strip(form.name)
    && q.ean == (if form.ean == Some("") then None else form.ean)
    && q.unitsPerTray == form.unitsPerTray
    && q.retail == form.retail
    && q.selling == form.selling
    && q.active == form.active
    && q.origin == Human
  }

  /** The form is meant for this stored product: by its id, or without one by its EAN. */
  predicate MeantFor(form: ProductForm, p: Product) {
    if form.productId.Some? then p.id == form.productId.value
    else form.ean.GetOr("") != "" && p.ean == form.ean
  }

  /** A save is refused exactly when it would move an EAN that another product holds onto the product it names. */
  predicate Refused(db: Db, form: ProductForm) {
    && form.productId.Some? && HasProduct(db.products, form.productId.value)
    && form.ean.GetOr("") != ""
    && exists i :: 0 <= i < |db.products| && db.products[i].id != form.productId.value && db.products[i].ean == form.ean
  }

  lemma TakenByAnother(ps: seq<Product>, next: nat, id: nat, ean: Option<string>)
    requires ProductsOk(ps, next) && ById(ps, id) < |ps|
    ensures EanTaken(ps, ById(ps, id), ean)
      <==> ean.Some? && exists i :: 0 <= i < |ps| && ps[i].id != id && ps[i].ean == ean
  {
    var k := ById(ps, id);
    forall i | 0 <= i < |ps| ensures i != k <==> ps[i].id != id {
    }
  }

  lemma EanHolderIsAlone(ps: seq<Product>, next: nat, ean: string)
    requires ProductsOk(ps, next) && ByEan(ps, ean) < |ps|
    ensures ById(ps, ps[ByEan(ps, ean)].id) == ByEan(ps, ean)
    ensures !EanTaken(ps, ByEan(ps, ean), Some(ean))
  {
    OtherEans(ps, ByEan(ps, ean));
  }

  lemma OtherEans(ps: seq<Product>, k: nat)
    requires EanUnique(ps) && k < |ps|
    ensures ps[k].ean.Some? ==> forall i | 0 <= i < |ps| && i != k :: ps[i].ean != ps[k].ean
  {
  }

  lemma FoundById(ps: seq<Product>, id: nat)
    ensures HasProduct(ps, id) <==> ById(ps, id) < |ps|
  {
  }

  lemma AdminSaveIsRefusedExactlyWhen(db: Db, form: ProductForm)
    requires Valid(db)
    ensures AdminSave(db, form).Err? <==> Refused(db, form)
  {
    var ps := db.products;
    if form.productId.Some? {
      var id := form.productId.value;
      FoundById(ps, id);
      if ById(ps, id) < |ps| {
        TakenByAnother(ps, db.nextProduct, id, FormEan(form));
      }
    } else if FormEan(form).Some? && ByEan(ps, FormEan(form).value) < |ps| {
      EanHolderIsAlone(ps, db.nextProduct, FormEan(form).value);
    }
  }

  /** An accepted save leaves the form on the product it is meant for, or on a new one if it names none and its EAN
      is new; an unknown id writes nothing. No other product and no other table changes. */
  lemma AdminSaveWritesTheForm(db: Db, form: ProductForm, i: nat)
    requires Valid(db) && AdminSave(db, form).Ok?
    ensures var (db', id) := AdminSave(db, form).value;
      var created := form.productId.None? && forall p | p in db.products :: !MeantFor(form, p);
      && |db'.products| == |db.products| + (if created then 1 else 0)
      && (created ==>
            ShowsForm(db'.products[|db.products|], form) && db'.products[|db.products|].id == id == db.nextProduct)
      && (i < |db.products| ==> db'.products[i].id == db.products[i].id)
      && (i < |db.products| && MeantFor(form, db.products[i]) ==>
            ShowsForm(db'.products[i], form) && db.products[i].id == id)
      && (i < |db.products| && !MeantFor(form, db.products[i]) ==> db'.products[i] == db.products[i])
      && (form.productId.Some? ==> id == form.productId.value)
      && db'.costings == db.costings && db'.offers == db.offers
  {
    var ps := db.products;
    if form.productId.Some? {
      FoundById(ps, form.productId.value);
    } else {
      WithoutAnId(db, form);
    }
  }

  lemma WithoutAnId(db: Db, form: ProductForm)
    requires Valid(db) && form.productId.None?
    ensures var ps, target := db.products, SaveTarget(db, form);
      && (target.None? <==> forall p | p in ps :: !MeantFor(form, p))
      && (target.Some? ==>
            ById(ps, target.value) < |ps|
            && forall i | 0 <= i < |ps| :: MeantFor(form, ps[i]) <==> i == ById(ps, target.value))
  {
    var ps := db.products;
    if FormEan(form).Some? {
      var k := ByEan(ps, FormEan(form).value);
      if k < |ps| {
        EanHolderIsAlone(ps, db.nextProduct, FormEan(form).value);
        OtherEans(ps, k);
        assert MeantFor(form, ps[k]) && ps[k] in ps;
      }
    }
  }

  // ---- Costings and uploads ----

  /** Saving appends one costing that shows what was given, one version above the product's highest. */
  lemma SaveCostingAppends(db: Db, productId: nat, inputs: CostingInputs, results: CostingResults, createdBy: string,
                           status: Status, batch: Option<nat>)
    ensures var db' := SaveCosting(db, productId, inputs, results, createdBy, status, batch);
      && |db'.costings| == |db.costings| + 1 && db.costings <= db'.costings
      && db'.products == db.products && db'.offers == db.offers
      && var c := db'.costings[|db.costings|];
         && c.productId == productId && c.inputs == inputs && c.results == results
         && c.createdBy == createdBy && c.status == status && c.batch == batch
         && (forall i | 0 <= i < |db.costings| && db.costings[i].productId == productId ::
               db.costings[i].version < c.version)
         && (c.version == 1
             || exists i :: 0 <= i < |db.costings| && db.costings[i].productId == productId
                            && db.costings[i].version == c.version - 1)
  {
    MaxVersionIsTop(db.costings, productId);
  }

  /** Deleting an upload takes its costings and its row, and nothing else; an unknown id takes nothing. */
  lemma DeleteTakesTheUpload(db: Db, id: nat, c: Costing, o: Offer)
    ensures var db' := DeleteOffer(db, id);
      && (c in db'.costings <==> c in db.costings && !(HasOffer(db.offers, id) && c.batch == Some(id)))
      && (o in db'.offers <==> o in db.offers && o.id != id)
      && db'.products == db.products && db'.nextProduct == db.nextProduct
      && db'.nextCosting == db.nextCosting && db'.nextOffer == db.nextOffer
  {
    var k := OfferById(db.offers, id);
    if k < |db.offers| {
      assert db.offers[k].id == id;
      OutsideKeepsTheOthers(db.costings, id);
      OffersOutsideFilters(db.offers, id);
    }
  }
}
