/** The costing tables and their operations (epiproc/db/costing.py).

    A table is a sequence of rows in id order: ids are serial and rows are appended. Each
    operation is a function on the value `Db` and a method of the class `CostingStore`,
    whose contract says that the tables move exactly as the function does. */
module CostingTables {
  import opened Common
  import opened Calc

  /** Who set a product's prices: an admin, or an offer import. */
  datatype Origin = Human | Auto

  datatype Product = Product(
    id: nat, ean: Option<string>, name: string, unitsPerTray: int,
    retail: Option<real>, selling: Option<real>, active: bool, origin: Origin)

  datatype Status = Draft | Final

  /** An immutable, versioned snapshot; `batch` is the offer upload that made it, if any. */
  datatype Costing = Costing(
    id: nat, productId: nat, version: nat, status: Status,
    inputs: CostingInputs, results: CostingResults, createdBy: string, batch: Option<nat>)

  datatype Offer = Offer(
    id: nat, filename: string, uploadedBy: string, finalised: bool,
    rowCount: nat, productsCreated: nat, productsUpdated: nat, costingsCreated: nat, skipped: nat)

  datatype Db = Db(
    products: seq<Product>, costings: seq<Costing>, offers: seq<Offer>,
    nextProduct: nat, nextCosting: nat, nextOffer: nat)

  const EMPTY_DB := Db([], [], [], 1, 1, 1)

  // ---- Lookups ----

  /** Only 8- and 13-digit codes may act as a key. */
  function KeyEan(ean: Option<string>): Option<string> {
    if ean.Some? && |ean.value| in {8, 13} then ean else None
  }

  /** Row holding this EAN, or |ps|. */
  function ByEan(ps: seq<Product>, ean: string): (k: nat)
    ensures k <= |ps|
    ensures k < |ps| ==> ps[k].ean == Some(ean)
    ensures forall i | 0 <= i < k :: ps[i].ean != Some(ean)
  {
    Search(ps, (p: Product) => p.ean == Some(ean))
  }

  /** First row with this exact name, or |ps|. */
  function ByName(ps: seq<Product>, name: string): (k: nat)
    ensures k <= |ps|
    ensures k < |ps| ==> ps[k].name == name
    ensures forall i | 0 <= i < k :: ps[i].name != name
  {
    Search(ps, (p: Product) => p.name == name)
  }

  /** Row with this id, or |ps|. */
  function ById(ps: seq<Product>, id: nat): (k: nat)
    ensures k <= |ps|
    ensures k < |ps| ==> ps[k].id == id
    ensures forall i | 0 <= i < k :: ps[i].id != id
  {
    Search(ps, (p: Product) => p.id == id)
  }

  /** The import's product key: a valid EAN when it hits, else the exact name. */
  function FindByKey(ps: seq<Product>, name: string, ean: Option<string>): (k: nat)
    ensures k <= |ps|
  {
    var key := KeyEan(ean);
    var k := if key.Some? then ByEan(ps, key.value) else |ps|;
    if k < |ps| then k else ByName(ps, Strip(name))
  }

  // ---- Products ----

  /** What an import may change on a stored product: never a human price. */
  function Updated(p: Product, name: string, ean: Option<string>, upt: Option<int>,
                   selling: Option<real>, retail: Option<real>): Product
  {
    var q := p.(name := name, unitsPerTray := upt.GetOr(p.unitsPerTray), ean := if ean.Some? then ean else p.ean);
    if p.origin == Human then q else q.(selling := selling, retail := retail, origin := Auto)
  }

  function Created(id: nat, name: string, ean: Option<string>, upt: Option<int>,
                   selling: Option<real>, retail: Option<real>): Product
  {
    Product(id, ean, name, if upt.Some? && upt.value != 0 then upt.value else 1, retail, selling, true, Auto)
  }

  /** `upsert_product_by_key`; its only caller passes a valid EAN or none. */
  function UpsertByKey(db: Db, name: string, ean: Option<string>, upt: Option<int>,
                       selling: Option<real>, retail: Option<real>): Db
  {
    var n := Strip(name);
    var k := FindByKey(db.products, n, ean);
    if k < |db.products| then
      db.(products := db.products[k := Updated(db.products[k], n, ean, upt, selling, retail)])
    else
      db.(products := db.products + [Created(db.nextProduct, n, ean, upt, selling, retail)],
          nextProduct := db.nextProduct + 1)
  }

  function UpsertedId(db: Db, name: string, ean: Option<string>): nat {
    var k := FindByKey(db.products, Strip(name), ean);
    if k < |db.products| then db.products[k].id else db.nextProduct
  }

  datatype ProductForm = ProductForm(
    name: string, ean: Option<string>, unitsPerTray: int,
    retail: Option<real>, selling: Option<real>, active: bool, productId: Option<nat>)

  function FormEan(form: ProductForm): Option<string> {
    if form.ean == Some("") then None else form.ean
  }

  function SaveTarget(db: Db, form: ProductForm): Option<nat> {
    if form.productId.Some? then form.productId
    else if FormEan(form).Some? then
      var k := ByEan(db.products, FormEan(form).value);
      if k < |db.products| then Some(db.products[k].id) else None
    else None
  }

  /** The UNIQUE constraint on products.ean, for row `k` about to take `ean`. */
  predicate EanTaken(ps: seq<Product>, k: nat, ean: Option<string>) {
    ean.Some? && exists i | 0 <= i < |ps| :: i != k && ps[i].ean == ean
  }

  /** `upsert_product`: an admin save; every product it writes is human-priced. */
  function AdminSave(db: Db, form: ProductForm): Result<(Db, nat)> {
    var name, ean := Strip(form.name), FormEan(form);
    match SaveTarget(db, form)
    case Some(id) =>
      var k := ById(db.products, id);
      if k == |db.products| then Ok((db, id))
      else if EanTaken(db.products, k, ean) then Err("duplicate key value violates unique constraint")
      else Ok((db.(products := db.products[k :=
                     db.products[k].(name := name, ean := ean, unitsPerTray := form.unitsPerTray,
                                     retail := form.retail, selling := form.selling, active := form.active,
                                     origin := Human)]), id))
    case None =>
      Ok((db.(products := db.products + [Product(db.nextProduct, ean, name, form.unitsPerTray,
                                                 form.retail, form.selling, form.active, Human)],
              nextProduct := db.nextProduct + 1), db.nextProduct))
  }

  // ---- Costings ----

  /** `COALESCE(MAX(version), 0)` over one product's costings. */
  function MaxVersion(cs: seq<Costing>, productId: nat): nat {
    if cs == [] then 0
    else
      var rest := MaxVersion(cs[..|cs| - 1], productId);
      var c := cs[|cs| - 1];
      if c.productId == productId && c.version > rest then c.version else rest
  }

  lemma {:induction false} MaxVersionIsTop(cs: seq<Costing>, productId: nat)
    ensures forall i | 0 <= i < |cs| && cs[i].productId == productId :: cs[i].version <= MaxVersion(cs, productId)
    ensures MaxVersion(cs, productId) > 0 ==>
      exists i :: 0 <= i < |cs| && cs[i].productId == productId && cs[i].version == MaxVersion(cs, productId)
  {
    if cs != [] {
      var n := |cs| - 1;
      MaxVersionIsTop(cs[..n], productId);
      var rest := MaxVersion(cs[..n], productId);
      if MaxVersion(cs, productId) == rest > 0 {
        var i :| 0 <= i < n && cs[..n][i].productId == productId && cs[..n][i].version == rest;
        assert cs[i].productId == productId && cs[i].version == rest;
      }
    }
  }

  /** `save_costing` on an existing product: the next version, appended. */
  function SaveCosting(db: Db, productId: nat, inputs: CostingInputs, results: CostingResults,
                       createdBy: string, status: Status, batch: Option<nat>): Db
  {
    db.(costings := db.costings + [Costing(db.nextCosting, productId, MaxVersion(db.costings, productId) + 1,
                                           status, inputs, results, createdBy, batch)],
        nextCosting := db.nextCosting + 1)
  }

  // ---- Offer uploads ----

  function CreateOffer(db: Db, filename: string, uploadedBy: string, finalised: bool): Db {
    db.(offers := db.offers + [Offer(db.nextOffer, filename, uploadedBy, finalised, 0, 0, 0, 0, 0)],
        nextOffer := db.nextOffer + 1)
  }

  function WithCounts(o: Offer, rowCount: nat, created: nat, updated: nat, costings: nat, skipped: nat): Offer {
    o.(rowCount := rowCount, productsCreated := created, productsUpdated := updated,
       costingsCreated := costings, skipped := skipped)
  }

  function UpdateCounts(os: seq<Offer>, id: nat, rowCount: nat, created: nat, updated: nat, costings: nat, skipped: nat)
    : seq<Offer>
  {
    seq(|os|, i requires 0 <= i < |os| =>
      if os[i].id == id then WithCounts(os[i], rowCount, created, updated, costings, skipped) else os[i])
  }

  function OfferById(os: seq<Offer>, id: nat): (k: nat)
    ensures k <= |os|
    ensures k < |os| ==> os[k].id == id
    ensures forall i | 0 <= i < k :: os[i].id != id
  {
    Search(os, (o: Offer) => o.id == id)
  }

  function CostingsOutside(cs: seq<Costing>, batch: nat): seq<Costing> {
    if cs == [] then []
    else
      CostingsOutside(cs[..|cs| - 1], batch)
      + if cs[|cs| - 1].batch == Some(batch) then [] else [cs[|cs| - 1]]
  }

  function OffersOutside(os: seq<Offer>, id: nat): seq<Offer> {
    if os == [] then []
    else OffersOutside(os[..|os| - 1], id) + if os[|os| - 1].id == id then [] else [os[|os| - 1]]
  }

  /** `delete_offer_import`: the upload and its costings go, products stay. */
  function DeleteOffer(db: Db, id: nat): Db {
    if OfferById(db.offers, id) == |db.offers| then db
    else db.(costings := CostingsOutside(db.costings, id), offers := OffersOutside(db.offers, id))
  }

  // ---- What every operation keeps ----

  predicate EanUnique(ps: seq<Product>) {
    forall i, j | 0 <= i < j < |ps| :: ps[i].ean.Some? ==> ps[i].ean != ps[j].ean
  }

  /** The products table: serial ids below the next one, and UNIQUE (ean). */
  predicate ProductsOk(ps: seq<Product>, next: nat) {
    && (forall i | 0 <= i < |ps| :: ps[i].id < next)
    && (forall i, j | 0 <= i < j < |ps| :: ps[i].id < ps[j].id)
    && EanUnique(ps)
  }

  predicate OffersAscend(os: seq<Offer>) {
    forall i, j | 0 <= i < j < |os| :: os[i].id < os[j].id
  }

  predicate OfferIdsAscend(db: Db) {
    && (forall i | 0 <= i < |db.offers| :: db.offers[i].id < db.nextOffer)
    && OffersAscend(db.offers)
  }

  predicate HasProduct(ps: seq<Product>, id: nat) {
    exists k :: 0 <= k < |ps| && ps[k].id == id
  }

  predicate HasOffer(os: seq<Offer>, id: nat) {
    exists k :: 0 <= k < |os| && os[k].id == id
  }

  /** Foreign keys of the costings table. */
  predicate CostingsReferToRows(db: Db) {
    forall i | 0 <= i < |db.costings| ::
      && HasProduct(db.products, db.costings[i].productId)
      && (db.costings[i].batch.Some? ==> HasOffer(db.offers, db.costings[i].batch.value))
  }

  /** `c` was saved before `d`; of the same product, it has the lower version. */
  predicate Precedes(c: Costing, d: Costing) {
    c.id < d.id && (c.productId == d.productId ==> c.version < d.version)
  }

  /** A later costing of a product always has the higher version. */
  predicate VersionsFollowCreation(cs: seq<Costing>) {
    forall i, j {:trigger Precedes(cs[i], cs[j])} | 0 <= i < j < |cs| :: Precedes(cs[i], cs[j])
  }

  type Calculator = CostingInputs -> CostingResults

  /** A stored snapshot is reproducible: its results are what the calculator makes of its inputs. */
  predicate Reproducible(cs: seq<Costing>, compute: Calculator) {
    forall i | 0 <= i < |cs| :: cs[i].results == compute(cs[i].inputs)
  }

  predicate Valid(db: Db) {
    && ProductsOk(db.products, db.nextProduct)
    && OfferIdsAscend(db)
    && CostingsReferToRows(db)
    && VersionsFollowCreation(db.costings)
    && (forall i | 0 <= i < |db.costings| :: db.costings[i].id < db.nextCosting)
  }

  /** Rewriting or appending product rows never breaks a costing's foreign key. */
  lemma NewProductsKeepValid(db: Db, ps: seq<Product>, next: nat)
    requires Valid(db)
    requires ProductsOk(ps, next)
    requires |db.products| <= |ps|
    requires forall i | 0 <= i < |db.products| :: db.products[i].id == ps[i].id
    ensures Valid(db.(products := ps, nextProduct := next))
  {
    forall i | 0 <= i < |db.costings| ensures HasProduct(ps, db.costings[i].productId) {
      var k :| 0 <= k < |db.products| && db.products[k].id == db.costings[i].productId;
      assert ps[k].id == db.costings[i].productId;
    }
  }

  lemma RewriteRow(ps: seq<Product>, next: nat, k: nat, q: Product)
    requires ProductsOk(ps, next)
    requires k < |ps| && q.id == ps[k].id
    requires q.ean.Some? ==> forall i | 0 <= i < |ps| && i != k :: ps[i].ean != q.ean
    ensures ProductsOk(ps[k := q], next)
  {
  }

  lemma OtherEan(ps: seq<Product>, k: nat, i: nat)
    requires EanUnique(ps)
    requires k < |ps| && i < |ps| && i != k
    ensures ps[k].ean.Some? ==> ps[i].ean != ps[k].ean
  {
  }

  lemma AppendRow(ps: seq<Product>, next: nat, q: Product)
    requires ProductsOk(ps, next)
    requires q.id == next
    requires q.ean.Some? ==> forall i | 0 <= i < |ps| :: ps[i].ean != q.ean
    ensures ProductsOk(ps + [q], next + 1)
  {
  }

  /** After a lookup by a valid EAN, no row other than the one found can hold that EAN. */
  lemma FoundRowOwnsTheEan(ps: seq<Product>, name: string, ean: Option<string>)
    requires EanUnique(ps)
    requires KeyEan(ean) == ean
    ensures ean.Some? ==> forall i | 0 <= i < |ps| && i != FindByKey(ps, name, ean) :: ps[i].ean != ean
  {
  }

  lemma UpsertKeepsProductsOk(ps: seq<Product>, next: nat, n: string, ean: Option<string>, upt: Option<int>,
                              selling: Option<real>, retail: Option<real>)
    requires ProductsOk(ps, next)
    requires KeyEan(ean) == ean
    ensures var k := FindByKey(ps, n, ean);
      if k < |ps| then ProductsOk(ps[k := Updated(ps[k], n, ean, upt, selling, retail)], next)
      else ProductsOk(ps + [Created(next, n, ean, upt, selling, retail)], next + 1)
  {
    var k := FindByKey(ps, n, ean);
    FoundRowOwnsTheEan(ps, n, ean);
    if k < |ps| {
      var q := Updated(ps[k], n, ean, upt, selling, retail);
      forall i | 0 <= i < |ps| && i != k ensures q.ean.Some? ==> ps[i].ean != q.ean {
        if ean.None? {
          OtherEan(ps, k, i);
        }
      }
      RewriteRow(ps, next, k, q);
    } else {
      AppendRow(ps, next, Created(next, n, ean, upt, selling, retail));
    }
  }

  /** No import write can break EAN uniqueness: an EAN that hits stays where it is, and one
      that misses is held by nobody. */
  lemma UpsertKeepsValid(db: Db, name: string, ean: Option<string>, upt: Option<int>,
                         selling: Option<real>, retail: Option<real>)
    requires Valid(db)
    requires KeyEan(ean) == ean
    ensures Valid(UpsertByKey(db, name, ean, upt, selling, retail))
  {
    var db' := UpsertByKey(db, name, ean, upt, selling, retail);
    UpsertKeepsProductsOk(db.products, db.nextProduct, Strip(name), ean, upt, selling, retail);
    NewProductsKeepValid(db, db'.products, db'.nextProduct);
  }

  lemma AdminSaveKeepsValid(db: Db, form: ProductForm)
    requires Valid(db)
    ensures AdminSave(db, form).Ok? ==> Valid(AdminSave(db, form).value.0)
  {
    var r := AdminSave(db, form);
    if r.Ok? {
      var db', ps, ean := r.value.0, db.products, FormEan(form);
      match SaveTarget(db, form)
      case Some(id) =>
        var k := ById(ps, id);
        if k < |ps| {
          RewriteRow(ps, db.nextProduct, k, db'.products[k]);
          NewProductsKeepValid(db, db'.products, db.nextProduct);
        }
      case None =>
        var q := db'.products[|ps|];
        AppendRow(ps, db.nextProduct, q);
        NewProductsKeepValid(db, db'.products, db.nextProduct + 1);
    }
  }

  lemma SaveCostingKeepsValid(db: Db, productId: nat, inputs: CostingInputs, results: CostingResults,
                              createdBy: string, status: Status, batch: Option<nat>)
    requires Valid(db)
    requires HasProduct(db.products, productId)
    requires batch.Some? ==> HasOffer(db.offers, batch.value)
    ensures Valid(SaveCosting(db, productId, inputs, results, createdBy, status, batch))
  {
    MaxVersionIsTop(db.costings, productId);
  }

  lemma {:induction false} CostingsOutsideSplits(cs: seq<Costing>, ds: seq<Costing>, batch: nat)
    ensures CostingsOutside(cs + ds, batch) == CostingsOutside(cs, batch) + CostingsOutside(ds, batch)
  {
    if ds == [] {
      assert cs + ds == cs;
    } else {
      var n := |ds| - 1;
      assert (cs + ds)[..|cs + ds| - 1] == cs + ds[..n];
      CostingsOutsideSplits(cs, ds[..n], batch);
    }
  }

  /** Deleting keeps exactly the costings of other uploads. */
  lemma {:induction false} OutsideKeepsTheOthers(cs: seq<Costing>, batch: nat)
    ensures forall c :: c in CostingsOutside(cs, batch) <==> c in cs && c.batch != Some(batch)
  {
    if cs != [] {
      var n := |cs| - 1;
      OutsideKeepsTheOthers(cs[..n], batch);
      assert cs == cs[..n] + [cs[n]];
    }
  }

  /** ... in their order, so a later costing of a product still has the higher version. */
  lemma {:induction false} OutsideKeepsOrder(cs: seq<Costing>, batch: nat)
    requires VersionsFollowCreation(cs)
    ensures VersionsFollowCreation(CostingsOutside(cs, batch))
  {
    if cs != [] {
      var n := |cs| - 1;
      OutsideKeepsOrder(cs[..n], batch);
      OutsideKeepsTheOthers(cs[..n], batch);
      var kept := CostingsOutside(cs[..n], batch);
      assert forall i, j {:trigger Precedes(cs[i], cs[j])} | 0 <= i < j < n ::
          cs[..n][i] == cs[i] && cs[..n][j] == cs[j];
      forall i | 0 <= i < |kept| ensures Precedes(kept[i], cs[n]) {
        assert kept[i] in cs[..n];
        var j :| 0 <= j < n && cs[j] == kept[i];
        assert Precedes(cs[j], cs[n]);
      }
    }
  }

  lemma {:induction false} OffersOutsideFilters(os: seq<Offer>, id: nat)
    ensures forall o :: o in OffersOutside(os, id) <==> o in os && o.id != id
  {
    if os != [] {
      OffersOutsideFilters(os[..|os| - 1], id);
      assert os == os[..|os| - 1] + [os[|os| - 1]];
    }
  }

  lemma {:induction false} OffersOutsideAscend(os: seq<Offer>, id: nat)
    requires OffersAscend(os)
    ensures OffersAscend(OffersOutside(os, id))
  {
    if os != [] {
      var n := |os| - 1;
      OffersOutsideAscend(os[..n], id);
      OffersOutsideFilters(os[..n], id);
      var kept, all := OffersOutside(os[..n], id), OffersOutside(os, id);
      forall i, j | 0 <= i < j < |all| ensures all[i].id < all[j].id {
        assert all[i] == kept[i] && kept[i] in os[..n];
        assert j < |kept| ==> all[j] == kept[j];
      }
    }
  }

  lemma OfferPresent(os: seq<Offer>, id: nat, o: Offer)
    requires o in os && o.id == id
    ensures HasOffer(os, id)
  {
  }

  lemma DeleteOfferKeepsValid(db: Db, id: nat)
    requires Valid(db)
    ensures Valid(DeleteOffer(db, id))
  {
    if OfferById(db.offers, id) < |db.offers| {
      var db' := DeleteOffer(db, id);
      OutsideKeepsOrder(db.costings, id);
      OutsideKeepsTheOthers(db.costings, id);
      OffersOutsideFilters(db.offers, id);
      OffersOutsideAscend(db.offers, id);
      forall i | 0 <= i < |db'.costings|
        ensures HasProduct(db'.products, db'.costings[i].productId)
        ensures db'.costings[i].batch.Some? ==> HasOffer(db'.offers, db'.costings[i].batch.value)
        ensures db'.costings[i].id < db.nextCosting
      {
        var c := db'.costings[i];
        assert c in db'.costings;
        var j :| 0 <= j < |db.costings| && db.costings[j] == c;
        if c.batch.Some? {
          var m :| 0 <= m < |db.offers| && db.offers[m].id == c.batch.value;
          var o := db.offers[m];
          assert o in db.offers && o.id != id;
          OfferPresent(db'.offers, c.batch.value, o);
        }
      }
      forall i | 0 <= i < |db'.offers| ensures db'.offers[i].id < db'.nextOffer {
        assert db'.offers[i] in db'.offers;
      }
    }
  }

  /** What `get_latest_costing` selects from: a product's costings, of one status if it is given. */
  predicate Selected(c: Costing, productId: nat, status: Option<Status>) {
    c.productId == productId && (status.Some? ==> c.status == status.value)
  }

  /** The next version is always above every version still stored, so a number freed by a deletion may
      come back but never out of order: the selected costing with the top version is the last created. */
  lemma LatestCostingIsLastCreated(cs: seq<Costing>, i: nat, productId: nat, status: Option<Status>)
    requires VersionsFollowCreation(cs)
    requires i < |cs| && Selected(cs[i], productId, status)
    ensures (forall k | 0 <= k < |cs| && Selected(cs[k], productId, status) :: cs[k].version <= cs[i].version)
      <==> (forall j | i < j < |cs| :: !Selected(cs[j], productId, status))
  {
    forall j | i < j < |cs| && Selected(cs[j], productId, status) ensures cs[i].version < cs[j].version {
      assert Precedes(cs[i], cs[j]);
    }
    forall k | 0 <= k < i && Selected(cs[k], productId, status) ensures cs[k].version < cs[i].version {
      assert Precedes(cs[k], cs[i]);
    }
  }

  lemma TopVersionIsLastCreated(cs: seq<Costing>, i: nat, productId: nat)
    requires VersionsFollowCreation(cs)
    requires i < |cs| && cs[i].productId == productId
    ensures cs[i].version == MaxVersion(cs, productId)
      <==> forall j | i < j < |cs| :: cs[j].productId != productId
  {
    var top := MaxVersion(cs, productId);
    MaxVersionIsTop(cs, productId);
    forall j | i < j < |cs| && cs[j].productId == productId ensures cs[i].version < top {
      assert Precedes(cs[i], cs[j]);
    }
    if forall j | i < j < |cs| :: cs[j].productId != productId {
      forall k | 0 <= k < |cs| && cs[k].productId == productId
        ensures cs[k].version <= cs[i].version
      {
        assert k <= i;
        assert k < i ==> Precedes(cs[k], cs[i]);
      }
    }
  }
}
