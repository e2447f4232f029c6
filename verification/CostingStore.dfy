/** The costing tables as they are updated in place. */
module CostingStore {
  import opened Common
  import opened Calc
  import opened CostingTables

  class Store {
    var products: seq<Product>
    var costings: seq<Costing>
    var offers: seq<Offer>
    var nextProduct: nat
    var nextCosting: nat
    var nextOffer: nat

    /** The tables as one value. */
    function State(): Db
      reads this
    {
      Db(products, costings, offers, nextProduct, nextCosting, nextOffer)
    }

    constructor ()
      ensures State() == EMPTY_DB
      ensures Valid(State())
    {
      products, costings, offers := [], [], [];
      nextProduct, nextCosting, nextOffer := 1, 1, 1;
    }

    /** Admin save of a product; a duplicate EAN is refused and nothing changes. */
    method UpsertProduct(form: ProductForm) returns (r: Result<nat>)
      requires Valid(State())
      modifies this
      ensures match AdminSave(old(State()), form)
        case Ok((db, id)) => State() == db && r == Ok(id)
        case Err(message) => State() == old(State()) && r == Err(message)
      ensures Valid(State())
    {
      AdminSaveKeepsValid(State(), form);
      var name, ean := Strip(form.name), FormEan(form);
      var target := form.productId;
      if target == None && ean.Some? {
        var k := ByEan(products, ean.value);
        target := if k < |products| then Some(products[k].id) else None;
      }
      if target.Some? {
        var k := ById(products, target.value);
        if k < |products| {
          if EanTaken(products, k, ean) {
            return Err("duplicate key value violates unique constraint");
          }
          products := products[k := products[k].(
            name := name, ean := ean, unitsPerTray := form.unitsPerTray,
            retail := form.retail, selling := form.selling, active := form.active, origin := Human)];
        }
        return Ok(target.value);
      }
      var id := nextProduct;
      products := products + [Product(id, ean, name, form.unitsPerTray, form.retail, form.selling, form.active, Human)];
      nextProduct := nextProduct + 1;
      return Ok(id);
    }

    /** The import's upsert: human prices stay, auto prices are replaced outright. */
    method UpsertProductByKey(name: string, ean: Option<string>, upt: Option<int>,
                              selling: Option<real>, retail: Option<real>)
      returns (id: nat, created: bool)
      requires Valid(State())
      requires KeyEan(ean) == ean
      modifies `products, `nextProduct
      ensures State() == UpsertByKey(old(State()), name, ean, upt, selling, retail)
      ensures Valid(State())
      ensures id == UpsertedId(old(State()), name, ean)
      ensures created == (FindByKey(old(products), Strip(name), ean) == |old(products)|)
      ensures HasProduct(products, id)
    {
      UpsertKeepsValid(State(), name, ean, upt, selling, retail);
      var n := Strip(name);
      var k := FindByKey(products, n, ean);
      created := k == |products|;
      if !created {
        id := products[k].id;
        var p := products[k];
        if p.origin == Human {
          products := products[k := p.(name := n, unitsPerTray := upt.GetOr(p.unitsPerTray),
                                       ean := if ean.Some? then ean else p.ean)];
        } else {
          products := products[k := p.(name := n, unitsPerTray := upt.GetOr(p.unitsPerTray),
                                       ean := if ean.Some? then ean else p.ean,
                                       selling := selling, retail := retail, origin := Auto)];
        }
        assert products[k].id == id;
      } else {
        id := nextProduct;
        products := products + [Created(id, n, ean, upt, selling, retail)];
        nextProduct := nextProduct + 1;
        assert products[k].id == id;
      }
    }

    /** The next version of a product's costing; an unknown product violates the foreign key. */
    method SaveCosting(productId: nat, inputs: CostingInputs, results: CostingResults,
                       createdBy: string, status: Status, batch: Option<nat>)
      returns (version: Result<nat>)
      requires Valid(State())
      requires batch.Some? ==> HasOffer(offers, batch.value)
      modifies `costings, `nextCosting
      ensures version.Ok? <==> HasProduct(products, productId)
      ensures version.Ok? ==>
        && State() == CostingTables.SaveCosting(old(State()), productId, inputs, results, createdBy, status, batch)
        && version.value == MaxVersion(old(costings), productId) + 1
      ensures version.Err? ==> State() == old(State())
      ensures Valid(State())
    {
      if ById(products, productId) == |products| {
        return Err("insert or update violates foreign key constraint");
      }
      assert HasProduct(products, productId) by {
        assert products[ById(products, productId)].id == productId;
      }
      SaveCostingKeepsValid(State(), productId, inputs, results, createdBy, status, batch);
      ghost var saved := CostingTables.SaveCosting(State(), productId, inputs, results, createdBy, status, batch);
      var next := MaxVersion(costings, productId) + 1;
      costings := costings + [Costing(nextCosting, productId, next, status, inputs, results, createdBy, batch)];
      nextCosting := nextCosting + 1;
      assert State() == saved;
      version := Ok(next);
    }

    method CreateOfferImport(filename: string, uploadedBy: string, finalised: bool) returns (id: nat)
      requires Valid(State())
      modifies `offers, `nextOffer
      ensures Valid(State())
      ensures State() == CreateOffer(old(State()), filename, uploadedBy, finalised)
      ensures id == old(nextOffer) && HasOffer(offers, id)
    {
      CreateOfferKeepsValid(State(), filename, uploadedBy, finalised);
      id := nextOffer;
      offers := offers + [Offer(id, filename, uploadedBy, finalised, 0, 0, 0, 0, 0)];
      nextOffer := nextOffer + 1;
      assert offers[|offers| - 1].id == id;
    }

    method UpdateOfferImportCounts(id: nat, rowCount: nat, created: nat, updated: nat, costed: nat, skipped: nat)
      requires Valid(State())
      modifies `offers
      ensures Valid(State())
      ensures offers == UpdateCounts(old(offers), id, rowCount, created, updated, costed, skipped)
    {
      UpdateCountsKeepsValid(State(), id, rowCount, created, updated, costed, skipped);
      offers := UpdateCounts(offers, id, rowCount, created, updated, costed, skipped);
    }

    /** Remove an upload and the costings it made; None when there was nothing to delete. */
    method DeleteOfferImport(id: nat) returns (deleted: Option<Offer>)
      requires Valid(State())
      modifies this
      ensures State() == DeleteOffer(old(State()), id)
      ensures Valid(State())
      ensures deleted.Some? <==> HasOffer(old(offers), id)
      ensures deleted.Some? ==> deleted.value in old(offers) && deleted.value.id == id
    {
      DeleteOfferKeepsValid(State(), id);
      var k := OfferById(offers, id);
      if k == |offers| {
        return None;
      }
      deleted := Some(offers[k]);
      var kept := [];
      for i := 0 to |costings|
        invariant kept == CostingsOutside(costings[..i], id)
        invariant State() == old(State())
      {
        assert costings[..i + 1][..i] == costings[..i];
        if costings[i].batch != Some(id) {
          kept := kept + [costings[i]];
        }
      }
      assert costings[..|costings|] == costings;
      costings := kept;
      offers := OffersOutside(offers, id);
    }
  }

  lemma CreateOfferKeepsValid(db: Db, filename: string, uploadedBy: string, finalised: bool)
    requires Valid(db)
    ensures Valid(CreateOffer(db, filename, uploadedBy, finalised))
  {
    var db' := CreateOffer(db, filename, uploadedBy, finalised);
    OffersWithSameIds(db, db'.offers, db'.nextOffer);
  }

  lemma UpdateCountsKeepsValid(db: Db, id: nat, rowCount: nat, created: nat, updated: nat, costed: nat, skipped: nat)
    requires Valid(db)
    ensures Valid(db.(offers := UpdateCounts(db.offers, id, rowCount, created, updated, costed, skipped)))
  {
    OffersWithSameIds(db, UpdateCounts(db.offers, id, rowCount, created, updated, costed, skipped), db.nextOffer);
  }

  lemma OffersWithSameIds(db: Db, os: seq<Offer>, next: nat)
    requires Valid(db)
    requires |db.offers| <= |os|
    requires forall i | 0 <= i < |db.offers| :: os[i].id == db.offers[i].id
    requires OfferIdsAscend(db.(offers := os, nextOffer := next))
    ensures Valid(db.(offers := os, nextOffer := next))
  {
    forall i | 0 <= i < |db.costings| && db.costings[i].batch.Some?
      ensures HasOffer(os, db.costings[i].batch.value)
    {
      var k :| 0 <= k < |db.offers| && db.offers[k].id == db.costings[i].batch.value;
      assert os[k].id == db.costings[i].batch.value;
    }
  }
}
