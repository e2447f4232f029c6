/** Importing the same offer twice: the second run creates no product, changes no product (but for
    one corner), and adds exactly one new costing version per costable row. */
module Reimport {
  import opened Common
  import opened CostingTables
  import opened OfferRows
  import opened OfferImport
  import opened BatchTracking
  import opened ImportVersions
  import ImportEffects

  // ---- After a batch, every row finds the product it was written to ----

  /** A row without a valid EAN shares its name with no row that has one. */
  predicate NameKeysAlone(rows: seq<OfferRow>) {
    forall i, j | 0 <= i < |rows| && 0 <= j < |rows| && Named(rows[i]) && Named(rows[j])
      && RowEan(rows[i]).None? && RowEan(rows[j]).Some? :: Strip(rows[i].name) != Strip(rows[j].name)
  }

  lemma NamesTellKeys(rows: seq<OfferRow>, f: nat, j: nat)
    requires f < |rows| && j < |rows| && Named(rows[f]) && Named(rows[j]) && RowEan(rows[j]).None?
    requires DistinctKeys(rows) && NameKeysAlone(rows)
    ensures f != j ==> Strip(rows[f].name) != Strip(rows[j].name)
  {
    if RowEan(rows[f]).None? && Strip(rows[f].name) == Strip(rows[j].name) {
      SameKeySameRow(rows, f, j);
    }
  }

  lemma OwnerIsFound(ps0: seq<Product>, rows: seq<OfferRow>, i: nat, ps: seq<Product>, t: seq<Touch>, own: seq<nat>,
                     j: nat)
    requires Tracked(ps0, rows, i, ps, t, own) && DistinctKeys(rows) && NameKeysAlone(rows) && EanUnique(ps)
    requires j < i && Named(rows[j])
    ensures own[j] < |ps| && Lookup(ps, rows[j]) == own[j]
    ensures RowEan(rows[j]).Some? ==> ByEan(ps, RowEan(rows[j]).value) == own[j]
  {
    OwnedOnce(ps0, rows, i, ps, t, own, j);
    var k, row := own[j], rows[j];
    TouchedOnce(ps0, rows, i, ps, t, own, k);
    if RowEan(row).Some? {
      forall m | 0 <= m < k ensures ps[m].ean != RowEan(row) {
        assert ps[m].ean != ps[k].ean;
      }
      NoEanMeansByEanEnd(ps, RowEan(row).value, k);
    } else {
      forall m | 0 <= m < k ensures ps[m].name != Strip(row.name) {
        TouchedOnce(ps0, rows, i, ps, t, own, m);
        if t[m].Touched? {
          NamesTellKeys(rows, t[m].first, j);
        }
      }
      NoNameMeansByNameEnd(ps, Strip(row.name), k);
    }
  }

  /** In the second run only rows without an EAN are found by their names. */
  lemma NamesStayApart(ps0: seq<Product>, rows: seq<OfferRow>, ps: seq<Product>, t: seq<Touch>, own: seq<nat>)
    requires Tracked(ps0, rows, |rows|, ps, t, own) && DistinctKeys(rows) && NameKeysAlone(rows) && EanUnique(ps)
    ensures NamesApart(ps, rows)
  {
    forall j, i | 0 <= j < i < |rows| && Named(rows[j]) && FoundByName(ps, rows, i)
      ensures Strip(rows[j].name) != Strip(rows[i].name)
    {
      OwnerIsFound(ps0, rows, |rows|, ps, t, own, i);
      NamesTellKeys(rows, j, i);
    }
  }

  lemma MatchesStayDistinct(ps0: seq<Product>, rows: seq<OfferRow>, ps: seq<Product>, t: seq<Touch>, own: seq<nat>)
    requires Tracked(ps0, rows, |rows|, ps, t, own) && DistinctKeys(rows) && NameKeysAlone(rows) && EanUnique(ps)
    ensures DistinctMatches(ps, rows)
  {
    forall i, j | 0 <= i < j < |rows| && FirstOfKey(rows, i) && FirstOfKey(rows, j)
      ensures Lookup(ps, rows[i]) != Lookup(ps, rows[j])
    {
      OwnerIsFound(ps0, rows, |rows|, ps, t, own, i);
      OwnerIsFound(ps0, rows, |rows|, ps, t, own, j);
      OwnedOnce(ps0, rows, |rows|, ps, t, own, i);
      OwnedOnce(ps0, rows, |rows|, ps, t, own, j);
    }
  }

  /** The two runs touch the same products with the same rows, so the second creates none. */
  lemma SameTouches(ps0: seq<Product>, rows: seq<OfferRow>, ps1: seq<Product>, t1: seq<Touch>, own1: seq<nat>,
                    ps2: seq<Product>, t2: seq<Touch>, own2: seq<nat>)
    requires DistinctKeys(rows) && NameKeysAlone(rows) && EanUnique(ps1)
    requires Tracked(ps0, rows, |rows|, ps1, t1, own1)
    requires Tracked(ps1, rows, |rows|, ps2, t2, own2)
    ensures |ps2| == |ps1| && t1 == t2
    ensures forall k | 0 <= k < |ps1| :: ps1[k].id == ps2[k].id
  {
    var n := |rows|;
    if |ps1| < |ps2| {
      TouchedOnce(ps1, rows, n, ps2, t2, own2, |ps1|);
      OwnerIsFound(ps0, rows, n, ps1, t1, own1, t2[|ps1|].first);
      assert false;
    }
    forall k | 0 <= k < |ps1| ensures t1[k] == t2[k] && ps1[k].id == ps2[k].id {
      SameTouch(ps0, rows, ps1, t1, own1, ps2, t2, own2, k);
      TouchedOnce(ps1, rows, n, ps2, t2, own2, k);
    }
  }

  lemma SameTouch(ps0: seq<Product>, rows: seq<OfferRow>, ps1: seq<Product>, t1: seq<Touch>, own1: seq<nat>,
                  ps2: seq<Product>, t2: seq<Touch>, own2: seq<nat>, k: nat)
    requires DistinctKeys(rows) && NameKeysAlone(rows) && EanUnique(ps1)
    requires Tracked(ps0, rows, |rows|, ps1, t1, own1)
    requires Tracked(ps1, rows, |rows|, ps2, t2, own2)
    requires k < |ps1| == |ps2|
    ensures t1[k] == t2[k]
  {
    var n := |rows|;
    TouchedOnce(ps0, rows, n, ps1, t1, own1, k);
    TouchedOnce(ps1, rows, n, ps2, t2, own2, k);
    if t1[k].Touched? {
      var j := t1[k].first;
      OwnerIsFound(ps0, rows, n, ps1, t1, own1, j);
      OwnedOnce(ps1, rows, n, ps2, t2, own2, j);
      TouchedOnce(ps1, rows, n, ps2, t2, own2, own2[j]);
    } else if t2[k].Touched? {
      var j := t2[k].first;
      OwnerIsFound(ps0, rows, n, ps1, t1, own1, j);
      OwnedOnce(ps0, rows, n, ps1, t1, own1, j);
    }
  }

  // ---- What a touched product holds ----

  /** What a row writes to the product it finds in position `k` of the table before the batch. */
  function WrittenBy(ps: seq<Product>, k: nat, id: nat, row: OfferRow, settings: Settings): Product {
    var r := RowPrices(row, SeenAt(ps, k), settings);
    if k < |ps| then Updated(ps[k], Strip(row.name), RowEan(row), row.upt, SellingOf(r), RetailOf(r))
    else Created(id, Strip(row.name), RowEan(row), row.upt, SellingOf(r), RetailOf(r))
  }

  /** Every touched product holds what its row writes. */
  predicate Exact(ps0: seq<Product>, rows: seq<OfferRow>, i: nat, ps: seq<Product>, t: seq<Touch>, settings: Settings) {
    && |t| == |ps| && i <= |rows|
    && forall k | 0 <= k < |ps| && t[k].Touched? ::
      t[k].first < i && ps[k] == WrittenBy(ps0, k, ps[k].id, rows[t[k].first], settings)
  }

  lemma ExactWrite(ps0: seq<Product>, rows: seq<OfferRow>, i: nat, ps: seq<Product>, t: seq<Touch>, own: seq<nat>,
                   next: nat, settings: Settings)
    requires Tracked(ps0, rows, i, ps, t, own) && DistinctKeys(rows) && NamesApart(ps0, rows)
    requires DistinctMatches(ps0, rows)
    requires i < |rows| && Named(rows[i])
    requires Exact(ps0, rows, i, ps, t, settings)
    ensures var r := RowPrices(rows[i], SeenAt(ps, Lookup(ps, rows[i])), settings);
      Exact(ps0, rows, i + 1, Upserted(ps, next, rows[i], SellingOf(r), RetailOf(r)),
            Touching(t, Lookup(ps, rows[i]), i), settings)
  {
    FirstRowFindsTheSame(ps0, rows, i, ps, t, own);
    assert SeenAt(ps, Lookup(ps, rows[i])) == SeenAt(ps0, Lookup(ps, rows[i]));
  }

  lemma {:induction false} ExactBatch(s: RunState, rows: seq<OfferRow>, i: nat, settings: Settings, batch: Batch)
    requires Valid(s.db) && HasOffer(s.db.offers, batch.id)
    requires i <= |rows| && DistinctKeys(rows) && NamesApart(s.db.products, rows)
    requires DistinctMatches(s.db.products, rows)
    ensures Exact(s.db.products, rows, i, RealRows(s, rows[..i], settings, batch).db.products,
                  Touches(s, rows[..i], settings, batch), settings)
  {
    if i > 0 {
      var n := i - 1;
      ExactBatch(s, rows, n, settings, batch);
      TrackBatch(s, rows, n, settings, batch);
      ExactRow(s.db.products, rows, n, RealRows(s, rows[..n], settings, batch), Touches(s, rows[..n], settings, batch),
               Owners(s, rows[..n], settings, batch), settings, batch);
      OneMoreRow(s, rows, n, settings, batch);
    }
  }

  lemma ExactRow(ps0: seq<Product>, rows: seq<OfferRow>, i: nat, s: RunState, t: seq<Touch>, own: seq<nat>,
                 settings: Settings, batch: Batch)
    requires Tracked(ps0, rows, i, s.db.products, t, own) && DistinctKeys(rows) && NamesApart(ps0, rows)
    requires DistinctMatches(ps0, rows)
    requires i < |rows| && Exact(ps0, rows, i, s.db.products, t, settings)
    ensures Exact(ps0, rows, i + 1, RealRow(s, rows[i], settings, batch).db.products,
                  NextTouches(s.db.products, rows[i], t, i), settings)
  {
    if Named(rows[i]) {
      RowWritesUpserted(s, rows[i], settings, batch);
      ExactWrite(ps0, rows, i, s.db.products, t, own, s.db.nextProduct, settings);
    }
  }

  // ---- The products of a second run ----

  /** A row is created with 1 unit per tray when the offer says 0, and updated to 0 the next time. */
  predicate ZeroTrayOnCreation(ps: seq<Product>, row: OfferRow) {
    Named(row) && Lookup(ps, row) == |ps| && row.upt == Some(0)
  }

  /** Writing the same row twice to the same product changes nothing the second time, but for that corner. */
  lemma WritingTwice(ps0: seq<Product>, k: nat, ps1: seq<Product>, row: OfferRow, settings: Settings)
    requires k < |ps1|
    requires k < |ps0| ==> ps1[k].id == ps0[k].id
    requires ps1[k] == WrittenBy(ps0, k, ps1[k].id, row, settings)
    ensures WrittenBy(ps1, k, ps1[k].id, row, settings) == ps1[k] <==> !(k >= |ps0| && row.upt == Some(0))
  {
  }

  lemma SameProduct(ps0: seq<Product>, rows: seq<OfferRow>, ps1: seq<Product>, ps2: seq<Product>, t: seq<Touch>,
                    own1: seq<nat>, own2: seq<nat>, settings: Settings, k: nat)
    requires DistinctKeys(rows)
    requires Tracked(ps0, rows, |rows|, ps1, t, own1) && Exact(ps0, rows, |rows|, ps1, t, settings)
    requires Tracked(ps1, rows, |rows|, ps2, t, own2) && Exact(ps1, rows, |rows|, ps2, t, settings)
    requires k < |ps1| == |ps2|
    ensures k >= |ps0| ==> t[k].Touched? && t[k].first < |rows|
    ensures ps2[k] == ps1[k] <==> !(k >= |ps0| && rows[t[k].first].upt == Some(0))
  {
    TouchedOnce(ps0, rows, |rows|, ps1, t, own1, k);
    TouchedOnce(ps1, rows, |rows|, ps2, t, own2, k);
    if t[k].Touched? {
      WritingTwice(ps0, k, ps1, rows[t[k].first], settings);
    }
  }

  /** The whole table is the same exactly when no created product is in the corner. */
  lemma SameProductsIff(ps0: seq<Product>, rows: seq<OfferRow>, ps1: seq<Product>, ps2: seq<Product>, t: seq<Touch>,
                        own1: seq<nat>, own2: seq<nat>, settings: Settings)
    requires DistinctKeys(rows)
    requires Tracked(ps0, rows, |rows|, ps1, t, own1) && Exact(ps0, rows, |rows|, ps1, t, settings)
    requires Tracked(ps1, rows, |rows|, ps2, t, own2) && Exact(ps1, rows, |rows|, ps2, t, settings)
    requires |ps1| == |ps2|
    ensures ps2 == ps1 <==> forall i | 0 <= i < |rows| :: !ZeroTrayOnCreation(ps0, rows[i])
  {
    if ps2 == ps1 {
      forall i | 0 <= i < |rows| ensures !ZeroTrayOnCreation(ps0, rows[i]) {
        if Named(rows[i]) {
          OwnedOnce(ps0, rows, |rows|, ps1, t, own1, i);
          TouchedOnce(ps0, rows, |rows|, ps1, t, own1, own1[i]);
          SameProduct(ps0, rows, ps1, ps2, t, own1, own2, settings, own1[i]);
        }
      }
    }
    if forall i | 0 <= i < |rows| :: !ZeroTrayOnCreation(ps0, rows[i]) {
      forall k | 0 <= k < |ps1| ensures ps2[k] == ps1[k] {
        SameProduct(ps0, rows, ps1, ps2, t, own1, own2, settings, k);
        TouchedOnce(ps0, rows, |rows|, ps1, t, own1, k);
        if k >= |ps0| {
          assert !ZeroTrayOnCreation(ps0, rows[t[k].first]);
        }
      }
    }
  }

  // ---- The versions of a second run ----

  predicate NextVersion(c: Costing, d: Costing) {
    d.productId == c.productId && d.version == c.version + 1
  }

  /** The version an import adds is the top one of its product. */
  lemma AddedVersionIsTop(base: seq<Costing>, cs: seq<Costing>, ps: seq<Product>, idx: seq<nat>, own: seq<nat>, x: nat)
    requires VersionsAdded(base, cs, ps, idx, own) && VersionsFollowCreation(cs)
    requires x < |idx|
    requires forall y | x < y < |idx| :: ps[own[idx[y]]].id != ps[own[idx[x]]].id
    ensures MaxVersion(cs, ps[own[idx[x]]].id) == cs[|base| + x].version
  {
    var id, i := ps[own[idx[x]]].id, |base| + x;
    assert NextIn(base, cs[i], id);
    forall j | i < j < |cs| ensures cs[j].productId != id {
      assert NextIn(base, cs[|base| + (j - |base|)], ps[own[idx[j - |base|]]].id);
    }
    TopVersionIsLastCreated(cs, i, id);
  }

  lemma VersionsChain(base: seq<Costing>, cs1: seq<Costing>, ps1: seq<Product>, own1: seq<nat>,
                      cs2: seq<Costing>, ps2: seq<Product>, own2: seq<nat>, idx: seq<nat>, x: nat)
    requires VersionsAdded(base, cs1, ps1, idx, own1) && VersionsAdded(cs1, cs2, ps2, idx, own2)
    requires x < |idx| && own1[idx[x]] == own2[idx[x]]
    requires ps1[own1[idx[x]]].id == ps2[own1[idx[x]]].id
    requires MaxVersion(cs1, ps1[own1[idx[x]]].id) == cs1[|base| + x].version
    ensures NextVersion(cs1[|base| + x], cs2[|cs1| + x])
  {
    assert NextIn(base, cs1[|base| + x], ps1[own1[idx[x]]].id);
    assert NextIn(cs1, cs2[|cs1| + x], ps2[own2[idx[x]]].id);
  }

  lemma RowsOwnDifferentIds(ps0: seq<Product>, rows: seq<OfferRow>, ps: seq<Product>, next: nat, t: seq<Touch>,
                            own: seq<nat>, i: nat, j: nat)
    requires Tracked(ps0, rows, |rows|, ps, t, own) && ProductsOk(ps, next) && DistinctKeys(rows)
    requires i < |rows| && j < |rows| && i != j && Named(rows[i]) && Named(rows[j])
    ensures own[i] < |ps| && own[j] < |ps| && ps[own[i]].id != ps[own[j]].id
  {
    OwnedOnce(ps0, rows, |rows|, ps, t, own, i);
    OwnedOnce(ps0, rows, |rows|, ps, t, own, j);
    assert own[i] < own[j] || own[j] < own[i];
  }

  lemma SameOwner(ps0: seq<Product>, rows: seq<OfferRow>, ps1: seq<Product>, ps2: seq<Product>, t: seq<Touch>,
                  own1: seq<nat>, own2: seq<nat>, j: nat)
    requires DistinctKeys(rows)
    requires Tracked(ps0, rows, |rows|, ps1, t, own1) && Tracked(ps1, rows, |rows|, ps2, t, own2)
    requires j < |rows| && Named(rows[j])
    ensures own1[j] == own2[j]
  {
    OwnedOnce(ps0, rows, |rows|, ps1, t, own1, j);
    assert own2[t[own1[j]].last] == own1[j];
  }

  lemma SecondVersion(ps0: seq<Product>, base: seq<Costing>, rows: seq<OfferRow>, ps1: seq<Product>, next: nat,
                      cs1: seq<Costing>, ps2: seq<Product>, cs2: seq<Costing>, t: seq<Touch>,
                      own1: seq<nat>, own2: seq<nat>, idx: seq<nat>, x: nat)
    requires ProductsOk(ps1, next) && VersionsFollowCreation(cs1) && DistinctKeys(rows)
    requires Tracked(ps0, rows, |rows|, ps1, t, own1) && Tracked(ps1, rows, |rows|, ps2, t, own2)
    requires VersionsAdded(base, cs1, ps1, idx, own1) && VersionsAdded(cs1, cs2, ps2, idx, own2)
    requires NamedPositions(idx, rows, |rows|)
    requires |ps1| == |ps2| && forall k | 0 <= k < |ps1| :: ps1[k].id == ps2[k].id
    requires x < |idx|
    ensures NextVersion(cs1[|base| + x], cs2[|cs1| + x])
  {
    SameOwner(ps0, rows, ps1, ps2, t, own1, own2, idx[x]);
    forall y | x < y < |idx| ensures ps1[own1[idx[y]]].id != ps1[own1[idx[x]]].id {
      RowsOwnDifferentIds(ps0, rows, ps1, next, t, own1, idx[x], idx[y]);
    }
    AddedVersionIsTop(base, cs1, ps1, idx, own1, x);
    VersionsChain(base, cs1, ps1, own1, cs2, ps2, own2, idx, x);
  }

  /** What the second import of one batch adds, compared with the first: for each costable row the
      next version of the same product. */
  predicate OneMoreVersionEach(base: seq<Costing>, cs1: seq<Costing>, cs2: seq<Costing>, rows: nat) {
    && base <= cs1 <= cs2
    && var first, second := cs1[|base|..], cs2[|cs1|..];
       |first| == |second| == rows && forall x | 0 <= x < |first| :: NextVersion(first[x], second[x])
  }

  // ---- The theorem ----

  /** Everything known about one import of a batch with distinct keys. */
  predicate Described(db: Db, rows: seq<OfferRow>, db': Db, t: seq<Touch>, own: seq<nat>, settings: Settings) {
    && Tracked(db.products, rows, |rows|, db'.products, t, own)
    && Exact(db.products, rows, |rows|, db'.products, t, settings)
    && VersionsAdded(db.costings, db'.costings, db'.products, Costable(rows, settings), own)
  }

  lemma DescribeImport(db: Db, rows: seq<OfferRow>, actor: string, source: string, finalise: bool, settings: Settings)
    returns (t: seq<Touch>, own: seq<nat>)
    requires Valid(db) && DistinctKeys(rows) && NamesApart(db.products, rows) && DistinctMatches(db.products, rows)
    ensures Described(db, rows, Import(db, rows, actor, source, finalise, settings).0, t, own, settings)
  {
    var s, batch := Opened(db, source, actor, finalise), BatchOf(db, actor, finalise);
    ImportEffects.CreateOfferIsValid(db, source, actor, finalise);
    assert rows[..|rows|] == rows;
    t, own := Touches(s, rows, settings, batch), Owners(s, rows, settings, batch);
    TrackBatch(s, rows, |rows|, settings, batch);
    ExactBatch(s, rows, |rows|, settings, batch);
    TrackVersions(s, rows, |rows|, settings, batch);
  }

  /** The versions of the second run follow those of the first, row by row. */
  lemma CompareVersions(db: Db, db1: Db, db2: Db, rows: seq<OfferRow>, t: seq<Touch>, own1: seq<nat>,
                        own2: seq<nat>, idx: seq<nat>)
    requires ProductsOk(db1.products, db1.nextProduct) && VersionsFollowCreation(db1.costings) && DistinctKeys(rows)
    requires Tracked(db.products, rows, |rows|, db1.products, t, own1)
    requires Tracked(db1.products, rows, |rows|, db2.products, t, own2)
    requires VersionsAdded(db.costings, db1.costings, db1.products, idx, own1)
    requires VersionsAdded(db1.costings, db2.costings, db2.products, idx, own2)
    requires NamedPositions(idx, rows, |rows|) && |db1.products| == |db2.products|
    requires forall k | 0 <= k < |db1.products| :: db1.products[k].id == db2.products[k].id
    ensures OneMoreVersionEach(db.costings, db1.costings, db2.costings, |idx|)
  {
    forall x | 0 <= x < |idx|
      ensures NextVersion(db1.costings[|db.costings|..][x], db2.costings[|db1.costings|..][x])
    {
      SecondVersion(db.products, db.costings, rows, db1.products, db1.nextProduct, db1.costings, db2.products,
                    db2.costings, t, own1, own2, idx, x);
    }
  }

  lemma CompareImports(db: Db, db1: Db, db2: Db, rows: seq<OfferRow>, t1: seq<Touch>, own1: seq<nat>,
                       t2: seq<Touch>, own2: seq<nat>, settings: Settings)
    requires ProductsOk(db1.products, db1.nextProduct) && VersionsFollowCreation(db1.costings)
    requires DistinctKeys(rows) && NameKeysAlone(rows)
    requires Described(db, rows, db1, t1, own1, settings)
    requires Described(db1, rows, db2, t2, own2, settings)
    ensures |db2.products| == |db1.products|
    ensures OneMoreVersionEach(db.costings, db1.costings, db2.costings, |Costable(rows, settings)|)
    ensures db2.products == db1.products <==> forall i | 0 <= i < |rows| :: !ZeroTrayOnCreation(db.products, rows[i])
  {
    SameTouches(db.products, rows, db1.products, t1, own1, db2.products, t2, own2);
    assert rows[..|rows|] == rows;
    CostableInRange(rows, |rows|, settings);
    CompareVersions(db, db1, db2, rows, t1, own1, own2, Costable(rows, settings));
    SameProductsIff(db.products, rows, db1.products, db2.products, t1, own1, own2, settings);
  }

  /** No two named rows have one key, names do not lead one row to another's product, and different rows
      match different stored products. */
  predicate Repeatable(ps: seq<Product>, rows: seq<OfferRow>) {
    DistinctKeys(rows) && NameKeysAlone(rows) && NamesApart(ps, rows) && DistinctMatches(ps, rows)
  }

  /** Both imports of such a batch are described. */
  lemma DescribeBoth(db: Db, rows: seq<OfferRow>, actor: string, source: string, finalise: bool, settings: Settings)
    returns (t1: seq<Touch>, own1: seq<nat>, t2: seq<Touch>, own2: seq<nat>)
    requires Valid(db) && Repeatable(db.products, rows)
    ensures var db1 := Import(db, rows, actor, source, finalise, settings).0;
      && Valid(db1)
      && Described(db, rows, db1, t1, own1, settings)
      && Described(db1, rows, Import(db1, rows, actor, source, finalise, settings).0, t2, own2, settings)
  {
    var db1 := Import(db, rows, actor, source, finalise, settings).0;
    t1, own1 := DescribeImport(db, rows, actor, source, finalise, settings);
    ImportEffects.ImportKeepsValid(db, rows, actor, source, finalise, settings);
    NamesStayApart(db.products, rows, db1.products, t1, own1);
    MatchesStayDistinct(db.products, rows, db1.products, t1, own1);
    t2, own2 := DescribeImport(db1, rows, actor, source, finalise, settings);
  }

  lemma RunWithoutNewProducts(db: Db, rows: seq<OfferRow>, actor: string, source: string, finalise: bool,
                              settings: Settings)
    requires OfferIdsAscend(db)
    requires |Import(db, rows, actor, source, finalise, settings).0.products| == |db.products|
    ensures var rep := Import(db, rows, actor, source, finalise, settings).1;
      rep.productsCreated == 0 && rep.productsUpdated == ImportEffects.NamedCount(rows)
  {
    ImportEffects.ReportCountsTheGrowth(db, rows, actor, source, finalise, settings);
  }

  /** MAIN RESULT. Importing such a batch again creates no product and adds exactly one version per
      costable row. It leaves the whole products table as the first run left it exactly when no row that
      created a product says 0 units per tray. */
  lemma ReimportIsIdempotent(db: Db, rows: seq<OfferRow>, actor: string, source: string, finalise: bool,
                             settings: Settings)
    requires Valid(db) && Repeatable(db.products, rows)
    ensures var db1 := Import(db, rows, actor, source, finalise, settings).0;
      var (db2, rep2) := Import(db1, rows, actor, source, finalise, settings);
      && rep2.productsCreated == 0 && rep2.productsUpdated == ImportEffects.NamedCount(rows)
      && OneMoreVersionEach(db.costings, db1.costings, db2.costings, |Costable(rows, settings)|)
      && (db2.products == db1.products <==> forall i | 0 <= i < |rows| :: !ZeroTrayOnCreation(db.products, rows[i]))
  {
    var db1 := Import(db, rows, actor, source, finalise, settings).0;
    var db2 := Import(db1, rows, actor, source, finalise, settings).0;
    var t1, own1, t2, own2 := DescribeBoth(db, rows, actor, source, finalise, settings);
    CompareImports(db, db1, db2, rows, t1, own1, t2, own2, settings);
    RunWithoutNewProducts(db1, rows, actor, source, finalise, settings);
  }

  /** As `parse_offer` leaves a row: no units per tray, or a positive number. */
  predicate TrayAbsentOrPositive(row: OfferRow) {
    row.upt.Some? ==> row.upt.value > 0
  }

  /** A workbook imported again leaves the products as they are. */
  lemma WorkbookReimportKeepsProducts(
    db: Db, rows: seq<OfferRow>, actor: string, source: string, finalise: bool, settings: Settings)
    requires Valid(db) && Repeatable(db.products, rows)
    requires forall i | 0 <= i < |rows| :: TrayAbsentOrPositive(rows[i])
    ensures var db1 := Import(db, rows, actor, source, finalise, settings).0;
      Import(db1, rows, actor, source, finalise, settings).0.products == db1.products
  {
    ReimportIsIdempotent(db, rows, actor, source, finalise, settings);
    forall i | 0 <= i < |rows| ensures !ZeroTrayOnCreation(db.products, rows[i]) {
      assert TrayAbsentOrPositive(rows[i]);
    }
  }

  lemma EmptyCatalogueMatchesNothing(rows: seq<OfferRow>)
    ensures DistinctMatches([], rows)
  {
  }

  predicate DistinctNames(rows: seq<OfferRow>) {
    forall i, j | 0 <= i < j < |rows| && Named(rows[i]) && Named(rows[j]) :: Strip(rows[i].name) != Strip(rows[j].name)
  }

  lemma EmptyCatalogueIsRepeatable(rows: seq<OfferRow>)
    requires DistinctKeys(rows) && DistinctNames(rows)
    ensures Repeatable([], rows)
  {
    EmptyCatalogueMatchesNothing(rows);
    forall i, j | 0 <= i < |rows| && 0 <= j < |rows| && i != j && Named(rows[i]) && Named(rows[j])
      ensures Strip(rows[i].name) != Strip(rows[j].name)
    {
      assert i < j || j < i;
    }
  }

  predicate CreatedWithZero(row: OfferRow) {
    Named(row) && row.upt == Some(0)
  }

  lemma EmptyCatalogueCorner(row: OfferRow)
    ensures ZeroTrayOnCreation([], row) <==> CreatedWithZero(row)
  {
  }

  /** Into an empty catalogue any batch with different names and keys can be imported again: the
      second time every row updates the product that its first import created. */
  lemma {:induction false} EmptyCatalogueReimport(
    db: Db, rows: seq<OfferRow>, actor: string, source: string, finalise: bool, settings: Settings)
    requires Valid(db) && db.products == [] && DistinctKeys(rows) && DistinctNames(rows)
    ensures var db1 := Import(db, rows, actor, source, finalise, settings).0;
      var (db2, rep2) := Import(db1, rows, actor, source, finalise, settings);
      && rep2.productsCreated == 0 && rep2.productsUpdated == ImportEffects.NamedCount(rows)
      && (db2.products == db1.products <==> forall i | 0 <= i < |rows| :: !CreatedWithZero(rows[i]))
  {
    EmptyCatalogueIsRepeatable(rows);
    ReimportIsIdempotent(db, rows, actor, source, finalise, settings);
    forall i | 0 <= i < |rows| ensures ZeroTrayOnCreation([], rows[i]) <==> CreatedWithZero(rows[i]) {
      EmptyCatalogueCorner(rows[i]);
    }
  }

  // ---- The corner ----

  lemma CreatedIsFound(ps: seq<Product>, next: nat, row: OfferRow, selling: Option<real>, retail: Option<real>)
    requires Lookup(ps, row) == |ps|
    ensures Lookup(Upserted(ps, next, row, selling, retail), row) == |ps|
  {
    var ps1 := Upserted(ps, next, row, selling, retail);
    if RowEan(row).Some? {
      NoEanMeansByEanEnd(ps1, RowEan(row).value, |ps|);
    } else {
      NoNameMeansByNameEnd(ps1, Strip(row.name), |ps|);
    }
  }

  lemma ImportOfOne(db: Db, row: OfferRow, actor: string, source: string, finalise: bool, settings: Settings)
    returns (selling: Option<real>, retail: Option<real>)
    requires Named(row)
    ensures Import(db, [row], actor, source, finalise, settings).0.products
      == Upserted(db.products, db.nextProduct, row, selling, retail)
  {
    assert [row][..0] == [];
    var s, batch := Opened(db, source, actor, finalise), BatchOf(db, actor, finalise);
    assert RealRows(s, [row], settings, batch) == RealRow(s, row, settings, batch);
    RowWritesUpserted(s, row, settings, batch);
    var r := RowPrices(row, SeenAt(db.products, Lookup(db.products, row)), settings);
    selling, retail := SellingOf(r), RetailOf(r);
  }

  /** An edited row with 0 units per tray creates the product with 1, and the next import writes 0. */
  lemma ZeroTrayIsRewritten(db: Db, row: OfferRow, actor: string, source: string, finalise: bool, settings: Settings)
    requires ZeroTrayOnCreation(db.products, row)
    ensures var db1 := Import(db, [row], actor, source, finalise, settings).0;
      var db2 := Import(db1, [row], actor, source, finalise, settings).0;
      && |db1.products| == |db2.products| == |db.products| + 1
      && db1.products[|db.products|].unitsPerTray == 1 && db2.products[|db.products|].unitsPerTray == 0
  {
    var db1 := Import(db, [row], actor, source, finalise, settings).0;
    var selling, retail := ImportOfOne(db, row, actor, source, finalise, settings);
    CreatedIsFound(db.products, db.nextProduct, row, selling, retail);
    var selling', retail' := ImportOfOne(db1, row, actor, source, finalise, settings);
  }
}
