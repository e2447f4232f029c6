/** The costing versions one batch adds: one per costable row, each the next of its product. */
module ImportVersions {
  import opened Common
  import opened CostingTables
  import opened OfferRows
  import opened OfferImport
  import opened BatchTracking
  import opened RowLaws

  // ---- Batches in which no two rows share a key ----

  predicate DistinctKeys(rows: seq<OfferRow>) {
    forall i | 0 <= i < |rows| && Named(rows[i]) :: FirstOfKey(rows, i)
  }

  lemma SameKeySameRow(rows: seq<OfferRow>, i: nat, j: nat)
    requires i < |rows| && j < |rows| && FirstOfKey(rows, i) && FirstOfKey(rows, j)
    requires RowKey(rows[i]) == RowKey(rows[j])
    ensures i == j
  {
  }

  /** With distinct keys a product is touched by one row at most. */
  lemma TouchedOnce(ps0: seq<Product>, rows: seq<OfferRow>, i: nat, ps: seq<Product>, t: seq<Touch>, own: seq<nat>,
                    k: nat)
    requires Tracked(ps0, rows, i, ps, t, own) && DistinctKeys(rows)
    requires k < |ps|
    ensures t[k].Touched? ==>
      && t[k].first == t[k].last < i && own[t[k].first] == k && FirstOfKey(rows, t[k].first)
      && Lookup(ps0, rows[t[k].first]) == (if k < |ps0| then k else |ps0|)
      && ps[k].name == Strip(rows[t[k].first].name)
      && (RowEan(rows[t[k].first]).Some? ==> ps[k].ean == RowEan(rows[t[k].first]))
    ensures t[k].Untouched? ==> k < |ps0| && ps[k] == ps0[k]
    ensures k < |ps0| ==> ps[k].id == ps0[k].id
  {
    assert TouchOk(ps0, rows, i, ps[k], k, t[k]);
    if t[k].Touched? {
        SameKeySameRow(rows, t[k].first, t[k].last);
    }
  }

  lemma OwnedOnce(ps0: seq<Product>, rows: seq<OfferRow>, i: nat, ps: seq<Product>, t: seq<Touch>, own: seq<nat>,
                  j: nat)
    requires Tracked(ps0, rows, i, ps, t, own) && DistinctKeys(rows)
    requires j < i && Named(rows[j])
    ensures own[j] < |ps| && t[own[j]] == Touched(j, j)
  {
    assert Owns(rows, j, t, own[j]);
    TouchedOnce(ps0, rows, i, ps, t, own, own[j]);
    SameKeySameRow(rows, t[own[j]].first, j);
  }

  // ---- Costable rows ----

  predicate CostableRow(row: OfferRow, settings: Settings) {
    Named(row) && BuildInputs(row, settings).0.Some?
  }

  /** Positions of the rows that get a costing. */
  function Costable(rows: seq<OfferRow>, settings: Settings): seq<nat> {
    if rows == [] then []
    else
      var n := |rows| - 1;
      if CostableRow(rows[n], settings) then Costable(rows[..n], settings) + [n] else Costable(rows[..n], settings)
  }

  lemma CostableStep(rows: seq<OfferRow>, i: nat, settings: Settings)
    requires i < |rows|
    ensures Costable(rows[..i + 1], settings)
      == if CostableRow(rows[i], settings) then Costable(rows[..i], settings) + [i] else Costable(rows[..i], settings)
  {
    assert rows[..i + 1][..i] == rows[..i];
  }

  predicate NamedPositions(idx: seq<nat>, rows: seq<OfferRow>, i: nat)
    requires i <= |rows|
  {
    && (forall x | 0 <= x < |idx| :: idx[x] < i && Named(rows[idx[x]]))
    && (forall x, y | 0 <= x < y < |idx| :: idx[x] < idx[y])
  }

  lemma {:induction false} CostableInRange(rows: seq<OfferRow>, i: nat, settings: Settings)
    requires i <= |rows|
    ensures NamedPositions(Costable(rows[..i], settings), rows, i)
  {
    if i > 0 {
      CostableInRange(rows, i - 1, settings);
      CostableStep(rows, i - 1, settings);
      PositionsGrow(Costable(rows[..i - 1], settings), rows, i - 1);
    }
  }

  lemma PositionsGrow(idx: seq<nat>, rows: seq<OfferRow>, i: nat)
    requires i < |rows| && NamedPositions(idx, rows, i)
    ensures NamedPositions(idx, rows, i + 1)
    ensures Named(rows[i]) ==> NamedPositions(idx + [i], rows, i + 1)
  {
  }

  lemma CostedIffCostable(row: OfferRow, eans: set<string>, seen: Seen, settings: Settings)
    requires Named(row)
    ensures HandleRow(row, eans, seen, settings).costed.Some? <==> CostableRow(row, settings)
  {
  }

  /** A report line copies its row, keeps its warnings, and says whether it was skipped, costed or needs attention;
      it shows prices and profits only when costed, and a skipped one nothing more. */
  predicate LineFor(line: RowReport, row: OfferRow, settings: Settings) {
    && line.rowNumber == row.rowNumber && line.name == row.name && line.ean == row.ean && line.upt == row.upt
    && line.materialCost == row.materialCost && line.perPalletRaw == row.perPalletRaw
    && row.warnings <= line.warnings
    && (line.status == Skipped ==> line.warnings == row.warnings && line.productAction == None)
    && (line.status != CostedRow ==>
          line.boxCode == None && line.totalDirectCost == None && line.sellingPrice == None
          && line.retailPrice == None && line.ourGp == None && line.customerGpPct == None)
    && (line.status == Skipped <==> row.name == "")
    && (line.status == CostedRow <==> CostableRow(row, settings))
  }

  lemma RowIsReported(s: RunState, row: OfferRow, settings: Settings, batch: Batch)
    ensures var lines := RealRow(s, row, settings, batch).report.rows;
      |lines| == |s.report.rows| + 1 && s.report.rows <= lines && LineFor(lines[|lines| - 1], row, settings)
  {
    if Named(row) {
      var seen := SeenAt(s.db.products, Lookup(s.db.products, row));
      CostedIffCostable(row, s.eans, seen, settings);
      LineShowsRowAndCosting(row, s.eans, seen, settings);
      LineWarnsWithReason(row, s.eans, seen, settings, "");
    }
  }

  /** One line per row, in the order of the rows. */
  predicate LinesFor(lines: seq<RowReport>, rows: seq<OfferRow>, settings: Settings) {
    |lines| == |rows| && forall i | 0 <= i < |rows| :: LineFor(lines[i], rows[i], settings)
  }

  lemma OneMoreLine(lines: seq<RowReport>, more: seq<RowReport>, rows: seq<OfferRow>, settings: Settings)
    requires rows != [] && LinesFor(lines, rows[..|rows| - 1], settings)
    requires |more| == |lines| + 1 && lines <= more && LineFor(more[|lines|], rows[|rows| - 1], settings)
    ensures LinesFor(more, rows, settings)
  {
    forall i | 0 <= i < |rows| - 1 ensures LineFor(more[i], rows[i], settings) {
      assert more[i] == lines[i] && rows[..|rows| - 1][i] == rows[i];
    }
  }

  lemma {:induction false} EveryRowIsReported(s: RunState, rows: seq<OfferRow>, settings: Settings, batch: Batch)
    requires s.report.rows == []
    ensures LinesFor(RealRows(s, rows, settings, batch).report.rows, rows, settings)
  {
    if rows != [] {
      var n := |rows| - 1;
      EveryRowIsReported(s, rows[..n], settings, batch);
      var before := RealRows(s, rows[..n], settings, batch);
      RowIsReported(before, rows[n], settings, batch);
      OneMoreLine(before.report.rows, RealRow(before, rows[n], settings, batch).report.rows, rows, settings);
    }
  }

  // ---- Versions ----

  lemma {:induction false} MaxVersionOfOthers(cs: seq<Costing>, ds: seq<Costing>, productId: nat)
    requires forall x | 0 <= x < |ds| :: ds[x].productId != productId
    ensures MaxVersion(cs + ds, productId) == MaxVersion(cs, productId)
  {
    if ds == [] {
      assert cs + ds == cs;
    } else {
      assert (cs + ds)[..|cs + ds| - 1] == cs + ds[..|ds| - 1];
      MaxVersionOfOthers(cs, ds[..|ds| - 1], productId);
    }
  }

  /** A costing is the next version of a product, after the versions in `base`. */
  predicate NextIn(base: seq<Costing>, c: Costing, id: nat) {
    c.productId == id && c.version == MaxVersion(base, id) + 1
  }

  /** Costing `x` of those added is the next version of the product that row `idx[x]` owns. */
  predicate VersionsAdded(base: seq<Costing>, cs: seq<Costing>, ps: seq<Product>, idx: seq<nat>, own: seq<nat>) {
    && |cs| == |base| + |idx| && base <= cs
    && (forall x | 0 <= x < |idx| :: idx[x] < |own| && own[idx[x]] < |ps|)
    && (forall x | 0 <= x < |idx| :: NextIn(base, cs[|base| + x], ps[own[idx[x]]].id))
  }

  /** A product no earlier row owns still has the versions it had. */
  lemma NextVersionIsFresh(base: seq<Costing>, cs: seq<Costing>, ps: seq<Product>, idx: seq<nat>, own: seq<nat>,
                           id: nat)
    requires VersionsAdded(base, cs, ps, idx, own)
    requires forall x | 0 <= x < |idx| :: ps[own[idx[x]]].id != id
    ensures MaxVersion(cs, id) == MaxVersion(base, id)
  {
    var added := cs[|base|..];
    assert cs == base + added;
    forall x | 0 <= x < |added| ensures added[x].productId != id {
      assert NextIn(base, cs[|base| + x], ps[own[idx[x]]].id);
    }
    MaxVersionOfOthers(base, added, id);
  }

  /** The versions added so far stay as they are when another row is written. */
  lemma VersionsLast(base: seq<Costing>, cs: seq<Costing>, ps: seq<Product>, ps': seq<Product>, idx: seq<nat>,
                     own: seq<nat>, k: nat)
    requires VersionsAdded(base, cs, ps, idx, own)
    requires |ps| <= |ps'| && forall m | 0 <= m < |ps| :: ps[m].id == ps'[m].id
    ensures VersionsAdded(base, cs, ps', idx, own + [k])
  {
    forall x | 0 <= x < |idx| ensures NextIn(base, cs[|base| + x], ps'[(own + [k])[idx[x]]].id) {
      assert NextIn(base, cs[|base| + x], ps[own[idx[x]]].id);
    }
  }

  lemma VersionsGrow(base: seq<Costing>, cs: seq<Costing>, c: Costing, ps: seq<Product>, idx: seq<nat>,
                     own: seq<nat>, j: nat)
    requires VersionsAdded(base, cs, ps, idx, own)
    requires j < |own| && own[j] < |ps|
    requires NextIn(base, c, ps[own[j]].id)
    ensures VersionsAdded(base, cs + [c], ps, idx + [j], own)
  {
    forall x | 0 <= x < |idx| + 1 ensures NextIn(base, (cs + [c])[|base| + x], ps[own[(idx + [j])[x]]].id) {
      if x < |idx| {
        assert NextIn(base, cs[|base| + x], ps[own[idx[x]]].id);
      }
    }
  }

  /** The id of the product a row is written to. */
  function WrittenId(ps: seq<Product>, next: nat, row: OfferRow): nat {
    var k := Lookup(ps, row);
    if k < |ps| then ps[k].id else next
  }

  /** A costable row saves one costing, of the product it found or created. */
  lemma RowSavesACosting(s: RunState, row: OfferRow, settings: Settings, batch: Batch)
    requires Named(row)
    ensures var cs, id := RealRow(s, row, settings, batch).db.costings, WrittenId(s.db.products, s.db.nextProduct, row);
      if CostableRow(row, settings) then
        |cs| == |s.db.costings| + 1 && cs == s.db.costings + [cs[|s.db.costings|]]
        && NextIn(s.db.costings, cs[|s.db.costings|], id)
      else cs == s.db.costings
  {
    StripIdempotent(row.name);
    CostedIffCostable(row, s.eans, SeenAt(s.db.products, Lookup(s.db.products, row)), settings);
  }

  lemma UpsertedIds(ps: seq<Product>, next: nat, row: OfferRow, selling: Option<real>, retail: Option<real>)
    ensures var k, ps' := Lookup(ps, row), Upserted(ps, next, row, selling, retail);
      && k < |ps'| && ps'[k].id == WrittenId(ps, next, row)
      && |ps| <= |ps'| && forall m | 0 <= m < |ps| :: ps[m].id == ps'[m].id
  {
  }

  lemma WriteAddsItsVersion(base: seq<Costing>, s: RunState, row: OfferRow, settings: Settings, batch: Batch,
                            idx: seq<nat>, own: seq<nat>)
    requires Named(row)
    requires VersionsAdded(base, s.db.costings, s.db.products, idx, own)
    requires forall x | 0 <= x < |idx| ::
      s.db.products[own[idx[x]]].id != WrittenId(s.db.products, s.db.nextProduct, row)
    ensures var s' := RealRow(s, row, settings, batch);
      VersionsAdded(base, s'.db.costings, s'.db.products,
                    if CostableRow(row, settings) then idx + [|own|] else idx, own + [Lookup(s.db.products, row)])
  {
    var k, ps, cs, s' := Lookup(s.db.products, row), s.db.products, s.db.costings, RealRow(s, row, settings, batch);
    var ps', id := s'.db.products, WrittenId(ps, s.db.nextProduct, row);
    RowWritesUpserted(s, row, settings, batch);
    var r := RowPrices(row, SeenAt(ps, k), settings);
    UpsertedIds(ps, s.db.nextProduct, row, SellingOf(r), RetailOf(r));
    RowSavesACosting(s, row, settings, batch);
    VersionsLast(base, cs, ps, ps', idx, own, k);
    if CostableRow(row, settings) {
      NextVersionIsFresh(base, cs, ps, idx, own, id);
      VersionsGrow(base, cs, s'.db.costings[|cs|], ps', idx, own + [k], |own|);
    }
  }

  lemma OtherRowsOwnOtherProducts(ps0: seq<Product>, rows: seq<OfferRow>, i: nat, ps: seq<Product>, t: seq<Touch>,
                                  own: seq<nat>, next: nat, j: nat)
    requires Tracked(ps0, rows, i, ps, t, own) && ProductsOk(ps, next)
    requires i < |rows| && Named(rows[i])
    requires DistinctKeys(rows) && NamesApart(ps0, rows) && DistinctMatches(ps0, rows)
    requires j < i && Named(rows[j])
    ensures own[j] < |ps| && ps[own[j]].id != WrittenId(ps, next, rows[i])
  {
    FirstRowFindsTheSame(ps0, rows, i, ps, t, own);
    OwnedOnce(ps0, rows, i, ps, t, own, j);
  }

  lemma RowAddsItsVersion(ps0: seq<Product>, base: seq<Costing>, s: RunState, rows: seq<OfferRow>, i: nat,
                          t: seq<Touch>, own: seq<nat>, settings: Settings, batch: Batch)
    requires ProductsOk(s.db.products, s.db.nextProduct) && i < |rows| && Named(rows[i])
    requires DistinctKeys(rows) && NamesApart(ps0, rows) && DistinctMatches(ps0, rows)
    requires Tracked(ps0, rows, i, s.db.products, t, own)
    requires VersionsAdded(base, s.db.costings, s.db.products, Costable(rows[..i], settings), own)
    ensures var s' := RealRow(s, rows[i], settings, batch);
      VersionsAdded(base, s'.db.costings, s'.db.products, Costable(rows[..i + 1], settings),
                    own + [Lookup(s.db.products, rows[i])])
  {
    var idx := Costable(rows[..i], settings);
    CostableInRange(rows, i, settings);
    WritesToAnotherProduct(ps0, s.db.products, rows, i, t, own, s.db.nextProduct, idx);
    WriteAddsItsVersion(base, s, rows[i], settings, batch, idx, own);
    CostableStep(rows, i, settings);
    assert |own| == i;
  }

  lemma WritesToAnotherProduct(ps0: seq<Product>, ps: seq<Product>, rows: seq<OfferRow>, i: nat, t: seq<Touch>,
                               own: seq<nat>, next: nat, idx: seq<nat>)
    requires ProductsOk(ps, next) && i < |rows| && Named(rows[i])
    requires DistinctKeys(rows) && NamesApart(ps0, rows) && DistinctMatches(ps0, rows)
    requires Tracked(ps0, rows, i, ps, t, own) && NamedPositions(idx, rows, i)
    ensures forall x | 0 <= x < |idx| :: own[idx[x]] < |ps| && ps[own[idx[x]]].id != WrittenId(ps, next, rows[i])
  {
    forall x | 0 <= x < |idx| ensures own[idx[x]] < |ps| && ps[own[idx[x]]].id != WrittenId(ps, next, rows[i]) {
      OtherRowsOwnOtherProducts(ps0, rows, i, ps, t, own, next, idx[x]);
    }
  }

  lemma StepVersions(ps0: seq<Product>, base: seq<Costing>, s: RunState, rows: seq<OfferRow>, i: nat, t: seq<Touch>,
                     own: seq<nat>, settings: Settings, batch: Batch)
    requires ProductsOk(s.db.products, s.db.nextProduct) && i < |rows|
    requires DistinctKeys(rows) && NamesApart(ps0, rows) && DistinctMatches(ps0, rows)
    requires Tracked(ps0, rows, i, s.db.products, t, own)
    requires VersionsAdded(base, s.db.costings, s.db.products, Costable(rows[..i], settings), own)
    ensures var s' := RealRow(s, rows[i], settings, batch);
      VersionsAdded(base, s'.db.costings, s'.db.products, Costable(rows[..i + 1], settings),
                    NextOwners(s.db.products, rows[i], own))
  {
    if Named(rows[i]) {
      RowAddsItsVersion(ps0, base, s, rows, i, t, own, settings, batch);
    } else {
      CostableStep(rows, i, settings);
      VersionsLast(base, s.db.costings, s.db.products, s.db.products, Costable(rows[..i], settings), own, 0);
    }
  }

  lemma VersionsOfOneMoreRow(s: RunState, rows: seq<OfferRow>, n: nat, settings: Settings, batch: Batch)
    requires Valid(s.db) && HasOffer(s.db.offers, batch.id)
    requires n < |rows| && DistinctKeys(rows) && NamesApart(s.db.products, rows) && DistinctMatches(s.db.products, rows)
    requires VersionsAdded(s.db.costings, RealRows(s, rows[..n], settings, batch).db.costings,
                           RealRows(s, rows[..n], settings, batch).db.products, Costable(rows[..n], settings),
                           Owners(s, rows[..n], settings, batch))
    ensures var s1 := RealRows(s, rows[..n], settings, batch);
      var s' := RealRow(s1, rows[n], settings, batch);
      VersionsAdded(s.db.costings, s'.db.costings, s'.db.products, Costable(rows[..n + 1], settings),
                    NextOwners(s1.db.products, rows[n], Owners(s, rows[..n], settings, batch)))
  {
    TrackBatch(s, rows, n, settings, batch);
    RealRowsKeepValid(s, rows[..n], settings, batch);
    StepVersions(s.db.products, s.db.costings, RealRows(s, rows[..n], settings, batch), rows, n,
                 Touches(s, rows[..n], settings, batch), Owners(s, rows[..n], settings, batch), settings, batch);
  }

  /** After any prefix of a batch, exactly one version was added per costable row of the prefix. */
  lemma {:induction false} TrackVersions(s: RunState, rows: seq<OfferRow>, i: nat, settings: Settings, batch: Batch)
    requires Valid(s.db) && HasOffer(s.db.offers, batch.id)
    requires i <= |rows| && DistinctKeys(rows) && NamesApart(s.db.products, rows)
    requires DistinctMatches(s.db.products, rows)
    ensures var s' := RealRows(s, rows[..i], settings, batch);
      VersionsAdded(s.db.costings, s'.db.costings, s'.db.products, Costable(rows[..i], settings),
                    Owners(s, rows[..i], settings, batch))
  {
    if i > 0 {
      var n := i - 1;
      TrackVersions(s, rows, n, settings, batch);
      VersionsOfOneMoreRow(s, rows, n, settings, batch);
      OneMoreRow(s, rows, n, settings, batch);
    }
  }
}
