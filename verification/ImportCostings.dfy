/** Which product an import writes, and which costing it saves, for which row. */
module ImportCostings {
  import opened Common
  import opened Calc
  import opened CostingTables
  import opened OfferRows
  import opened OfferImport
  import opened BatchTracking
  import opened ImportVersions
  import opened RowLaws
  import opened StoreLaws

  /** How the row's product is priced, when the row comes to it. */
  function SeenBy(ps: seq<Product>, row: OfferRow): Seen {
    var k := Lookup(ps, row);
    if k == |ps| then Absent else if ps[k].origin == Auto then AutoPriced else HumanPriced(ps[k].selling, ps[k].retail)
  }

  /** A costing of this row, saved over these tables: the next version of the product that the row's key finds, or of
      a new one; with the row's inputs, the admin's prices of that product or the target prices, and the figures at
      those prices. */
  predicate CostingOf(c: Costing, row: OfferRow, before: Db, settings: Settings) {
    var inputs, seen, d := BuildInputs(row, settings).0, SeenBy(before.products, row), settings.defaults;
    && inputs.Some?
    && c.id == before.nextCosting
    && c.productId == WrittenId(before.products, before.nextProduct, row)
    && c.version == MaxVersion(before.costings, c.productId) + 1
    && c.inputs == inputs.value.(sellingPrice := c.inputs.sellingPrice, retailPrice := c.inputs.retailPrice)
    && SoldAt(c.inputs.sellingPrice, seen, settings.compute(inputs.value).totalDirectCost, d.ourTargetMargin)
    && RetailedAt(c.inputs.retailPrice, seen, c.inputs.sellingPrice, d.customerTargetMargin, d.vatRate)
    && c.results == settings.compute(c.inputs)
  }

  /** A named row is written onto the product its key finds, or onto a new one, with the prices of its report line. */
  lemma RowWritesItsProduct(s: RunState, row: OfferRow, settings: Settings, batch: Batch)
    requires Named(row)
    ensures var s', k, n := RealRow(s, row, settings, batch), Lookup(s.db.products, row), |s.db.products|;
      var lines := s'.report.rows;
      && |lines| == |s.report.rows| + 1 && s.report.rows <= lines
      && k < |s'.db.products| == (if k < n then n else n + 1)
      && ImportedOnto(s'.db.products[k], if k < n then Some(s.db.products[k]) else None, row.name, RowEan(row), row.upt,
                      lines[|lines| - 1].sellingPrice, lines[|lines| - 1].retailPrice)
      && (forall i | 0 <= i < n && i != k :: s'.db.products[i] == s.db.products[i])
  {
    var r := RealResult(s, row, settings);
    LineShowsRowAndCosting(row, s.eans, SeenAt(s.db.products, Lookup(s.db.products, row)), settings);
    UpsertWritesTheRow(s.db, row.name, RowEan(row), row.upt, SellingOf(r), RetailOf(r));
  }

  /** A previewed row is remembered under its EAN or its name, with the prices of its line; or, when it is not costed,
      with those of an admin. */
  lemma PreviewedRowIsRemembered(ps: seq<Product>, s: DryState, row: OfferRow, settings: Settings)
    requires Named(row)
    ensures var s' := DryRow(ps, s, row, settings);
      var key, line := if RowEan(row).Some? then row.ean.value else Strip(row.name), s'.report.rows[|s.report.rows|];
      && |s'.report.rows| == |s.report.rows| + 1 && s.report.rows <= s'.report.rows
      && key in s'.drySeen && s'.drySeen == s.drySeen[key := s'.drySeen[key]]
      && (line.status == CostedRow ==> s'.drySeen[key] == Simulated(line.sellingPrice, line.retailPrice))
      && (line.status != CostedRow ==>
            var seen := if key in s.drySeen then AutoPriced else SeenBy(ps, row);
            s'.drySeen[key] ==
              if seen.HumanPriced? then Simulated(seen.selling, seen.retail) else Simulated(None, None))
  {
    LineShowsRowAndCosting(row, s.eans, DrySeenAs(ps, s, row), settings);
  }

  lemma RowIsCosted(s: RunState, row: OfferRow, settings: Settings, batch: Batch)
    requires CostableRow(row, settings)
    ensures var cs := RealRow(s, row, settings, batch).db.costings;
      |cs| == |s.db.costings| + 1 && s.db.costings <= cs && CostingOf(cs[|s.db.costings|], row, s.db, settings)
  {
    var seen := SeenBy(s.db.products, row);
    StripIdempotent(row.name);
    CostedWithItsInputs(row, s.eans, seen, settings);
    RowIsPriced(BuildInputs(row, settings).0.value, seen, settings);
  }

  lemma OtherRowsSaveNothing(s: RunState, row: OfferRow, settings: Settings, batch: Batch)
    requires !CostableRow(row, settings)
    ensures RealRow(s, row, settings, batch).db.costings == s.db.costings
  {
    if Named(row) {
      CostedWithItsInputs(row, s.eans, SeenBy(s.db.products, row), settings);
    }
  }

  /** One costing per costable row of any prefix, in the order of the rows. */
  lemma {:induction false} OneCostingPerCostableRow(s: RunState, rows: seq<OfferRow>, i: nat, settings: Settings,
                                                    batch: Batch)
    requires i <= |rows|
    ensures |RealRows(s, rows[..i], settings, batch).db.costings|
      == |s.db.costings| + |Costable(rows[..i], settings)|
  {
    if i > 0 {
      var n := i - 1;
      OneCostingPerCostableRow(s, rows, n, settings, batch);
      CostableStep(rows, n, settings);
      assert rows[..i][..n] == rows[..n];
      if CostableRow(rows[n], settings) {
        RowIsCosted(RealRows(s, rows[..n], settings, batch), rows[n], settings, batch);
      } else {
        OtherRowsSaveNothing(RealRows(s, rows[..n], settings, batch), rows[n], settings, batch);
      }
    }
  }

  lemma RowKeepsCostings(s: RunState, row: OfferRow, settings: Settings, batch: Batch)
    ensures s.db.costings <= RealRow(s, row, settings, batch).db.costings
  {
    if CostableRow(row, settings) {
      RowIsCosted(s, row, settings, batch);
    } else {
      OtherRowsSaveNothing(s, row, settings, batch);
    }
  }

  lemma StepKeepsCostings(s: RunState, rows: seq<OfferRow>, n: nat, settings: Settings, batch: Batch)
    requires n < |rows|
    ensures RealRows(s, rows[..n], settings, batch).db.costings
      <= RealRows(s, rows[..n + 1], settings, batch).db.costings
  {
    assert rows[..n + 1][..n] == rows[..n];
    RowKeepsCostings(RealRows(s, rows[..n], settings, batch), rows[n], settings, batch);
  }

  function CostingsAfter(s: RunState, rows: seq<OfferRow>, i: nat, settings: Settings, batch: Batch): seq<Costing>
    requires i <= |rows|
  {
    RealRows(s, rows[..i], settings, batch).db.costings
  }

  lemma {:induction false} EarlierCostingsStay(s: RunState, rows: seq<OfferRow>, j: nat, i: nat, settings: Settings,
                                               batch: Batch)
    requires j <= i <= |rows|
    ensures CostingsAfter(s, rows, j, settings, batch) <= CostingsAfter(s, rows, i, settings, batch)
    decreases i - j
  {
    if j < i {
      StepKeepsCostings(s, rows, j, settings, batch);
      EarlierCostingsStay(s, rows, j + 1, i, settings, batch);
      PrefixOfPrefix(CostingsAfter(s, rows, j, settings, batch), CostingsAfter(s, rows, j + 1, settings, batch),
                     CostingsAfter(s, rows, i, settings, batch));
    }
  }

  lemma PrefixOfPrefix<T>(a: seq<T>, b: seq<T>, c: seq<T>)
    requires a <= b <= c
    ensures a <= c
  {
  }

  lemma RowsCosting(s: RunState, rows: seq<OfferRow>, j: nat, settings: Settings, batch: Batch)
    requires j < |rows| && CostableRow(rows[j], settings)
    ensures var before := RealRows(s, rows[..j], settings, batch).db;
      var cs := RealRows(s, rows, settings, batch).db.costings;
      |before.costings| < |cs| && CostingOf(cs[|before.costings|], rows[j], before, settings)
  {
    assert rows[..j + 1][..j] == rows[..j] && rows[..|rows|] == rows;
    RowIsCosted(RealRows(s, rows[..j], settings, batch), rows[j], settings, batch);
    EarlierCostingsStay(s, rows, j + 1, |rows|, settings, batch);
  }

  /** Row j saves costing x of the import: that of its own inputs, over the tables as an import of the rows before it
      alone would leave them. */
  ghost predicate SavedFor(db: Db, rows: seq<OfferRow>, j: nat, x: nat, actor: string, source: string, finalise: bool,
                           settings: Settings)
  {
    var after := Import(db, rows, actor, source, finalise, settings).0;
    && j < |rows| && x < |after.costings| && Named(rows[j])
    && x == |db.costings| + |Costable(rows[..j], settings)|
    && CostingOf(after.costings[x], rows[j], Import(db, rows[..j], actor, source, finalise, settings).0, settings)
  }

  lemma ClosingKeepsTheRows(s: RunState, id: nat, rowCount: nat, c: Costing, row: OfferRow, settings: Settings)
    requires CostingOf(c, row, s.db, settings)
    ensures CostingOf(c, row, CloseBatch(s, id, rowCount), settings)
  {
  }

  lemma ClosedRowsCosting(s: RunState, rows: seq<OfferRow>, j: nat, id: nat, settings: Settings, batch: Batch)
    returns (c: Costing)
    requires j < |rows| && CostableRow(rows[j], settings)
    ensures var x := |s.db.costings| + |Costable(rows[..j], settings)|;
      var cs := RealRows(s, rows, settings, batch).db.costings;
      x < |cs| && c == cs[x]
    ensures CostingOf(c, rows[j], CloseBatch(RealRows(s, rows[..j], settings, batch), id, j), settings)
  {
    var before := RealRows(s, rows[..j], settings, batch);
    RowsCosting(s, rows, j, settings, batch);
    c := RealRows(s, rows, settings, batch).db.costings[|before.db.costings|];
    ClosingKeepsTheRows(before, id, j, c, rows[j], settings);
    OneCostingPerCostableRow(s, rows, j, settings, batch);
  }

  lemma CostableRowIsSaved(db: Db, rows: seq<OfferRow>, j: nat, x: nat, actor: string, source: string,
                           finalise: bool, settings: Settings)
    requires j < |rows| && CostableRow(rows[j], settings) && x == |db.costings| + |Costable(rows[..j], settings)|
    ensures SavedFor(db, rows, j, x, actor, source, finalise, settings)
  {
    var _ := ClosedRowsCosting(Opened(db, source, actor, finalise), rows, j, db.nextOffer, settings,
                               BatchOf(db, actor, finalise));
  }

  /** The x-th costable row has x costable rows before it. */
  lemma {:induction false} CostableBefore(rows: seq<OfferRow>, i: nat, x: nat, settings: Settings)
    requires i <= |rows| && x < |Costable(rows[..i], settings)|
    ensures var j := Costable(rows[..i], settings)[x];
      j < i && CostableRow(rows[j], settings) && |Costable(rows[..j], settings)| == x
  {
    var n := i - 1;
    CostableStep(rows, n, settings);
    if x < |Costable(rows[..n], settings)| {
      CostableBefore(rows, n, x, settings);
    }
  }

  lemma ImportAddsOneCostingPerCostableRow(db: Db, rows: seq<OfferRow>, actor: string, source: string,
                                           finalise: bool, settings: Settings)
    ensures |Import(db, rows, actor, source, finalise, settings).0.costings|
      == |db.costings| + |Costable(rows, settings)|
  {
    assert rows[..|rows|] == rows;
    OneCostingPerCostableRow(Opened(db, source, actor, finalise), rows, |rows|, settings, BatchOf(db, actor, finalise));
  }

  lemma RowOfCosting(rows: seq<OfferRow>, x: nat, settings: Settings)
    requires x < |Costable(rows, settings)|
    ensures var j := Costable(rows, settings)[x];
      j < |rows| && CostableRow(rows[j], settings) && |Costable(rows[..j], settings)| == x
  {
    assert rows[..|rows|] == rows;
    CostableBefore(rows, |rows|, x, settings);
  }

  /** MAIN RESULT. For every batch over every database, each costing that an import adds is that of a row, and row by
      row there is one for each costable row. */
  lemma AddedCostingIsOfItsRow(db: Db, rows: seq<OfferRow>, x: nat, actor: string, source: string, finalise: bool,
                               settings: Settings)
    requires |db.costings| <= x < |Import(db, rows, actor, source, finalise, settings).0.costings|
    ensures exists j: nat :: SavedFor(db, rows, j, x, actor, source, finalise, settings)
  {
    ImportAddsOneCostingPerCostableRow(db, rows, actor, source, finalise, settings);
    RowOfCosting(rows, x - |db.costings|, settings);
    CostableRowIsSaved(db, rows, Costable(rows, settings)[x - |db.costings|], x, actor, source, finalise, settings);
  }
}
