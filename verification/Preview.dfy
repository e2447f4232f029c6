/** The preview promises what the confirmed import does: `dry_run=True` reports the same rows and counts.
    The code keeps this promise when the two runs look rows up alike, up to prices that `dry_seen` forgets. */
module Preview {
  import opened Common
  import opened Calc
  import opened CostingTables
  import opened OfferRows
  import opened OfferImport
  import opened BatchTracking
  import ImportEffects

  /** No row without a valid EAN is named like the valid EAN of another row: `dry_seen` keeps
      names and EANs in one key space. */
  predicate KeysDoNotClash(rows: seq<OfferRow>) {
    forall i, j | 0 <= i < |rows| && 0 <= j < |rows| && Named(rows[i]) && Named(rows[j])
      && RowEan(rows[i]).Some? && RowEan(rows[j]).None? :: RowEan(rows[i]).value != Strip(rows[j].name)
  }

  /** The batch as a whole is looked up alike in both runs. */
  predicate Separate(ps: seq<Product>, rows: seq<OfferRow>) {
    NamesApart(ps, rows) && KeysDoNotClash(rows) && DistinctMatches(ps, rows)
  }

  /** The first row with the key of row `i`. */
  function FirstOf(rows: seq<OfferRow>, i: nat): (f: nat)
    requires i < |rows| && Named(rows[i])
    ensures f <= i && FirstOfKey(rows, f) && RowKey(rows[f]) == RowKey(rows[i])
  {
    FirstWithKey(rows, i, 0)
  }

  function FirstWithKey(rows: seq<OfferRow>, i: nat, start: nat): (f: nat)
    requires start <= i < |rows| && Named(rows[i])
    requires forall j | 0 <= j < start && Named(rows[j]) :: RowKey(rows[j]) != RowKey(rows[i])
    ensures f <= i && FirstOfKey(rows, f) && RowKey(rows[f]) == RowKey(rows[i])
    decreases i - start
  {
    if Named(rows[start]) && RowKey(rows[start]) == RowKey(rows[i]) then start else FirstWithKey(rows, i, start + 1)
  }

  /** The product that the key of row `i` matches before the batch. */
  function SeenBefore(ps: seq<Product>, rows: seq<OfferRow>, i: nat): Seen
    requires i < |rows| && Named(rows[i])
  {
    SeenAt(ps, Lookup(ps, rows[FirstOf(rows, i)]))
  }

  /** The row cannot be costed, or each price an admin stored is what the target margins give. */
  predicate PricedAlike(row: OfferRow, seen: Seen, settings: Settings) {
    var inputs := BuildInputs(row, settings).0;
    inputs.None? ||
    var selling := ChooseSelling(AutoPriced, settings.compute(inputs.value).totalDirectCost, settings.defaults);
    && (StoredSelling(seen).None? || StoredSelling(seen) == selling)
    && (StoredRetail(seen).None? || StoredRetail(seen) == ChooseRetail(AutoPriced, selling, settings.defaults))
  }

  /** `dry_seen` does not know that an earlier row's product is admin-priced: the previewed line of a row is
      right unless its key was used before, for an admin-priced product whose prices the margins do not give. */
  predicate LinePredicted(ps: seq<Product>, rows: seq<OfferRow>, i: nat, settings: Settings)
    requires i < |rows|
  {
    Named(rows[i]) && !FirstOfKey(rows, i) && SeenBefore(ps, rows, i).HumanPriced?
    ==> PricedAlike(rows[i], SeenBefore(ps, rows, i), settings)
  }

  /** One of the first i rows is handled under this key. */
  predicate KeyBefore(rows: seq<OfferRow>, i: nat, key: string)
    requires i <= |rows|
  {
    exists j :: 0 <= j < i && HasDryKey(rows[j], key)
  }

  predicate HasDryKey(row: OfferRow, key: string) {
    Named(row) && DryKey(row) == key
  }

  lemma RowAddsItsKey(ps: seq<Product>, d: DryState, row: OfferRow, settings: Settings, key: string)
    ensures key in DryRow(ps, d, row, settings).drySeen <==> key in d.drySeen || HasDryKey(row, key)
  {
  }

  /** `dry_seen` holds the keys of the rows already handled. */
  lemma {:induction false} DrySeenHoldsEarlierKeys(
    ps: seq<Product>, s: DryState, rows: seq<OfferRow>, i: nat, settings: Settings, key: string)
    requires i <= |rows| && s.drySeen == map[]
    ensures key in DryRows(ps, s, rows[..i], settings).drySeen <==> KeyBefore(rows, i, key)
  {
    if i > 0 {
      var n := i - 1;
      DrySeenHoldsEarlierKeys(ps, s, rows, n, settings, key);
      OneMoreDryRow(ps, s, rows, n, settings);
      RowAddsItsKey(ps, DryRows(ps, s, rows[..n], settings), rows[n], settings, key);
      OneMoreKey(rows, n, key);
    }
  }

  lemma OneMoreKey(rows: seq<OfferRow>, n: nat, key: string)
    requires n < |rows|
    ensures KeyBefore(rows, n + 1, key) <==> KeyBefore(rows, n, key) || HasDryKey(rows[n], key)
  {
  }

  lemma OneMoreDryRow(ps: seq<Product>, s: DryState, rows: seq<OfferRow>, n: nat, settings: Settings)
    requires n < |rows|
    ensures DryRows(ps, s, rows[..n + 1], settings)
      == DryRow(ps, DryRows(ps, s, rows[..n], settings), rows[n], settings)
  {
    assert rows[..n + 1][..n] == rows[..n];
  }

  lemma DryKeysSeparateRows(rows: seq<OfferRow>, i: nat, j: nat)
    requires i < |rows| && j < |rows| && Named(rows[i]) && Named(rows[j]) && KeysDoNotClash(rows)
    ensures DryKey(rows[i]) == DryKey(rows[j]) <==> RowKey(rows[i]) == RowKey(rows[j])
  {
  }

  lemma DrySeenMeansRepeat(ps: seq<Product>, s: DryState, rows: seq<OfferRow>, i: nat, settings: Settings)
    requires i < |rows| && Named(rows[i]) && KeysDoNotClash(rows) && s.drySeen == map[]
    ensures DryKey(rows[i]) in DryRows(ps, s, rows[..i], settings).drySeen <==> !FirstOfKey(rows, i)
  {
    DrySeenHoldsEarlierKeys(ps, s, rows, i, settings, DryKey(rows[i]));
    forall j | 0 <= j < i && Named(rows[j])
      ensures HasDryKey(rows[j], DryKey(rows[i])) <==> RowKey(rows[i]) == RowKey(rows[j])
    {
      DryKeysSeparateRows(rows, i, j);
    }
  }

  /** How the two runs may see a named row. */
  predicate SeenAlike(ps: seq<Product>, rows: seq<OfferRow>, i: nat, actual: Seen, simulated: Seen)
    requires i < |rows| && Named(rows[i])
  {
    if FirstOfKey(rows, i) then simulated == actual
    else
      && simulated == AutoPriced
      && actual == if SeenBefore(ps, rows, i).HumanPriced? then SeenBefore(ps, rows, i) else AutoPriced
  }

  /** At a first row both runs see the same product; at a repeat the preview has forgotten who priced it. */
  lemma WhatBothRunsSee(ps0: seq<Product>, rows: seq<OfferRow>, i: nat, ps: seq<Product>, t: seq<Touch>,
                        own: seq<nat>, d: DryState)
    requires Tracked(ps0, rows, i, ps, t, own) && ImportEffects.ProductsRespected(ps0, ps)
    requires i < |rows| && Named(rows[i]) && Separate(ps0, rows) && EanUnique(ps)
    requires DryKey(rows[i]) in d.drySeen <==> !FirstOfKey(rows, i)
    ensures SeenAlike(ps0, rows, i, SeenAt(ps, Lookup(ps, rows[i])), DrySeenAs(ps0, d, rows[i]))
  {
    if FirstOfKey(rows, i) {
      FirstRowFindsTheSame(ps0, rows, i, ps, t, own);
    } else {
      RepeatFindsTheSame(ps0, rows, i, ps, t, own);
      var k := Lookup(ps, rows[i]);
      assert TouchOk(ps0, rows, i, ps[k], k, t[k]);
      OneFirstOfKey(rows, t[k].first, FirstOf(rows, i));
    }
  }

  lemma OneFirstOfKey(rows: seq<OfferRow>, f: nat, g: nat)
    requires f < |rows| && g < |rows| && FirstOfKey(rows, f) && FirstOfKey(rows, g)
    requires RowKey(rows[f]) == RowKey(rows[g])
    ensures f == g
  {
  }

  /** Everything in the reports but the batch id and the contents of the lines. */
  predicate SameTallies(a: ImportReport, b: ImportReport) {
    && a.source == b.source && a.productsCreated == b.productsCreated && a.productsUpdated == b.productsUpdated
    && a.costingsCreated == b.costingsCreated && a.skipped == b.skipped && |a.rows| == |b.rows|
  }

  predicate SamePrices(a: RowReport, b: RowReport) {
    a.sellingPrice == b.sellingPrice && a.retailPrice == b.retailPrice
  }

  lemma PricesRecomputed(inputs: CostingInputs, seen: Seen, settings: Settings)
    ensures var selling := ChooseSelling(AutoPriced, settings.compute(inputs).totalDirectCost, settings.defaults);
      PriceRow(inputs, seen, settings) == PriceRow(inputs, AutoPriced, settings)
      <==> (StoredSelling(seen).None? || StoredSelling(seen) == selling)
           && (StoredRetail(seen).None? || StoredRetail(seen) == ChooseRetail(AutoPriced, selling, settings.defaults))
    ensures var kept, anew := PriceRow(inputs, seen, settings).inputs, PriceRow(inputs, AutoPriced, settings).inputs;
      kept == anew <==> kept.sellingPrice == anew.sellingPrice && kept.retailPrice == anew.retailPrice
  {
  }

  /** Seen as it is or as auto-priced, a row gives the same report line exactly when it gives the same
      prices, and that is exactly when the stored prices are what the margins give. */
  lemma LineTellsThePrices(row: OfferRow, eans: set<string>, seen: Seen, settings: Settings)
    requires !seen.Absent?
    ensures var kept, anew := HandleRow(row, eans, seen, settings), HandleRow(row, eans, AutoPriced, settings);
      && kept.costed.Some? == anew.costed.Some?
      && (kept.report == anew.report <==> PricedAlike(row, seen, settings))
      && (SamePrices(kept.report, anew.report) <==> PricedAlike(row, seen, settings))
  {
    var inputs := BuildInputs(row, settings).0;
    if inputs.Some? {
      PricesRecomputed(inputs.value, seen, settings);
    }
  }

  /** The first i lines of both reports, and their prices, are the same but for the mispredicted ones. */
  predicate LinesAgree(a: seq<RowReport>, b: seq<RowReport>, ps: seq<Product>, rows: seq<OfferRow>, i: nat,
                       settings: Settings)
    requires i <= |rows|
  {
    |a| == |b| == i && forall j | 0 <= j < i :: LineAgrees(a[j], b[j], LinePredicted(ps, rows, j, settings))
  }

  predicate LineAgrees(a: RowReport, b: RowReport, predicted: bool) {
    (a == b <==> predicted) && (SamePrices(a, b) <==> predicted)
  }

  lemma LinesGrow(a: seq<RowReport>, b: seq<RowReport>, x: RowReport, y: RowReport, ps: seq<Product>,
                  rows: seq<OfferRow>, i: nat, settings: Settings)
    requires i < |rows| && LinesAgree(a, b, ps, rows, i, settings)
    requires LineAgrees(x, y, LinePredicted(ps, rows, i, settings))
    ensures LinesAgree(a + [x], b + [y], ps, rows, i + 1, settings)
  {
    forall j | 0 <= j < i + 1 ensures LineAgrees((a + [x])[j], (b + [y])[j], LinePredicted(ps, rows, j, settings)) {
      if j < i {
        assert LineAgrees(a[j], b[j], LinePredicted(ps, rows, j, settings));
      }
    }
  }

  predicate Agree(s: RunState, d: DryState, ps: seq<Product>, rows: seq<OfferRow>, i: nat, settings: Settings)
    requires i <= |rows|
  {
    && d.eans == s.eans && SameTallies(s.report, d.report)
    && LinesAgree(s.report.rows, d.report.rows, ps, rows, i, settings)
  }

  lemma LineIsPredicted(ps: seq<Product>, rows: seq<OfferRow>, i: nat, eans: set<string>, actual: Seen, simulated: Seen,
                        settings: Settings)
    requires i < |rows| && Named(rows[i]) && SeenAlike(ps, rows, i, actual, simulated)
    ensures var a, b := HandleRow(rows[i], eans, actual, settings), HandleRow(rows[i], eans, simulated, settings);
      && actual.Absent? == simulated.Absent? && a.costed.Some? == b.costed.Some?
      && LineAgrees(a.report, b.report, LinePredicted(ps, rows, i, settings))
  {
    if !FirstOfKey(rows, i) {
      LineTellsThePrices(rows[i], eans, actual, settings);
    }
  }

  lemma RunsAgreeOnRow(s: RunState, d: DryState, ps0: seq<Product>, rows: seq<OfferRow>, i: nat, settings: Settings,
                       batch: Batch)
    requires i < |rows| && Agree(s, d, ps0, rows, i, settings)
    requires Named(rows[i]) ==>
      SeenAlike(ps0, rows, i, SeenAt(s.db.products, Lookup(s.db.products, rows[i])), DrySeenAs(ps0, d, rows[i]))
    ensures Agree(RealRow(s, rows[i], settings, batch), DryRow(ps0, d, rows[i], settings), ps0, rows, i + 1, settings)
  {
    var x := BlankReport(rows[i], rows[i].warnings, Skipped, None);
    var y := x;
    if Named(rows[i]) {
      var actual, simulated := SeenAt(s.db.products, Lookup(s.db.products, rows[i])), DrySeenAs(ps0, d, rows[i]);
      LineIsPredicted(ps0, rows, i, s.eans, actual, simulated, settings);
      x := HandleRow(rows[i], s.eans, actual, settings).report;
      y := HandleRow(rows[i], s.eans, simulated, settings).report;
    }
    LinesGrow(s.report.rows, d.report.rows, x, y, ps0, rows, i, settings);
  }

  lemma {:induction false} RunsAgreeSoFar(
    s: RunState, d: DryState, rows: seq<OfferRow>, i: nat, settings: Settings, batch: Batch)
    requires Valid(s.db) && HasOffer(s.db.offers, batch.id)
    requires i <= |rows| && Separate(s.db.products, rows)
    requires d.drySeen == map[] && Agree(s, d, s.db.products, rows, 0, settings)
    ensures Agree(RealRows(s, rows[..i], settings, batch), DryRows(s.db.products, d, rows[..i], settings),
                  s.db.products, rows, i, settings)
  {
    if i > 0 {
      var n, ps0 := i - 1, s.db.products;
      RunsAgreeSoFar(s, d, rows, n, settings, batch);
      if Named(rows[n]) {
        RowIsSeenAlike(s, d, rows, n, settings, batch);
      }
      RunsAgreeOnRow(RealRows(s, rows[..n], settings, batch), DryRows(ps0, d, rows[..n], settings), ps0, rows, n,
                     settings, batch);
      OneMoreRow(s, rows, n, settings, batch);
      OneMoreDryRow(ps0, d, rows, n, settings);
    }
  }

  lemma RowIsSeenAlike(s: RunState, d: DryState, rows: seq<OfferRow>, n: nat, settings: Settings, batch: Batch)
    requires Valid(s.db) && HasOffer(s.db.offers, batch.id)
    requires n < |rows| && Named(rows[n]) && Separate(s.db.products, rows) && d.drySeen == map[]
    ensures var ps0, ps := s.db.products, RealRows(s, rows[..n], settings, batch).db.products;
      SeenAlike(ps0, rows, n, SeenAt(ps, Lookup(ps, rows[n])),
                DrySeenAs(ps0, DryRows(ps0, d, rows[..n], settings), rows[n]))
  {
    var ps0 := s.db.products;
    TrackBatch(s, rows, n, settings, batch);
    RealRowsKeepValid(s, rows[..n], settings, batch);
    ImportEffects.RowsRespect(s, rows[..n], settings, batch);
    DrySeenMeansRepeat(ps0, d, rows, n, settings);
    WhatBothRunsSee(ps0, rows, n, RealRows(s, rows[..n], settings, batch).db.products,
                    Touches(s, rows[..n], settings, batch), Owners(s, rows[..n], settings, batch),
                    DryRows(ps0, d, rows[..n], settings));
  }

  /** MAIN RESULT. For every database and every batch that is looked up alike, the preview has the tallies of
      the import, and each of its lines, and already its prices, are the import's exactly when it is predicted. */
  lemma DryRunPredictsImport(
    db: Db, rows: seq<OfferRow>, actor: string, source: string, finalise: bool, settings: Settings)
    requires Valid(db) && Separate(db.products, rows)
    ensures var actual := Import(db, rows, actor, source, finalise, settings).1;
      var preview := DryImport(db.products, rows, source, settings);
      && SameTallies(actual, preview) && |actual.rows| == |rows|
      && (forall i | 0 <= i < |rows| ::
            LineAgrees(actual.rows[i], preview.rows[i], LinePredicted(db.products, rows, i, settings)))
  {
    var s, d := Opened(db, source, actor, finalise), DryState(EmptyReport(source), {}, map[]);
    ImportEffects.CreateOfferIsValid(db, source, actor, finalise);
    RunsAgreeSoFar(s, d, rows, |rows|, settings, BatchOf(db, actor, finalise));
    assert rows[..|rows|] == rows;
  }

  /** MAIN RESULT. Such a preview is the import's report, but for the batch id it cannot know, if and only if
      every line is predicted. */
  lemma PreviewIsTheReport(
    db: Db, rows: seq<OfferRow>, actor: string, source: string, finalise: bool, settings: Settings)
    requires Valid(db) && Separate(db.products, rows)
    ensures Import(db, rows, actor, source, finalise, settings).1
        == DryImport(db.products, rows, source, settings).(batchId := Some(db.nextOffer))
      <==> forall i | 0 <= i < |rows| :: LinePredicted(db.products, rows, i, settings)
  {
    DryRunPredictsImport(db, rows, actor, source, finalise, settings);
    BatchIdIsKept(Opened(db, source, actor, finalise), rows, settings, BatchOf(db, actor, finalise));
    var actual := Import(db, rows, actor, source, finalise, settings).1;
    var preview := DryImport(db.products, rows, source, settings);
    if forall i | 0 <= i < |rows| :: LinePredicted(db.products, rows, i, settings) {
      assert actual.rows == preview.rows;
    }
  }

  lemma {:induction false} BatchIdIsKept(s: RunState, rows: seq<OfferRow>, settings: Settings, batch: Batch)
    ensures RealRows(s, rows, settings, batch).report.batchId == s.report.batchId
  {
    if rows != [] {
      BatchIdIsKept(s, rows[..|rows| - 1], settings, batch);
    }
  }

  // ---- Each condition on the lookups is needed ----

  /** The products table after the first row of an import. */
  function AfterRow(db: Db, a: OfferRow, settings: Settings): seq<Product> {
    var r := RowPrices(a, SeenAt(db.products, Lookup(db.products, a)), settings);
    Upserted(db.products, db.nextProduct, a, SellingOf(r), RetailOf(r))
  }

  lemma RealRowsOfTwo(s: RunState, a: OfferRow, b: OfferRow, settings: Settings, batch: Batch)
    ensures RealRows(s, [a, b], settings, batch) == RealRow(RealRow(s, a, settings, batch), b, settings, batch)
  {
    assert [a, b][..1] == [a] && [a][..0] == [];
    assert RealRows(s, [a], settings, batch) == RealRow(s, a, settings, batch);
  }

  lemma DryRowsOfTwo(ps: seq<Product>, d: DryState, a: OfferRow, b: OfferRow, settings: Settings)
    ensures DryRows(ps, d, [a, b], settings) == DryRow(ps, DryRow(ps, d, a, settings), b, settings)
  {
    assert [a, b][..1] == [a] && [a][..0] == [];
    assert DryRows(ps, d, [a], settings) == DryRow(ps, d, a, settings);
  }

  lemma RealRowCounts(s: RunState, row: OfferRow, settings: Settings, batch: Batch)
    requires Named(row)
    ensures RealRow(s, row, settings, batch).report.productsCreated
      == s.report.productsCreated + if Lookup(s.db.products, row) < |s.db.products| then 0 else 1
  {
  }

  lemma DryRowCounts(ps: seq<Product>, d: DryState, row: OfferRow, settings: Settings)
    requires Named(row)
    ensures var d' := DryRow(ps, d, row, settings);
      && d'.drySeen.Keys == d.drySeen.Keys + {DryKey(row)}
      && d'.report.productsCreated
         == d.report.productsCreated + if DryKey(row) in d.drySeen || Lookup(ps, row) < |ps| then 0 else 1
  {
  }

  lemma RealCountOfTwo(db: Db, a: OfferRow, b: OfferRow, settings: Settings)
    requires Named(a) && Named(b)
    ensures var ps, ps1 := db.products, AfterRow(db, a, settings);
      Import(db, [a, b], "", "", false, settings).1.productsCreated
        == (if Lookup(ps, a) < |ps| then 0 else 1) + (if Lookup(ps1, b) < |ps1| then 0 else 1)
  {
    var s, batch := Opened(db, "", "", false), BatchOf(db, "", false);
    RealRowsOfTwo(s, a, b, settings, batch);
    RealRowCounts(s, a, settings, batch);
    RowWritesUpserted(s, a, settings, batch);
    RealRowCounts(RealRow(s, a, settings, batch), b, settings, batch);
  }

  lemma DryCountOfTwo(ps: seq<Product>, a: OfferRow, b: OfferRow, settings: Settings)
    requires Named(a) && Named(b)
    ensures DryImport(ps, [a, b], "", settings).productsCreated
      == (if Lookup(ps, a) < |ps| then 0 else 1) + (if DryKey(a) == DryKey(b) || Lookup(ps, b) < |ps| then 0 else 1)
  {
    var d := DryState(EmptyReport(""), {}, map[]);
    DryRowsOfTwo(ps, d, a, b, settings);
    DryRowCounts(ps, d, a, settings);
    DryRowCounts(ps, DryRow(ps, d, a, settings), b, settings);
    assert DryKey(b) in DryRow(ps, d, a, settings).drySeen.Keys <==> DryKey(b) == DryKey(a);
  }

  /** Neither row matches a stored product. */
  predicate BothNew(ps: seq<Product>, a: OfferRow, b: OfferRow) {
    Named(a) && Named(b) && Lookup(ps, a) == |ps| && Lookup(ps, b) == |ps|
  }

  lemma FoundUnderTheName(db: Db, a: OfferRow, b: OfferRow, settings: Settings)
    requires BothNew(db.products, a, b) && RowEan(a).None? && Strip(a.name) == Strip(b.name)
    ensures Lookup(AfterRow(db, a, settings), b) == |db.products|
  {
    var ps1 := AfterRow(db, a, settings);
    if RowEan(b).Some? {
      NoEanMeansByEanEnd(ps1, RowEan(b).value, |ps1|);
    }
    NoNameMeansByNameEnd(ps1, Strip(b.name), |db.products|);
  }

  /** Two new rows of one name, the second with an EAN that does not look like it: one product, previewed as two. */
  lemma SharedNameMisleadsThePreview(db: Db, a: OfferRow, b: OfferRow, settings: Settings)
    requires BothNew(db.products, a, b) && Strip(a.name) == Strip(b.name)
    requires RowEan(a).None? && RowEan(b).Some? && RowEan(b).value != Strip(a.name)
    ensures KeysDoNotClash([a, b]) && DistinctMatches(db.products, [a, b])
    ensures Import(db, [a, b], "", "", false, settings).1.productsCreated == 1
    ensures DryImport(db.products, [a, b], "", settings).productsCreated == 2
  {
    RealCountOfTwo(db, a, b, settings);
    DryCountOfTwo(db.products, a, b, settings);
    FoundUnderTheName(db, a, b, settings);
    SharedNameIsOtherwiseSeparate(db.products, a, b);
  }

  lemma SharedNameIsOtherwiseSeparate(ps: seq<Product>, a: OfferRow, b: OfferRow)
    requires BothNew(ps, a, b) && RowEan(a).None? && RowEan(b).Some? && RowEan(b).value != Strip(a.name)
    ensures KeysDoNotClash([a, b]) && DistinctMatches(ps, [a, b])
  {
  }

  lemma NotFoundByEan(db: Db, a: OfferRow, b: OfferRow, settings: Settings)
    requires BothNew(db.products, a, b) && RowEan(a).None? && RowEan(b).Some? && Strip(a.name) != Strip(b.name)
    ensures var ps1 := AfterRow(db, a, settings); Lookup(ps1, b) == |ps1|
  {
    var ps1 := AfterRow(db, a, settings);
    NoEanMeansByEanEnd(ps1, RowEan(b).value, |ps1|);
    NoNameMeansByNameEnd(ps1, Strip(b.name), |ps1|);
  }

  /** A new row named like the EAN of the next, also new: two products, previewed as one. */
  lemma NameLikeAnEanMisleadsThePreview(db: Db, a: OfferRow, b: OfferRow, settings: Settings)
    requires BothNew(db.products, a, b) && Strip(a.name) != Strip(b.name)
    requires RowEan(a).None? && RowEan(b) == Some(Strip(a.name))
    ensures NamesApart(db.products, [a, b]) && DistinctMatches(db.products, [a, b])
    ensures Import(db, [a, b], "", "", false, settings).1.productsCreated == 2
    ensures DryImport(db.products, [a, b], "", settings).productsCreated == 1
  {
    RealCountOfTwo(db, a, b, settings);
    DryCountOfTwo(db.products, a, b, settings);
    NotFoundByEan(db, a, b, settings);
  }

  /** Product `k` has the first row's EAN and, alone, the second row's name; nothing has the second row's EAN. */
  predicate MatchesBoth(ps: seq<Product>, k: nat, a: OfferRow, b: OfferRow) {
    && k < |ps| && Named(a) && Named(b)
    && RowEan(a).Some? && ps[k].ean == RowEan(a) && ps[k].name == Strip(b.name)
    && (forall m | 0 <= m < |ps| && m != k :: ps[m].ean != RowEan(a) && ps[m].name != Strip(b.name))
    && (RowEan(b).Some? ==> forall m | 0 <= m < |ps| :: ps[m].ean != RowEan(b))
  }

  lemma FoundByBoth(ps: seq<Product>, k: nat, a: OfferRow, b: OfferRow)
    requires MatchesBoth(ps, k, a, b)
    ensures Lookup(ps, a) == k && Lookup(ps, b) == k
  {
    NoEanMeansByEanEnd(ps, RowEan(a).value, k);
    if RowEan(b).Some? {
      NoEanMeansByEanEnd(ps, RowEan(b).value, |ps|);
    }
    NoNameMeansByNameEnd(ps, Strip(b.name), k);
  }

  lemma RenamedAway(db: Db, k: nat, a: OfferRow, b: OfferRow, settings: Settings)
    requires MatchesBoth(db.products, k, a, b) && Strip(a.name) != Strip(b.name)
    ensures var ps1 := AfterRow(db, a, settings); Lookup(ps1, b) == |ps1|
  {
    FoundByBoth(db.products, k, a, b);
    var ps1 := AfterRow(db, a, settings);
    if RowEan(b).Some? {
      NoEanMeansByEanEnd(ps1, RowEan(b).value, |ps1|);
    }
    NoNameMeansByNameEnd(ps1, Strip(b.name), |ps1|);
  }

  /** Two rows of different names that match one stored product, the first by EAN and the second by name: the first
      renames it, so the second creates another; previewed as two updates. */
  lemma SharedMatchMisleadsThePreview(db: Db, k: nat, a: OfferRow, b: OfferRow, settings: Settings)
    requires MatchesBoth(db.products, k, a, b) && Strip(a.name) != Strip(b.name)
    ensures NamesApart(db.products, [a, b])
    ensures Import(db, [a, b], "", "", false, settings).1.productsCreated == 1
    ensures DryImport(db.products, [a, b], "", settings).productsCreated == 0
  {
    RealCountOfTwo(db, a, b, settings);
    DryCountOfTwo(db.products, a, b, settings);
    FoundByBoth(db.products, k, a, b);
    RenamedAway(db, k, a, b, settings);
  }

  // ---- Who priced a repeated product ----

  /** A row that can only be looked up, never costed. */
  function Plain(name: string, ean: Option<string>): OfferRow {
    OfferRow(1, name, ean, None, None, None, None, [])
  }

  const EAN := "12345678"

  lemma PlainStrip(name: string)
    requires name in {"A", "B"}
    ensures Strip(name) == name
  {
  }

  /** The selling price reported for the second of two rows. */
  lemma SecondRowPriceReal(db: Db, a: OfferRow, b: OfferRow, settings: Settings)
    requires Named(a) && Named(b)
    ensures var ps1 := AfterRow(db, a, settings);
      var actual := Import(db, [a, b], "", "", false, settings).1.rows;
      |actual| == 2 && actual[1].sellingPrice == SellingOf(HandleRow(b, {}, SeenAt(ps1, Lookup(ps1, b)), settings))
  {
    var s, batch := Opened(db, "", "", false), BatchOf(db, "", false);
    var s1 := RealRow(s, a, settings, batch);
    RealRowsOfTwo(s, a, b, settings, batch);
    RowWritesUpserted(s, a, settings, batch);
    PricesIgnoreEanWarnings(b, s1.eans, SeenAt(s1.db.products, Lookup(s1.db.products, b)), settings);
  }

  /** The selling price previewed for the second of two rows. */
  lemma SecondRowPricePreviewed(ps: seq<Product>, a: OfferRow, b: OfferRow, settings: Settings)
    requires Named(a) && Named(b)
    ensures var simulated := if DryKey(a) == DryKey(b) then AutoPriced else SeenAt(ps, Lookup(ps, b));
      var dry := DryImport(ps, [a, b], "", settings).rows;
      |dry| == 2 && dry[1].sellingPrice == SellingOf(HandleRow(b, {}, simulated, settings))
  {
    var d := DryState(EmptyReport(""), {}, map[]);
    var d1 := DryRow(ps, d, a, settings);
    DryRowsOfTwo(ps, d, a, b, settings);
    PricesIgnoreEanWarnings(b, d1.eans, DrySeenAs(ps, d1, b), settings);
  }

  /** A costable row takes a stored admin price; seen as auto-priced it gets the recomputed one. */
  lemma StoredPriceWins(row: OfferRow, settings: Settings, price: real)
    requires BuildInputs(row, settings).0.Some?
    ensures SellingOf(HandleRow(row, {}, HumanPriced(Some(price), None), settings)) == Some(price)
    ensures SellingOf(HandleRow(row, {}, AutoPriced, settings)) == Recomputed(row, settings)
  {
  }

  /** The selling price the target margin gives a costable row. */
  function Recomputed(row: OfferRow, settings: Settings): Option<real>
    requires BuildInputs(row, settings).0.Some?
  {
    ChooseSelling(AutoPriced, settings.compute(BuildInputs(row, settings).0.value).totalDirectCost, settings.defaults)
  }

  /** A catalogue of one product that an admin priced. */
  function AdminPriced(price: real): seq<Product> {
    [Product(1, Some(EAN), "P", 1, None, Some(price), true, Human)]
  }

  function AdminPricedDb(price: real): Db {
    EMPTY_DB.(products := AdminPriced(price), nextProduct := 2)
  }

  lemma LookupAfterHumanUpdate(b: OfferRow, price: real)
    requires b.name == "B" && b.ean == Some(EAN)
    ensures var ps1 := Upserted(AdminPriced(price), 2, Plain("A", Some(EAN)), None, None);
      |ps1| == 1 && SeenAt(ps1, Lookup(ps1, b)) == HumanPriced(Some(price), None)
  {
  }

  lemma PlainWritesNoPrice(db: Db, name: string, settings: Settings)
    requires name != ""
    ensures AfterRow(db, Plain(name, Some(EAN)), settings)
      == Upserted(db.products, db.nextProduct, Plain(name, Some(EAN)), None, None)
  {
  }

  lemma HumanRepeatIsSeparate(b: OfferRow, price: real)
    requires b.name == "B" && b.ean == Some(EAN)
    ensures Separate(AdminPriced(price), [Plain("A", Some(EAN)), b])
  {
    PlainStrip("A");
    PlainStrip("B");
    assert RowKey(Plain("A", Some(EAN))) == RowKey(b);
  }

  /** A costable row under the EAN of an admin-priced product that an earlier row already updated:
      the import keeps the admin's price, the preview shows the recomputed one. */
  lemma HumanRepeatMisleadsThePreview(settings: Settings, b: OfferRow, price: real)
    requires b.name == "B" && b.ean == Some(EAN)
    requires BuildInputs(b, settings).0.Some?
    ensures var rows := [Plain("A", Some(EAN)), b];
      var actual := Import(AdminPricedDb(price), rows, "", "", false, settings).1.rows;
      var dry := DryImport(AdminPriced(price), rows, "", settings).rows;
      && Separate(AdminPriced(price), rows)
      && |actual| == 2 && actual[1].sellingPrice == Some(price)
      && |dry| == 2 && dry[1].sellingPrice == Recomputed(b, settings)
  {
    SecondRowPriceReal(AdminPricedDb(price), Plain("A", Some(EAN)), b, settings);
    SecondRowPricePreviewed(AdminPriced(price), Plain("A", Some(EAN)), b, settings);
    HumanRepeatIsSeparate(b, price);
    LookupAfterHumanUpdate(b, price);
    PlainWritesNoPrice(AdminPricedDb(price), "A", settings);
    StoredPriceWins(b, settings, price);
  }

  /** The defaults a fresh database is seeded with, and the smallest of its boxes, 34 cm high. */
  const SEEDED := Defaults(
    Some(0.20), Some(1.0), Some(0.01), Some(0.10), Some(0.10), Some(0.35), Some(0.10), Some(125.0), Some(252.0),
    Some(1.0), Some(50.0), Some(0.8), Some(24.0), Some(0.0))

  const BOX_34 := BoxType("34", Some("60x40x34"), 0.648)

  function SeededSettings(compute: Calculator): Settings {
    Settings(compute, SEEDED, [BOX_34], [])
  }

  const COSTABLE := OfferRow(2, "B", Some(EAN), Some(10), Some(0.5), Some(34), None, [])

  lemma LastPartGrows(s: string, c: char)
    ensures LastPart(s + [c]) == if IsBoxSep(c) then "" else LastPart(s) + [c]
  {
    assert (s + [c])[..|s|] == s;
  }

  lemma Box34LastPart()
    ensures LastPart("60x40x34") == "34"
  {
    assert "60x40x34" == ("60x40" + ['x'] + ['3']) + ['4'];
    LastPartGrows("60x40", 'x');
    LastPartGrows("60x40" + ['x'], '3');
    LastPartGrows("60x40" + ['x'] + ['3'], '4');
  }

  lemma Decimal34()
    ensures Strip("34") == "34" && AllDigits("34") && Decimal("34") == 34
  {
    assert "34"[..1] == "3" && Decimal("3") == 3;
  }

  lemma Box34IsHigh34()
    ensures BoxHeight(BOX_34) == Some(34)
  {
    Box34LastPart();
    Decimal34();
    HeightOf(BOX_34, "60x40x34", "34", 34);
  }

  lemma HeightOf(bt: BoxType, dimensions: string, last: string, height: nat)
    requires bt.dimensions == Some(dimensions) && dimensions != "" && !IsBoxSep(dimensions[|dimensions| - 1])
    requires LastPart(dimensions) == last && Strip(last) == last && last != ""
    requires AllDigits(last) && Decimal(last) == height
    ensures BoxHeight(bt) == Some(height)
  {
    assert TrimSeps(dimensions) == dimensions;
  }

  /** With the seeded settings the preview shows another price than the import as soon as the admin's
      differs from the recomputed one. */
  lemma SeededRepeatIsMisled(compute: Calculator, price: real)
    ensures BuildInputs(COSTABLE, SeededSettings(compute)).0.Some?
    ensures var settings, rows := SeededSettings(compute), [Plain("A", Some(EAN)), COSTABLE];
      var actual := Import(AdminPricedDb(price), rows, "", "", false, settings).1.rows;
      var dry := DryImport(AdminPriced(price), rows, "", settings).rows;
      && |actual| == |dry| == 2 && dry[1].sellingPrice.Some?
      && (actual[1].sellingPrice != dry[1].sellingPrice <==> Some(price) != Recomputed(COSTABLE, settings))
  {
    Box34IsHigh34();
    assert [BOX_34][..0] == [];
    assert SmallestFit(34, [BOX_34]) == Some(BOX_34);
    HumanRepeatMisleadsThePreview(SeededSettings(compute), COSTABLE, price);
  }
}
