/** A confirmed upload imports the rows as the preview left them: the dry run appends its warnings to the
    row objects, and the review page posts those back (epiproc/web/routers/costing.py). */
module ConfirmedUpload {
  import opened Common
  import opened CostingTables
  import opened OfferRows
  import opened OfferImport
  import opened BatchTracking
  import opened Preview

  /** A row object after `handle` reported it as `line`. */
  function Warned(row: OfferRow, line: RowReport): OfferRow {
    row.(warnings := line.warnings)
  }

  function Previewed(rows: seq<OfferRow>, lines: seq<RowReport>): (r: seq<OfferRow>)
    requires |lines| == |rows|
    ensures |r| == |rows| && forall i | 0 <= i < |rows| :: r[i] == Warned(rows[i], lines[i])
  {
    if rows == [] then []
    else
      var n := |rows| - 1;
      Previewed(rows[..n], lines[..n]) + [Warned(rows[n], lines[n])]
  }

  /** The row's EAN was used earlier in the file. */
  predicate RepeatsEan(rows: seq<OfferRow>, i: nat)
    requires i < |rows|
  {
    Named(rows[i]) && RowEan(rows[i]).Some? && !FirstOfKey(rows, i)
  }

  // ---- Warnings do not matter to lookups and prices ----

  /** Two rows that differ in their warnings at most. */
  predicate Twins(a: OfferRow, b: OfferRow) {
    b.(warnings := a.warnings) == a
  }

  predicate TwinRows(rows: seq<OfferRow>, warned: seq<OfferRow>) {
    |rows| == |warned| && forall i | 0 <= i < |rows| :: Twins(rows[i], warned[i])
  }

  lemma TwinsHaveOneKey(rows: seq<OfferRow>, warned: seq<OfferRow>, i: nat)
    requires TwinRows(rows, warned) && i < |rows|
    ensures Named(rows[i]) <==> Named(warned[i])
    ensures RowKey(rows[i]) == RowKey(warned[i]) && RowEan(rows[i]) == RowEan(warned[i])
    ensures FirstOfKey(rows, i) <==> FirstOfKey(warned, i)
  {
    forall j | 0 <= j < i ensures Named(rows[j]) == Named(warned[j]) && RowKey(rows[j]) == RowKey(warned[j]) {
      assert Twins(rows[j], warned[j]);
    }
    assert Twins(rows[i], warned[i]);
  }

  lemma TwinsAreSeparate(ps: seq<Product>, rows: seq<OfferRow>, warned: seq<OfferRow>)
    requires TwinRows(rows, warned) && Separate(ps, rows)
    ensures Separate(ps, warned)
  {
    forall i | 0 <= i < |rows|
      ensures Named(rows[i]) == Named(warned[i]) && RowKey(rows[i]) == RowKey(warned[i])
      ensures RowEan(rows[i]) == RowEan(warned[i]) && rows[i].name == warned[i].name
      ensures FirstOfKey(rows, i) == FirstOfKey(warned, i) && Lookup(ps, rows[i]) == Lookup(ps, warned[i])
      ensures FoundByName(ps, rows, i) == FoundByName(ps, warned, i)
    {
      TwinsHaveOneKey(rows, warned, i);
      assert Twins(rows[i], warned[i]);
    }
  }

  lemma TwinsArePredictedAlike(ps: seq<Product>, rows: seq<OfferRow>, warned: seq<OfferRow>, i: nat, settings: Settings)
    requires TwinRows(rows, warned) && i < |rows|
    ensures LinePredicted(ps, rows, i, settings) <==> LinePredicted(ps, warned, i, settings)
  {
    TwinsHaveOneKey(rows, warned, i);
    assert Twins(rows[i], warned[i]);
    if Named(rows[i]) {
      var f := FirstOf(rows, i);
      TwinsHaveOneKey(rows, warned, f);
      assert Twins(rows[f], warned[f]);
      OneFirstOfKey(warned, f, FirstOf(warned, i));
    }
  }

  // ---- One row handled twice ----

  /** The second line adds nothing, but a repeated EAN is flagged again. */
  predicate Again(line: RowReport, again: RowReport, repeated: bool) {
    again == line.(warnings := if repeated then line.warnings + ["duplicate_ean"] else line.warnings)
  }

  lemma HandledAgain(row: OfferRow, eans: set<string>, seen: Seen, settings: Settings)
    ensures var r := HandleRow(row, eans, seen, settings);
      var again := HandleRow(Warned(row, r.report), eans, seen, settings);
      && again.costed == r.costed
      && Again(r.report, again.report, RowEan(row).Some? && RowEan(row).value in eans)
  {
  }

  // ---- The dry run over the warned rows ----

  predicate HasEan(row: OfferRow, ean: string) {
    Named(row) && RowKey(row) == EanKey(ean)
  }

  /** One of the first i rows has this valid EAN. */
  predicate EanBefore(rows: seq<OfferRow>, i: nat, ean: string)
    requires i <= |rows|
  {
    exists j :: 0 <= j < i && HasEan(rows[j], ean)
  }

  lemma OneMoreEan(rows: seq<OfferRow>, n: nat, ean: string)
    requires n < |rows|
    ensures EanBefore(rows, n + 1, ean) <==> EanBefore(rows, n, ean) || HasEan(rows[n], ean)
  {
  }

  lemma RowAddsItsEan(ps: seq<Product>, d: DryState, row: OfferRow, settings: Settings, ean: string)
    ensures ean in DryRow(ps, d, row, settings).eans <==> ean in d.eans || HasEan(row, ean)
  {
  }

  lemma {:induction false} EansSoFar(ps: seq<Product>, s: DryState, rows: seq<OfferRow>, i: nat, settings: Settings,
                                     ean: string)
    requires i <= |rows| && s.eans == {}
    ensures ean in DryRows(ps, s, rows[..i], settings).eans <==> EanBefore(rows, i, ean)
  {
    if i > 0 {
      var n := i - 1;
      EansSoFar(ps, s, rows, n, settings, ean);
      OneMoreDryRow(ps, s, rows, n, settings);
      RowAddsItsEan(ps, DryRows(ps, s, rows[..n], settings), rows[n], settings, ean);
      OneMoreEan(rows, n, ean);
    }
  }

  lemma EanSeenMeansRepeat(ps: seq<Product>, s: DryState, rows: seq<OfferRow>, i: nat, settings: Settings)
    requires i < |rows| && s.eans == {} && Named(rows[i]) && RowEan(rows[i]).Some?
    ensures RowEan(rows[i]).value in DryRows(ps, s, rows[..i], settings).eans <==> RepeatsEan(rows, i)
  {
    var ean := RowEan(rows[i]).value;
    EansSoFar(ps, s, rows, i, settings, ean);
    forall j | 0 <= j < i ensures HasEan(rows[j], ean) <==> Named(rows[j]) && RowKey(rows[j]) == RowKey(rows[i]) {
    }
  }

  predicate LinesAgain(lines: seq<RowReport>, again: seq<RowReport>, rows: seq<OfferRow>, i: nat)
    requires i <= |rows|
  {
    |lines| == |again| == i && forall j | 0 <= j < i :: Again(lines[j], again[j], RepeatsEan(rows, j))
  }

  lemma LinesAgainGrow(a: seq<RowReport>, a': seq<RowReport>, b: seq<RowReport>, b': seq<RowReport>,
                       rows: seq<OfferRow>, i: nat)
    requires i < |rows| && LinesAgain(a, b, rows, i)
    requires |a'| == |b'| == i + 1 && a'[..i] == a && b'[..i] == b && Again(a'[i], b'[i], RepeatsEan(rows, i))
    ensures LinesAgain(a', b', rows, i + 1)
  {
    forall j | 0 <= j < i ensures Again(a'[j], b'[j], RepeatsEan(rows, j)) {
      assert a'[..i][j] == a[j] && b'[..i][j] == b[j];
    }
  }

  /** The second preview of the first i rows, compared with the first. */
  predicate SecondPreview(d: DryState, again: DryState, rows: seq<OfferRow>, i: nat)
    requires i <= |rows|
  {
    && again.eans == d.eans && again.drySeen == d.drySeen && SameTallies(d.report, again.report)
    && LinesAgain(d.report.rows, again.report.rows, rows, i)
  }

  /** `DryRow` once the row's result is known. */
  function DryResult(d: DryState, row: OfferRow, seen: Seen, r: RowResult): DryState {
    DryState(AddRow(d.report, seen, r), AddEan(d.eans, row), d.drySeen[DryKey(row) := Simulate(seen, r)])
  }

  lemma ResultAgain(d: DryState, again: DryState, row: OfferRow, seen: Seen, r: RowResult, r': RowResult,
                    repeated: bool)
    requires again.eans == d.eans && again.drySeen == d.drySeen && SameTallies(d.report, again.report)
    requires r'.costed == r.costed && Again(r.report, r'.report, repeated)
    ensures var n, d' := |d.report.rows|, DryResult(d, row, seen, r);
      var again' := DryResult(again, Warned(row, r.report), seen, r');
      && |d'.report.rows| == n + 1 && d'.report.rows[..n] == d.report.rows && d'.report.rows[n] == r.report
      && again'.eans == d'.eans && again'.drySeen == d'.drySeen && SameTallies(d'.report, again'.report)
      && again'.report.rows[..n] == again.report.rows && Again(d'.report.rows[n], again'.report.rows[n], repeated)
  {
  }

  lemma RowHandledAgain(ps: seq<Product>, d: DryState, again: DryState, row: OfferRow, repeated: bool,
                        settings: Settings)
    requires again.eans == d.eans && again.drySeen == d.drySeen && SameTallies(d.report, again.report)
    requires repeated == (Named(row) && RowEan(row).Some? && RowEan(row).value in d.eans)
    ensures var n, d' := |d.report.rows|, DryRow(ps, d, row, settings);
      |d'.report.rows| == n + 1 && d'.report.rows[..n] == d.report.rows &&
      var again' := DryRow(ps, again, Warned(row, d'.report.rows[n]), settings);
      && again'.eans == d'.eans && again'.drySeen == d'.drySeen && SameTallies(d'.report, again'.report)
      && again'.report.rows[..n] == again.report.rows && Again(d'.report.rows[n], again'.report.rows[n], repeated)
  {
    if Named(row) {
      var seen := DrySeenAs(ps, d, row);
      var r := HandleRow(row, d.eans, seen, settings);
      var r' := HandleRow(Warned(row, r.report), d.eans, seen, settings);
      HandledAgain(row, d.eans, seen, settings);
      ResultAgain(d, again, row, seen, r, r', repeated);
    }
  }

  lemma SecondPreviewGrows(ps: seq<Product>, d: DryState, again: DryState, rows: seq<OfferRow>, i: nat,
                           settings: Settings)
    requires i < |rows| && SecondPreview(d, again, rows, i)
    requires Named(rows[i]) && RowEan(rows[i]).Some? ==> (RowEan(rows[i]).value in d.eans <==> RepeatsEan(rows, i))
    ensures var d' := DryRow(ps, d, rows[i], settings);
      |d'.report.rows| == i + 1 && d'.report.rows[..i] == d.report.rows
      && SecondPreview(d', DryRow(ps, again, Warned(rows[i], d'.report.rows[i]), settings), rows, i + 1)
  {
    RowHandledAgain(ps, d, again, rows[i], RepeatsEan(rows, i), settings);
    var d' := DryRow(ps, d, rows[i], settings);
    var again' := DryRow(ps, again, Warned(rows[i], d'.report.rows[i]), settings);
    LinesAgainGrow(d.report.rows, d'.report.rows, again.report.rows, again'.report.rows, rows, i);
  }

  lemma PreviewedPrefix(rows: seq<OfferRow>, n: nat, lines: seq<RowReport>, before: seq<RowReport>)
    requires n < |rows| && |lines| == n + 1 && |before| == n && lines[..n] == before
    ensures Previewed(rows[..n + 1], lines)[..n] == Previewed(rows[..n], before)
    ensures Previewed(rows[..n + 1], lines)[n] == Warned(rows[n], lines[n])
  {
    var all, some := Previewed(rows[..n + 1], lines), Previewed(rows[..n], before);
    forall i | 0 <= i < n ensures all[i] == some[i] {
      assert lines[i] == before[i];
    }
  }

  lemma LastDryRow(ps: seq<Product>, s: DryState, rows: seq<OfferRow>, settings: Settings)
    requires rows != []
    ensures var n := |rows| - 1;
      DryRows(ps, s, rows, settings) == DryRow(ps, DryRows(ps, s, rows[..n], settings), rows[n], settings)
  {
  }

  lemma PreviewStep(ps: seq<Product>, s: DryState, rows: seq<OfferRow>, n: nat, before: DryState, again: DryState,
                    settings: Settings)
    requires n < |rows| && s.eans == {} && before == DryRows(ps, s, rows[..n], settings)
    requires SecondPreview(before, again, rows, n)
    ensures var d := DryRow(ps, before, rows[n], settings);
      |d.report.rows| == n + 1 && d.report.rows[..n] == before.report.rows
      && SecondPreview(d, DryRow(ps, again, Warned(rows[n], d.report.rows[n]), settings), rows, n + 1)
  {
    if Named(rows[n]) && RowEan(rows[n]).Some? {
      EanSeenMeansRepeat(ps, s, rows, n, settings);
    }
    SecondPreviewGrows(ps, before, again, rows, n, settings);
  }

  /** The dry run over the rows as the first one left them. */
  function DryAgain(ps: seq<Product>, s: DryState, rows: seq<OfferRow>, lines: seq<RowReport>,
                    settings: Settings): DryState
    requires |lines| == |rows|
  {
    DryRows(ps, s, Previewed(rows, lines), settings)
  }

  lemma DryAgainStep(ps: seq<Product>, s: DryState, rows: seq<OfferRow>, n: nat, lines: seq<RowReport>,
                     before: seq<RowReport>, settings: Settings)
    requires n < |rows| && |lines| == n + 1 && |before| == n && lines[..n] == before
    ensures DryAgain(ps, s, rows[..n + 1], lines, settings)
      == DryRow(ps, DryAgain(ps, s, rows[..n], before, settings), Warned(rows[n], lines[n]), settings)
  {
    PreviewedPrefix(rows, n, lines, before);
    LastDryRow(ps, s, Previewed(rows[..n + 1], lines), settings);
  }

  lemma {:induction false} DryRunAgain(ps: seq<Product>, s: DryState, rows: seq<OfferRow>, i: nat, settings: Settings)
    requires i <= |rows| && s.eans == {} && s.report.rows == []
    ensures var d := DryRows(ps, s, rows[..i], settings);
      |d.report.rows| == i && SecondPreview(d, DryAgain(ps, s, rows[..i], d.report.rows, settings), rows, i)
  {
    if i > 0 {
      var n := i - 1;
      DryRunAgain(ps, s, rows, n, settings);
      var before, d := DryRows(ps, s, rows[..n], settings), DryRows(ps, s, rows[..i], settings);
      OneMoreDryRow(ps, s, rows, n, settings);
      PreviewStep(ps, s, rows, n, before, DryAgain(ps, s, rows[..n], before.report.rows, settings), settings);
      DryAgainStep(ps, s, rows, n, d.report.rows, before.report.rows, settings);
    }
  }

  lemma LineComparison(actual: RowReport, again: RowReport, line: RowReport, predicted: bool, repeated: bool)
    requires Again(line, again, repeated) && LineAgrees(actual, again, predicted)
    ensures actual == line <==> predicted && !repeated
  {
    if repeated {
      assert |again.warnings| != |line.warnings|;
    }
  }

  lemma ComparedLines(actual: seq<RowReport>, again: seq<RowReport>, lines: seq<RowReport>, ps: seq<Product>,
                      rows: seq<OfferRow>, warned: seq<OfferRow>, settings: Settings)
    requires TwinRows(rows, warned) && LinesAgain(lines, again, rows, |rows|) && |actual| == |rows|
    requires forall i | 0 <= i < |rows| :: LineAgrees(actual[i], again[i], LinePredicted(ps, warned, i, settings))
    ensures forall i | 0 <= i < |rows| ::
      actual[i] == lines[i] <==> LinePredicted(ps, rows, i, settings) && !RepeatsEan(rows, i)
  {
    forall i | 0 <= i < |rows|
      ensures actual[i] == lines[i] <==> LinePredicted(ps, rows, i, settings) && !RepeatsEan(rows, i)
    {
      TwinsArePredictedAlike(ps, rows, warned, i, settings);
      LineComparison(actual[i], again[i], lines[i], LinePredicted(ps, rows, i, settings), RepeatsEan(rows, i));
    }
  }

  /** MAIN RESULT. The import of the rows as the preview left them has the preview's tallies, and a line is the
      previewed one exactly when it is predicted and does not repeat an EAN of the file: such a row is flagged twice. */
  lemma ConfirmedLines(
    db: Db, rows: seq<OfferRow>, actor: string, source: string, finalise: bool, settings: Settings)
    requires Valid(db) && Separate(db.products, rows)
    ensures var preview := DryImport(db.products, rows, source, settings);
      |preview.rows| == |rows| &&
      var actual := Import(db, Previewed(rows, preview.rows), actor, source, finalise, settings).1;
      && SameTallies(actual, preview) && |actual.rows| == |rows|
      && (forall i | 0 <= i < |rows| ::
            actual.rows[i] == preview.rows[i]
            <==> LinePredicted(db.products, rows, i, settings) && !RepeatsEan(rows, i))
  {
    var ps, s := db.products, DryState(EmptyReport(source), {}, map[]);
    assert rows[..|rows|] == rows;
    DryRunAgain(ps, s, rows, |rows|, settings);
    var preview := DryImport(ps, rows, source, settings);
    var warned := Previewed(rows, preview.rows);
    TwinsAreSeparate(ps, rows, warned);
    DryRunPredictsImport(db, warned, actor, source, finalise, settings);
    ComparedLines(Import(db, warned, actor, source, finalise, settings).1.rows,
                  DryImport(ps, warned, source, settings).rows,
                  preview.rows, ps, rows, warned, settings);
  }

  // ---- What it writes ----

  lemma {:induction false} TwinsWriteTheSame(s: RunState, t: RunState, rows: seq<OfferRow>, warned: seq<OfferRow>,
                                             settings: Settings, batch: Batch)
    requires TwinRows(rows, warned) && s.db == t.db && s.eans == t.eans
    requires SameTallies(s.report, t.report)
    ensures var a, b := RealRows(s, rows, settings, batch), RealRows(t, warned, settings, batch);
      a.db == b.db && a.eans == b.eans && SameTallies(a.report, b.report)
  {
    if rows != [] {
      var n := |rows| - 1;
      forall i | 0 <= i < n ensures Twins(rows[..n][i], warned[..n][i]) {
        assert Twins(rows[i], warned[i]);
      }
      TwinsWriteTheSame(s, t, rows[..n], warned[..n], settings, batch);
      assert Twins(rows[n], warned[n]);
      TwinWritesTheSame(RealRows(s, rows[..n], settings, batch), RealRows(t, warned[..n], settings, batch),
                        rows[n], warned[n], settings, batch);
    }
  }

  lemma TwinWritesTheSame(s: RunState, t: RunState, row: OfferRow, warned: OfferRow, settings: Settings, batch: Batch)
    requires Twins(row, warned) && s.db == t.db && s.eans == t.eans && SameTallies(s.report, t.report)
    ensures var a, b := RealRow(s, row, settings, batch), RealRow(t, warned, settings, batch);
      a.db == b.db && a.eans == b.eans && SameTallies(a.report, b.report)
  {
  }

  /** It leaves every table as an import of the rows as they were parsed. */
  lemma ConfirmedTables(
    db: Db, rows: seq<OfferRow>, actor: string, source: string, finalise: bool, settings: Settings)
    ensures var preview := DryImport(db.products, rows, source, settings);
      |preview.rows| == |rows|
      && Import(db, Previewed(rows, preview.rows), actor, source, finalise, settings).0
         == Import(db, rows, actor, source, finalise, settings).0
  {
    assert rows[..|rows|] == rows;
    DryRunAgain(db.products, DryState(EmptyReport(source), {}, map[]), rows, |rows|, settings);
    var warned := Previewed(rows, DryImport(db.products, rows, source, settings).rows);
    var s := Opened(db, source, actor, finalise);
    TwinsWriteTheSame(s, s, rows, warned, settings, BatchOf(db, actor, finalise));
  }
}
