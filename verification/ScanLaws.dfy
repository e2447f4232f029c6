/** What every scan keeps, and where repeated scans end. */
module ScanLaws {
  import opened Common
  import opened ScanSpec

  // ---- Counts ----

  /** Every scanned file is counted once, under one heading. */
  lemma {:induction false} CountsAddUp(s: State, pdfs: seq<Pdf>, world: World)
    ensures var c := Scan(s, pdfs, world).counts;
      c.scanned == |pdfs| && c.scanned == c.ingested + c.duplicate + c.error + c.skipped
  {
    if pdfs != [] {
      CountsAddUp(s, pdfs[..|pdfs| - 1], world);
    }
  }

  // ---- Deduplication ----

  predicate SameName(d: Doc, e: Doc) {
    d.supplier == e.supplier && d.filename == e.filename
  }

  predicate SameInvoiceNumber(d: Doc, e: Doc) {
    d.supplier == e.supplier && HasNumber(d) && d.number == e.number
  }

  /** Two stored documents differ in filename and in invoice number, within a supplier. */
  predicate Apart(d: Doc, e: Doc) {
    !SameName(d, e) && !SameInvoiceNumber(d, e)
  }

  predicate DocsApart(docs: seq<Doc>) {
    forall i, j {:trigger Apart(docs[i], docs[j])} | 0 <= i < j < |docs| :: Apart(docs[i], docs[j])
  }

  predicate HashesApart(ledger: Ledger) {
    forall p, q | p in ledger && q in ledger && p != q ::
      !(ledger[p].result == Ingested && ledger[q].result == Ingested)
      || ledger[p].sha != ledger[q].sha
  }

  predicate Deduplicated(s: State) {
    DocsApart(s.docs) && HashesApart(s.ledger)
  }

  lemma {:induction false} OthersFilters(docs: seq<Doc>, supplier: string, filename: string)
    ensures forall d :: (d in Others(docs, supplier, filename)
                         <==> d in docs && !(d.supplier == supplier && d.filename == filename))
  {
    if docs != [] {
      var n := |docs| - 1;
      OthersFilters(docs[..n], supplier, filename);
      assert docs == docs[..n] + [docs[n]];
    }
  }

  lemma {:induction false} OthersStayApart(docs: seq<Doc>, supplier: string, filename: string)
    requires DocsApart(docs)
    ensures DocsApart(Others(docs, supplier, filename))
  {
    if docs != [] {
      var n := |docs| - 1;
      assert DocsApart(docs[..n]) by {
        forall i, j | 0 <= i < j < n ensures Apart(docs[..n][i], docs[..n][j]) {
          assert Apart(docs[i], docs[j]);
        }
      }
      OthersStayApart(docs[..n], supplier, filename);
      OthersFilters(docs[..n], supplier, filename);
      var kept := Others(docs[..n], supplier, filename);
      forall i | 0 <= i < |kept| ensures Apart(kept[i], docs[n]) {
        assert kept[i] in docs[..n];
        var j :| 0 <= j < n && docs[j] == kept[i];
        assert Apart(docs[j], docs[n]);
      }
    }
  }

  lemma FirstNumberIsTheOnlyOne(docs: seq<Doc>, d: Doc, i: nat)
    requires DocsApart(docs) && HasNumber(d) && i < |docs|
    requires docs[i].supplier == d.supplier && docs[i].number == d.number
    ensures FindNumber(docs, d.supplier, d.number.value) == i
  {
    forall k | 0 <= k < i ensures !(docs[k].supplier == d.supplier && docs[k].number == d.number) {
      assert Apart(docs[k], docs[i]);
    }
  }

  lemma InsertStaysApart(docs: seq<Doc>, d: Doc)
    requires DocsApart(docs) && !NumberTaken(docs, d)
    ensures DocsApart(InsertDoc(docs, d))
  {
    OthersStayApart(docs, d.supplier, d.filename);
    OthersFilters(docs, d.supplier, d.filename);
    var kept := Others(docs, d.supplier, d.filename);
    forall i | 0 <= i < |kept| ensures Apart(kept[i], d) {
      assert kept[i] in docs;
      var j :| 0 <= j < |docs| && docs[j] == kept[i];
      if SameInvoiceNumber(kept[i], d) {
        FirstNumberIsTheOnlyOne(docs, d, j);
      }
    }
  }

  lemma IngestedStaysApart(ledger: Ledger, pdf: Pdf)
    requires HashesApart(ledger) && !ShaIngested(ledger, pdf.sha, pdf.path)
    ensures HashesApart(Ledgered(ledger, pdf, Ingested, "", 0))
  {
  }

  lemma OtherResultStaysApart(ledger: Ledger, pdf: Pdf, entry: Entry)
    requires HashesApart(ledger) && entry.result != Ingested
    ensures HashesApart(ledger[pdf.path := entry])
  {
  }

  lemma StoredOnlyWhenNew(s: State, pdf: Pdf, world: World)
    requires ScanFile(s, pdf, world).tally == TIngested
    ensures !ShaIngested(s.ledger, pdf.sha, pdf.path)
    ensures var p := ProcessPdf(s.docs, pdf, world);
      p.Stored? && !NumberTaken(s.docs, p.doc)
      && ScanFile(s, pdf, world).state == State(InsertDoc(s.docs, p.doc), Ledgered(s.ledger, pdf, Ingested, "", 0))
  {
  }

  lemma FileStaysDeduplicated(s: State, pdf: Pdf, world: World)
    requires Deduplicated(s)
    ensures Deduplicated(ScanFile(s, pdf, world).state)
  {
    if ScanFile(s, pdf, world).tally == TIngested {
      StoredOnlyWhenNew(s, pdf, world);
      InsertStaysApart(s.docs, ProcessPdf(s.docs, pdf, world).doc);
      IngestedStaysApart(s.ledger, pdf);
    } else if ScanFile(s, pdf, world).state.ledger != s.ledger {
      OtherResultStaysApart(s.ledger, pdf, ScanFile(s, pdf, world).state.ledger[pdf.path]);
    }
  }

  /** MAIN RESULT. Every scan keeps: one invoice per supplier and filename, one per supplier and
      non-empty invoice number, and pairwise different hashes among the files marked ingested. */
  lemma {:induction false} ScanStaysDeduplicated(s: State, pdfs: seq<Pdf>, world: World)
    requires Deduplicated(s)
    ensures Deduplicated(Scan(s, pdfs, world).state)
  {
    if pdfs != [] {
      ScanStaysDeduplicated(s, pdfs[..|pdfs| - 1], world);
      FileStaysDeduplicated(Scan(s, pdfs[..|pdfs| - 1], world).state, pdfs[|pdfs| - 1], world);
    }
  }

  // ---- One supplier never touches another ----

  function OfOthers(docs: seq<Doc>, supplier: string): seq<Doc> {
    if docs == [] then []
    else
      var n := |docs| - 1;
      if docs[n].supplier == supplier then OfOthers(docs[..n], supplier) else OfOthers(docs[..n], supplier) + [docs[n]]
  }

  lemma {:induction false} OthersOfOthers(docs: seq<Doc>, supplier: string, filename: string)
    ensures OfOthers(Others(docs, supplier, filename), supplier) == OfOthers(docs, supplier)
  {
    if docs != [] {
      var n := |docs| - 1;
      OthersOfOthers(docs[..n], supplier, filename);
      var kept := Others(docs[..n], supplier, filename);
      assert (kept + [docs[n]])[..|kept|] == kept;
    }
  }

  /** The rows of every other supplier stay exactly as they are, in order. */
  lemma FileTouchesOneSupplier(s: State, pdf: Pdf, world: World)
    ensures var step := ScanFile(s, pdf, world);
      if step.tally == TIngested then
        var supplier := ProcessPdf(s.docs, pdf, world).doc.supplier;
        OfOthers(step.state.docs, supplier) == OfOthers(s.docs, supplier)
        && (SupplierHint(pdf).Some? ==> supplier == SupplierHint(pdf).value)
      else step.state.docs == s.docs
  {
    if ScanFile(s, pdf, world).tally == TIngested {
      var d := ProcessPdf(s.docs, pdf, world).doc;
      OthersOfOthers(s.docs, d.supplier, d.filename);
      var kept := Others(s.docs, d.supplier, d.filename);
      assert (kept + [d])[..|kept|] == kept;
    }
  }

  // ---- Where repeated scans end ----

  predicate AttemptsBounded(ledger: Ledger) {
    forall p | p in ledger :: ledger[p].attempts <= 3
  }

  lemma {:induction false} AttemptsStayBounded(s: State, pdfs: seq<Pdf>, world: World)
    requires AttemptsBounded(s.ledger)
    ensures AttemptsBounded(Scan(s, pdfs, world).state.ledger)
  {
    if pdfs != [] {
      AttemptsStayBounded(s, pdfs[..|pdfs| - 1], world);
      FileKeepsAttemptsBounded(Scan(s, pdfs[..|pdfs| - 1], world).state, pdfs[|pdfs| - 1], world);
    }
  }

  /** An error is retried only below the bound. */
  lemma FileKeepsAttemptsBounded(s: State, pdf: Pdf, world: World)
    requires AttemptsBounded(s.ledger)
    ensures AttemptsBounded(ScanFile(s, pdf, world).state.ledger)
  {
  }

  predicate NoTransientErrors(pdfs: seq<Pdf>, world: World) {
    forall i | 0 <= i < |pdfs| :: var r := world.extract(pdfs[i].sha, CfgName(pdfs[i]));
      r.Failed? ==> !Transient(r.error)
  }

  /** Settled, or an error with at least `n` attempts on this version of the file. */
  predicate Tried(ledger: Ledger, pdf: Pdf, n: nat) {
    Settled(ledger, pdf)
    || (pdf.path in ledger && ledger[pdf.path].mtime == pdf.mtime && ledger[pdf.path].result == Error
        && ledger[pdf.path].attempts >= n)
  }

  lemma FileIsTried(s: State, pdf: Pdf, world: World, n: nat)
    requires n == 0 || Tried(s.ledger, pdf, n)
    requires var r := world.extract(pdf.sha, CfgName(pdf)); r.Failed? ==> !Transient(r.error)
    ensures Tried(ScanFile(s, pdf, world).state.ledger, pdf, n + 1)
  {
  }

  lemma OtherFilesKeepTheirEntries(s: State, pdf: Pdf, world: World, path: string)
    requires path != pdf.path
    ensures var l, l' := s.ledger, ScanFile(s, pdf, world).state.ledger;
      (path in l <==> path in l') && (path in l ==> l'[path] == l[path])
  {
  }

  lemma OtherFileIsAsTried(s: State, pdf: Pdf, other: Pdf, world: World, n: nat)
    requires other.path != pdf.path
    ensures Tried(ScanFile(s, pdf, world).state.ledger, other, n) <==> Tried(s.ledger, other, n)
  {
    OtherFilesKeepTheirEntries(s, pdf, world, other.path);
  }

  lemma {:induction false} EachFileIsTried(s: State, pdfs: seq<Pdf>, i: nat, world: World, n: nat)
    requires DistinctPaths(pdfs) && NoTransientErrors(pdfs, world) && i <= |pdfs|
    requires n == 0 || forall j | 0 <= j < |pdfs| :: Tried(s.ledger, pdfs[j], n)
    ensures var l := Scan(s, pdfs[..i], world).state.ledger;
      && (forall j | 0 <= j < i :: Tried(l, pdfs[j], n + 1))
      && (forall j | i <= j < |pdfs| :: n == 0 || Tried(l, pdfs[j], n))
  {
    if i > 0 {
      var k := i - 1;
      EachFileIsTried(s, pdfs, k, world, n);
      assert pdfs[..i][..k] == pdfs[..k];
      var before := Scan(s, pdfs[..k], world).state;
      FileIsTried(before, pdfs[k], world, n);
      var after := ScanFile(before, pdfs[k], world).state;
      forall j | 0 <= j < |pdfs| && j != k
        ensures Tried(after.ledger, pdfs[j], n) <==> Tried(before.ledger, pdfs[j], n)
        ensures Tried(after.ledger, pdfs[j], n + 1) <==> Tried(before.ledger, pdfs[j], n + 1)
      {
        OtherFileIsAsTried(before, pdfs[k], pdfs[j], world, n);
        OtherFileIsAsTried(before, pdfs[k], pdfs[j], world, n + 1);
      }
    }
  }

  lemma {:induction false} SettledScanIsIdle(s: State, pdfs: seq<Pdf>, world: World)
    requires forall j | 0 <= j < |pdfs| :: Settled(s.ledger, pdfs[j])
    ensures Scan(s, pdfs, world) == Scanned(s, Counts(|pdfs|, 0, 0, 0, |pdfs|))
  {
    if pdfs != [] {
      var n := |pdfs| - 1;
      assert forall j | 0 <= j < n :: pdfs[..n][j] == pdfs[j];
      SettledScanIsIdle(s, pdfs[..n], world);
    }
  }

  /** MAIN RESULT. With an unchanged folder and no transient errors, three scans settle every PDF from
      any ledger, even if extraction answers differently each time, and a fourth skips everything
      and changes nothing. */
  lemma ThreeScansReachAFixpoint(s: State, pdfs: seq<Pdf>, w1: World, w2: World, w3: World, w4: World)
    requires DistinctPaths(pdfs)
    requires NoTransientErrors(pdfs, w1) && NoTransientErrors(pdfs, w2) && NoTransientErrors(pdfs, w3)
    ensures var s3 := Scan(Scan(Scan(s, pdfs, w1).state, pdfs, w2).state, pdfs, w3).state;
      && (forall j | 0 <= j < |pdfs| :: Settled(s3.ledger, pdfs[j]))
      && Scan(s3, pdfs, w4) == Scanned(s3, Counts(|pdfs|, 0, 0, 0, |pdfs|))
  {
    var n := |pdfs|;
    assert pdfs[..n] == pdfs;
    var s1 := Scan(s, pdfs, w1).state;
    var s2 := Scan(s1, pdfs, w2).state;
    EachFileIsTried(s, pdfs, n, w1, 0);
    EachFileIsTried(s1, pdfs, n, w2, 1);
    EachFileIsTried(s2, pdfs, n, w3, 2);
    var s3 := Scan(s2, pdfs, w3).state;
    forall j | 0 <= j < n ensures Settled(s3.ledger, pdfs[j]) {
      assert Tried(s3.ledger, pdfs[j], 3);
    }
    SettledScanIsIdle(s3, pdfs, w4);
  }
}
