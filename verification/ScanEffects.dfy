/** What one file of a scan leaves behind: the supplier it is stored under, its document and its ledger row
    (epiproc/ingest/pipeline.py, epiproc/ingest/scan.py). */
module ScanEffects {
  import opened Common
  import opened ScanSpec
  import opened ScanLaws
  import Slug

  // ---- The supplier of an invoice ----

  /** The file lies in a folder of one supplier. */
  predicate InOwnFolder(pdf: Pdf) {
    !pdf.atRoot && Lower(pdf.parent) !in {"inbox", "imports", "incoming", "unsorted", "invoices", ""}
  }

  /** The lower-case words of the seller's name. */
  function SellerWords(record: Record): seq<string> {
    if record.sellerName.Some? then Slug.Words(Lower(record.sellerName.value)) else []
  }

  /** The folder decides; without one the words of the seller's name, less the legal forms at its end; without any
      the generic configuration; and last "unknown". */
  predicate IsSupplierOf(supplier: string, pdf: Pdf, record: Record, world: World) {
    && (InOwnFolder(pdf) ==> supplier == pdf.parent)
    && (!InOwnFolder(pdf) && SellerWords(record) != [] ==>
          supplier == Slug.Join(Slug.DropForms(SellerWords(record))))
    && (!InOwnFolder(pdf) && SellerWords(record) == [] && world.cfgSupplier("_generic") != "" ==>
          supplier == world.cfgSupplier("_generic"))
    && (!InOwnFolder(pdf) && SellerWords(record) == [] && world.cfgSupplier("_generic") == "" ==>
          supplier == "unknown")
  }

  lemma SlugOfSeller(record: Record)
    ensures Slug.SlugOf(record.sellerName) ==
      if SellerWords(record) == [] then None else Some(Slug.Join(Slug.DropForms(SellerWords(record))))
  {
    if record.sellerName.Some? {
      Slug.SlugIsJoinedWords(record.sellerName.value);
    }
  }

  lemma SupplierIsFound(pdf: Pdf, record: Record, world: World)
    ensures IsSupplierOf(SupplierOf(pdf, record, world), pdf, record, world)
  {
    SlugOfSeller(record);
  }

  // ---- The stored document ----

  /** What a file reads as: under its folder's configuration, or the generic one. */
  function Reading(pdf: Pdf, world: World): Extraction {
    world.extract(pdf.sha, if InOwnFolder(pdf) then pdf.parent else "_generic")
  }

  /** The document shows the file and what was read from it; it is for review when nothing was. */
  predicate ShowsReading(d: Doc, pdf: Pdf, record: Record, notes: seq<string>, world: World) {
    && IsSupplierOf(d.supplier, pdf, record, world)
    && d.filename == pdf.name && d.path == pdf.path
    && d.number == record.invoiceNumber && d.total == record.total && d.items == record.items
    && d.rawJson == record.rawJson && d.notes == notes
    && d.status == (if record.items == [] && record.total == None then "review" else "extracted")
  }

  /** An ingested file adds one document, the last, that shows its reading. */
  lemma IngestedFileShowsItsReading(s: State, pdf: Pdf, world: World)
    requires ScanFile(s, pdf, world).tally == TIngested
    ensures var docs, r := ScanFile(s, pdf, world).state.docs, Reading(pdf, world);
      docs != [] && r.Extracted? && ShowsReading(docs[|docs| - 1], pdf, r.record, r.notes, world)
  {
    SupplierIsFound(pdf, Reading(pdf, world).record, world);
  }

  // ---- One supplier's documents never hold back another's ----

  function FirstWithNumber(docs: seq<Doc>, supplier: string, number: string): Option<Doc> {
    var k := FindNumber(docs, supplier, number);
    if k < |docs| then Some(docs[k]) else None
  }

  lemma FoundAt(docs: seq<Doc>, supplier: string, number: string, k: nat)
    requires k <= |docs|
    requires k < |docs| ==> docs[k].supplier == supplier && docs[k].number == Some(number)
    requires forall i | 0 <= i < k :: !(docs[i].supplier == supplier && docs[i].number == Some(number))
    ensures FindNumber(docs, supplier, number) == k
  {
  }

  lemma FirstOfOneMore(docs: seq<Doc>, e: Doc, supplier: string, number: string)
    ensures FirstWithNumber(docs + [e], supplier, number)
      == if FirstWithNumber(docs, supplier, number).Some? then FirstWithNumber(docs, supplier, number)
         else if e.supplier == supplier && e.number == Some(number) then Some(e) else None
  {
    var k := FindNumber(docs, supplier, number);
    if k < |docs| {
      FoundAt(docs + [e], supplier, number, k);
    } else if e.supplier == supplier && e.number == Some(number) {
      FoundAt(docs + [e], supplier, number, |docs|);
    } else {
      FoundAt(docs + [e], supplier, number, |docs| + 1);
    }
  }

  lemma {:induction false} FirstAmongOthers(docs: seq<Doc>, other: string, supplier: string, number: string)
    requires supplier != other
    ensures FirstWithNumber(OfOthers(docs, other), supplier, number) == FirstWithNumber(docs, supplier, number)
  {
    if docs != [] {
      var n := |docs| - 1;
      FirstAmongOthers(docs[..n], other, supplier, number);
      assert docs == docs[..n] + [docs[n]];
      FirstOfOneMore(docs[..n], docs[n], supplier, number);
      FirstOfOneMore(OfOthers(docs[..n], other), docs[n], supplier, number);
    }
  }

  lemma {:induction false} OthersAreKept(docs: seq<Doc>, other: string, d: Doc)
    requires d.supplier != other
    ensures d in OfOthers(docs, other) <==> d in docs
  {
    if docs != [] {
      var n := |docs| - 1;
      OthersAreKept(docs[..n], other, d);
      assert docs == docs[..n] + [docs[n]];
    }
  }

  lemma NameAmongOthers(docs: seq<Doc>, docs': seq<Doc>, other: string, supplier: string, filename: string)
    requires supplier != other && OfOthers(docs, other) == OfOthers(docs', other)
    ensures HasName(docs', supplier, filename) ==> HasName(docs, supplier, filename)
  {
    if HasName(docs', supplier, filename) {
      var i :| 0 <= i < |docs'| && docs'[i].supplier == supplier && docs'[i].filename == filename;
      OthersAreKept(docs', other, docs'[i]);
      OthersAreKept(docs, other, docs'[i]);
      assert docs'[i] in docs;
      var j :| 0 <= j < |docs| && docs[j] == docs'[i];
    }
  }

  lemma NumberAmongOthers(docs: seq<Doc>, docs': seq<Doc>, other: string, d: Doc)
    requires d.supplier != other && OfOthers(docs, other) == OfOthers(docs', other)
    ensures NumberTaken(docs', d) <==> NumberTaken(docs, d)
  {
    if HasNumber(d) {
      FirstAmongOthers(docs, other, d.supplier, d.number.value);
      FirstAmongOthers(docs', other, d.supplier, d.number.value);
    }
  }

  lemma EntryIsOldOrNew(s: State, p: Pdf, world: World)
    ensures var l := ScanFile(s, p, world).state.ledger;
      l == s.ledger || (p.path in l && l[p.path].sha == p.sha)
  {
  }

  /** A file with other bytes at another path leaves no entry that could hold this one back. */
  lemma LedgerHoldsNobodyBack(s: State, p: Pdf, q: Pdf, world: World)
    requires p.path != q.path && p.sha != q.sha
    requires !Settled(s.ledger, q) && !ShaIngested(s.ledger, q.sha, q.path)
    ensures var l := ScanFile(s, p, world).state.ledger; !Settled(l, q) && !ShaIngested(l, q.sha, q.path)
  {
    var l := ScanFile(s, p, world).state.ledger;
    OtherFilesKeepTheirEntries(s, p, world, q.path);
    EntryIsOldOrNew(s, p, world);
    forall path | path in l && path != q.path ensures !(l[path].sha == q.sha && l[path].result == Ingested) {
      if path != p.path {
        OtherFilesKeepTheirEntries(s, p, world, path);
      }
    }
  }

  lemma DocsHoldNobodyBack(docs: seq<Doc>, docs': seq<Doc>, other: string, q: Pdf, world: World)
    requires Reading(q, world).Extracted?
    requires SupplierOf(q, Reading(q, world).record, world) != other
    requires OfOthers(docs, other) == OfOthers(docs', other)
    ensures NameTaken(docs', q) ==> NameTaken(docs, q)
    ensures ProcessPdf(docs, q, world).Stored? ==> ProcessPdf(docs', q, world) == ProcessPdf(docs, q, world)
  {
    var r := Reading(q, world);
    if NameTaken(docs', q) {
      NameAmongOthers(docs, docs', other, SupplierHint(q).value, q.name);
    }
    NumberAmongOthers(docs, docs', other, DocOf(q, r.record, r.notes, world));
  }

  lemma IngestedExactlyWhen(s: State, q: Pdf, world: World)
    ensures var step, p := ScanFile(s, q, world), ProcessPdf(s.docs, q, world);
      && (step.tally == TIngested <==>
            !Settled(s.ledger, q) && !ShaIngested(s.ledger, q.sha, q.path) && !NameTaken(s.docs, q) && p.Stored?)
      && (step.tally == TIngested ==>
            step.state.docs != [] && step.state.docs[|step.state.docs| - 1] == p.doc)
  {
  }

  lemma FileKeepsOthers(s: State, p: Pdf, world: World)
    requires Reading(p, world).Extracted?
    ensures var supplier := SupplierOf(p, Reading(p, world).record, world);
      OfOthers(ScanFile(s, p, world).state.docs, supplier) == OfOthers(s.docs, supplier)
  {
    FileTouchesOneSupplier(s, p, world);
    if ScanFile(s, p, world).tally == TIngested {
      StoredUnderItsSupplier(s.docs, p, world);
    }
  }

  lemma StoredUnderItsSupplier(docs: seq<Doc>, p: Pdf, world: World)
    requires ProcessPdf(docs, p, world).Stored?
    ensures Reading(p, world).Extracted?
    ensures ProcessPdf(docs, p, world).doc.supplier == SupplierOf(p, Reading(p, world).record, world)
  {
  }

  lemma SupplierIsUnique(pdf: Pdf, record: Record, world: World, supplier: string)
    requires IsSupplierOf(supplier, pdf, record, world)
    ensures supplier == SupplierOf(pdf, record, world)
  {
    SupplierIsFound(pdf, record, world);
  }

  /** MAIN RESULT. Whatever is stored, a file never holds back one of another supplier with other bytes: what would be
      stored before it is stored after it, as the same document. */
  lemma OtherSuppliersNeverDropIt(s: State, p: Pdf, q: Pdf, world: World, supplier: string, other: string)
    requires p.path != q.path && p.sha != q.sha
    requires Reading(p, world).Extracted? && Reading(q, world).Extracted? && supplier != other
    requires IsSupplierOf(other, p, Reading(p, world).record, world)
    requires IsSupplierOf(supplier, q, Reading(q, world).record, world)
    requires ScanFile(s, q, world).tally == TIngested
    ensures var before, after := ScanFile(s, q, world), ScanFile(ScanFile(s, p, world).state, q, world);
      && after.tally == TIngested && before.state.docs != [] && after.state.docs != []
      && after.state.docs[|after.state.docs| - 1] == before.state.docs[|before.state.docs| - 1]
  {
    SupplierIsUnique(p, Reading(p, world).record, world, other);
    SupplierIsUnique(q, Reading(q, world).record, world, supplier);
    FileKeepsOthers(s, p, world);
    IngestedExactlyWhen(s, q, world);
    LedgerHoldsNobodyBack(s, p, q, world);
    DocsHoldNobodyBack(s.docs, ScanFile(s, p, world).state.docs, other, q, world);
    IngestedExactlyWhen(ScanFile(s, p, world).state, q, world);
  }

  /** Two inbox files whose sellers differ in their words, legal forms apart, never drop each other, by number or by
      filename, whatever the configuration says. */
  lemma DifferentSellersAreBothStored(s: State, p: Pdf, q: Pdf, world: World)
    requires p.path != q.path && p.sha != q.sha && !InOwnFolder(p) && !InOwnFolder(q)
    requires Reading(p, world).Extracted? && Reading(q, world).Extracted?
    requires var v, w := SellerWords(Reading(p, world).record), SellerWords(Reading(q, world).record);
      v != [] && w != [] && Slug.DropForms(v) != Slug.DropForms(w)
    requires ScanFile(s, q, world).tally == TIngested
    ensures ScanFile(ScanFile(s, p, world).state, q, world).tally == TIngested
  {
    var v, w := Slug.DropForms(SellerWords(Reading(p, world).record)),
                Slug.DropForms(SellerWords(Reading(q, world).record));
    DifferentWordsJoinDifferently(SellerWords(Reading(p, world).record), SellerWords(Reading(q, world).record));
    OtherSuppliersNeverDropIt(s, p, q, world, Slug.Join(w), Slug.Join(v));
  }

  lemma DifferentWordsJoinDifferently(v: seq<string>, w: seq<string>)
    requires Slug.AllWords(v) && Slug.AllWords(w) && Slug.DropForms(v) != Slug.DropForms(w)
    ensures Slug.Join(Slug.DropForms(v)) != Slug.Join(Slug.DropForms(w))
  {
    Slug.DropFormsIsPrefix(v);
    Slug.DropFormsIsPrefix(w);
    Slug.WordsOfJoin(Slug.DropForms(v));
    Slug.WordsOfJoin(Slug.DropForms(w));
  }

  // ---- The ledger row ----

  /** Connectivity words, in any case. */
  ghost predicate Mentions(error: string, word: string) {
    exists before, after :: Occurs(Lower(error), before, word, after)
  }

  lemma TransientMentions(error: string)
    ensures var e := Strip(error);
      Transient(error) <==>
        Mentions(e, "unreachable") || Mentions(e, "connection") || Mentions(e, "timeout") || Mentions(e, "timed out")
  {
    MentionsWhatItContains(Strip(error), "unreachable");
    MentionsWhatItContains(Strip(error), "connection");
    MentionsWhatItContains(Strip(error), "timeout");
    MentionsWhatItContains(Strip(error), "timed out");
  }

  lemma MentionsWhatItContains(error: string, word: string)
    ensures Contains(Lower(error), word) <==> Mentions(error, word)
  {
    ContainsWhereItOccurs(Lower(error), word);
  }

  /** Handled before at this time of change, and not as an error that was met less than three times. */
  predicate IsDone(ledger: Ledger, pdf: Pdf) {
    && pdf.path in ledger && ledger[pdf.path].mtime == pdf.mtime
    && (ledger[pdf.path].result == Error ==> ledger[pdf.path].attempts >= 3)
  }

  /** How often this version of the file has failed. */
  function Failures(ledger: Ledger, pdf: Pdf): nat {
    if pdf.path in ledger && ledger[pdf.path].mtime == pdf.mtime then ledger[pdf.path].attempts else 0
  }

  /** A file is skipped exactly when it is done, and then nothing changes; only ingested files change the documents. */
  lemma SkippedExactlyWhenDone(s: State, pdf: Pdf, world: World)
    ensures var step := ScanFile(s, pdf, world);
      && (step.tally == TSkipped <==> IsDone(s.ledger, pdf))
      && (step.tally == TSkipped ==> step.state == s)
      && (step.tally != TIngested ==> step.state.docs == s.docs)
  {
  }

  /** The row of an ingested or dropped file says so, of this version and these bytes, and forgets earlier failures. */
  lemma RowTellsTheOutcome(s: State, pdf: Pdf, world: World)
    requires ScanFile(s, pdf, world).tally in {TIngested, TDuplicate}
    ensures var step := ScanFile(s, pdf, world);
      var l := step.state.ledger;
      && pdf.path in l && l[pdf.path].mtime == pdf.mtime && l[pdf.path].sha == pdf.sha && l[pdf.path].attempts == 0
      && l[pdf.path].result == (if step.tally == TIngested then Ingested else Duplicate)
  {
  }

  lemma FailureIsRecorded(s: State, pdf: Pdf, error: string)
    ensures var l := RecordOutcome(s, pdf, Broken(error)).state.ledger;
      if Transient(error) then l == s.ledger
      else l == Ledgered(s.ledger, pdf, Error, Truncate(Strip(error)), Failures(s.ledger, pdf) + 1)
  {
  }

  lemma FailedExactlyWhen(s: State, pdf: Pdf, world: World)
    requires ScanFile(s, pdf, world).tally == TError
    ensures Reading(pdf, world).Failed?
    ensures ScanFile(s, pdf, world) == RecordOutcome(s, pdf, Broken(Reading(pdf, world).error))
  {
  }

  /** The row of a failed file counts one more failure of this version and keeps 500 characters of the error; a
      transient failure leaves the ledger as it was. */
  lemma RowCountsTheFailure(s: State, pdf: Pdf, world: World)
    requires ScanFile(s, pdf, world).tally == TError
    ensures Reading(pdf, world).Failed?
    ensures var l, error := ScanFile(s, pdf, world).state.ledger, Reading(pdf, world).error;
      if Transient(error) then l == s.ledger
      else
        && pdf.path in l && l[pdf.path].mtime == pdf.mtime && l[pdf.path].sha == pdf.sha
        && l[pdf.path].result == Error && l[pdf.path].attempts == Failures(s.ledger, pdf) + 1
        && l[pdf.path].message <= Strip(error)
        && |l[pdf.path].message| == if |Strip(error)| <= 500 then |Strip(error)| else 500
  {
    FailedExactlyWhen(s, pdf, world);
    FailureIsRecorded(s, pdf, Reading(pdf, world).error);
  }

  /** Some other path holds these bytes, ingested. */
  predicate BytesAreIn(ledger: Ledger, pdf: Pdf) {
    exists p :: p in ledger && p != pdf.path && ledger[p].sha == pdf.sha && ledger[p].result == Ingested
  }

  /** Some document is stored under this supplier and filename. */
  predicate NameIsIn(docs: seq<Doc>, supplier: string, filename: string) {
    exists i :: 0 <= i < |docs| && docs[i].supplier == supplier && docs[i].filename == filename
  }

  /** The first stored document of this supplier with this non-empty number has another filename. */
  predicate NumberIsIn(docs: seq<Doc>, supplier: string, number: Option<string>, filename: string) {
    number.GetOr("") != "" &&
    exists i :: 0 <= i < |docs| && docs[i].supplier == supplier && docs[i].number == number
      && docs[i].filename != filename
      && forall j | 0 <= j < i :: !(docs[j].supplier == supplier && docs[j].number == number)
  }

  /** A file is dropped as a duplicate for exactly three reasons: its bytes are ingested under another path; its name
      is stored under its own folder's supplier; its number is stored under its supplier and another name. */
  lemma DuplicateExactlyWhen(s: State, pdf: Pdf, world: World, supplier: string)
    requires Reading(pdf, world).Extracted? ==> IsSupplierOf(supplier, pdf, Reading(pdf, world).record, world)
    ensures ScanFile(s, pdf, world).tally == TDuplicate <==>
      && !IsDone(s.ledger, pdf)
      && (BytesAreIn(s.ledger, pdf)
          || (InOwnFolder(pdf) && NameIsIn(s.docs, pdf.parent, pdf.name))
          || (Reading(pdf, world).Extracted?
              && NumberIsIn(s.docs, supplier, Reading(pdf, world).record.invoiceNumber, pdf.name)))
  {
    var r := Reading(pdf, world);
    HeldBackEarly(s, pdf);
    if r.Extracted? {
      SupplierIsUnique(pdf, r.record, world, supplier);
      NumberIsFound(s.docs, DocOf(pdf, r.record, r.notes, world));
    }
  }

  lemma HeldBackEarly(s: State, pdf: Pdf)
    ensures Settled(s.ledger, pdf) <==> IsDone(s.ledger, pdf)
    ensures ShaIngested(s.ledger, pdf.sha, pdf.path) <==> BytesAreIn(s.ledger, pdf)
    ensures NameTaken(s.docs, pdf) <==> InOwnFolder(pdf) && NameIsIn(s.docs, pdf.parent, pdf.name)
  {
  }

  lemma NumberIsFound(docs: seq<Doc>, d: Doc)
    ensures NumberTaken(docs, d) <==> NumberIsIn(docs, d.supplier, d.number, d.filename)
  {
    if HasNumber(d) {
      var k := FindNumber(docs, d.supplier, d.number.value);
      forall i | 0 <= i < |docs| && docs[i].supplier == d.supplier && docs[i].number == d.number
        && forall j | 0 <= j < i :: !(docs[j].supplier == d.supplier && docs[j].number == d.number)
        ensures i == k
      {
        FoundAt(docs, d.supplier, d.number.value, i);
      }
    }
  }

  // ---- What a dropped file's row says ----

  lemma CopySaysSo(s: State, pdf: Pdf, world: World)
    requires !IsDone(s.ledger, pdf) && BytesAreIn(s.ledger, pdf)
    ensures var l := ScanFile(s, pdf, world).state.ledger;
      pdf.path in l && l[pdf.path].message == "same content as an already-ingested file"
  {
    HeldBackEarly(s, pdf);
  }

  lemma NamesakeSaysSo(s: State, pdf: Pdf, world: World)
    requires !IsDone(s.ledger, pdf) && !BytesAreIn(s.ledger, pdf)
    requires InOwnFolder(pdf) && NameIsIn(s.docs, pdf.parent, pdf.name)
    ensures var l := ScanFile(s, pdf, world).state.ledger;
      pdf.path in l && l[pdf.path].message == "filename already present in invoices"
  {
    HeldBackEarly(s, pdf);
  }

  /** Otherwise the row names the repeated number and the stored document that has it. */
  lemma RepeatedNumberSaysSo(s: State, pdf: Pdf, world: World, supplier: string)
    requires ScanFile(s, pdf, world).tally == TDuplicate && !BytesAreIn(s.ledger, pdf)
    requires !(InOwnFolder(pdf) && NameIsIn(s.docs, pdf.parent, pdf.name))
    requires Reading(pdf, world).Extracted? && IsSupplierOf(supplier, pdf, Reading(pdf, world).record, world)
    ensures var l, number := ScanFile(s, pdf, world).state.ledger, Reading(pdf, world).record.invoiceNumber;
      && number.Some? && pdf.path in l
      && (exists d :: d in s.docs && d.supplier == supplier && d.number == number && l[pdf.path].message
            == "invoice_number " + number.value + " already present (of " + d.filename + ")")
  {
    HeldBackEarly(s, pdf);
    var record := Reading(pdf, world).record;
    SupplierIsUnique(pdf, record, world, supplier);
    var number := record.invoiceNumber;
    var d := s.docs[FindNumber(s.docs, supplier, number.value)];
    assert d in s.docs;
    MessageNamesBoth(number.value, d.filename);
  }

  lemma MessageNamesBoth(number: string, of: string)
    ensures NumberMessage(number, of) == "invoice_number " + number + " already present (of " + of + ")"
  {
  }

  // ---- The counts ----

  /** One more file is counted as scanned and under its own outcome, and under no other. */
  lemma CountedUnderItsOutcome(s: State, pdfs: seq<Pdf>, pdf: Pdf, world: World)
    ensures var before, after := Scan(s, pdfs, world).counts, Scan(s, pdfs + [pdf], world).counts;
      var tally := ScanFile(Scan(s, pdfs, world).state, pdf, world).tally;
      && after.scanned == before.scanned + 1
      && after.ingested == before.ingested + (if tally == TIngested then 1 else 0)
      && after.duplicate == before.duplicate + (if tally == TDuplicate then 1 else 0)
      && after.error == before.error + (if tally == TError then 1 else 0)
      && after.skipped == before.skipped + (if tally == TSkipped then 1 else 0)
  {
    assert (pdfs + [pdf])[..|pdfs|] == pdfs;
  }
}
