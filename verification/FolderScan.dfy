/** `process_pdf` and `scan_and_process` on the tables they update (epiproc/ingest/pipeline.py,
    epiproc/ingest/scan.py). */
module FolderScan {
  import opened Common
  import opened ScanSpec
  import opened InvoiceStore
  import Slug

  datatype PdfStatus = PdfIngested(invoiceId: nat) | PdfDuplicate(number: string, of: string) | PdfError(error: string)

  /** The ledger row of this path refers to a stored invoice. */
  predicate NamesItsInvoice(files: IngestedFiles, path: string, table: InvoiceTable)
    reads files, table
  {
    path in files.rows && files.rows[path].invoiceId.Some? && HasId(table.invoices, files.rows[path].invoiceId.value)
  }

  /** Extract one PDF, correct it, dedup it within its supplier, and store it. */
  method ProcessOnePdf(pdf: Pdf, world: World, table: InvoiceTable) returns (status: PdfStatus)
    requires table.Valid()
    modifies table
    ensures table.Valid()
    ensures status.PdfIngested? ==> HasId(table.invoices, status.invoiceId)
    ensures match ProcessPdf(old(table.Docs()), pdf, world)
      case Stored(d) => status.PdfIngested? && table.Docs() == InsertDoc(old(table.Docs()), d)
      case SameNumber(number, of) => status == PdfDuplicate(number, of) && table.Docs() == old(table.Docs())
      case Broken(error) => status == PdfError(error) && table.Docs() == old(table.Docs())
  {
    var hint := SupplierHint(pdf);
    var res := world.extract(pdf.sha, hint.GetOr("_generic"));
    if res.Failed? {
      return PdfError(res.error);
    }
    var record := res.record;
    var supplier := hint;
    if supplier.None? {
      supplier := Slug.SlugSupplier(record.sellerName);
    }
    if supplier.None? && world.cfgSupplier(CfgName(pdf)) != "" {
      supplier := Some(world.cfgSupplier(CfgName(pdf)));
    }
    var key := supplier.GetOr("unknown");
    if record.invoiceNumber.Some? && record.invoiceNumber.value != "" {
      var docs := table.Docs();
      var k := FindNumber(docs, key, record.invoiceNumber.value);
      if k < |docs| && docs[k].filename != pdf.name {
        return PdfDuplicate(record.invoiceNumber.value, docs[k].filename);
      }
    }
    var id := table.InsertRecord(key, pdf.name, record, res.notes, Verify(record), pdf.path);
    status := PdfIngested(id);
  }

  /** One file of the scan; the ledger row of an ingested file names the invoice it produced. */
  method HandleFile(pdf: Pdf, world: World, table: InvoiceTable, files: IngestedFiles) returns (tally: Tally)
    requires table.Valid()
    modifies table, files
    ensures table.Valid()
    ensures Step(State(table.Docs(), files.Entries()), tally)
      == ScanFile(State(old(table.Docs()), old(files.Entries())), pdf, world)
    ensures tally == TIngested ==> NamesItsInvoice(files, pdf.path, table)
  {
    var led := files.Get(pdf.path);
    if led.Some? && led.value.entry.mtime == pdf.mtime
       && !(led.value.entry.result == Error && led.value.entry.attempts < MAX_ATTEMPTS) {
      return TSkipped;
    }
    var copy := files.ShaIngested(pdf.sha, pdf.path);
    if copy {
      files.Record(pdf.path, pdf.mtime, pdf.sha, None, Duplicate, "same content as an already-ingested file", 0);
      return TDuplicate;
    }
    var hint := SupplierHint(pdf);
    if hint.Some? && HasName(table.Docs(), hint.value, pdf.name) {
      files.Record(pdf.path, pdf.mtime, pdf.sha, None, Duplicate, "filename already present in invoices", 0);
      return TDuplicate;
    }
    var previous := if led.Some? && led.value.entry.mtime == pdf.mtime then led.value.entry.attempts else 0;
    tally := ProcessAndRecord(pdf, world, table, files, previous);
  }

  /** A failed PDF is ledgered with one more attempt, unless the failure is transient. */
  method RecordFailure(pdf: Pdf, error: string, files: IngestedFiles, previous: nat)
    modifies files
    ensures files.Entries() == if Transient(error) then old(files.Entries())
                               else Ledgered(old(files.Entries()), pdf, Error, Truncate(Strip(error)), previous + 1)
  {
    if !Transient(error) {
      files.Record(pdf.path, pdf.mtime, pdf.sha, None, Error, Truncate(Strip(error)), previous + 1);
    }
  }

  /** The pipeline, then its ledger commit. */
  method ProcessAndRecord(pdf: Pdf, world: World, table: InvoiceTable, files: IngestedFiles, previous: nat)
    returns (tally: Tally)
    requires table.Valid() && previous == PreviousAttempts(files.Entries(), pdf)
    modifies table, files
    ensures table.Valid()
    ensures Step(State(table.Docs(), files.Entries()), tally)
      == RecordOutcome(State(old(table.Docs()), old(files.Entries())), pdf, ProcessPdf(old(table.Docs()), pdf, world))
    ensures tally == TIngested ==> NamesItsInvoice(files, pdf.path, table)
  {
    var status := ProcessOnePdf(pdf, world, table);
    match status
    case PdfIngested(id) =>
      files.Record(pdf.path, pdf.mtime, pdf.sha, Some(id), Ingested, "", 0);
      tally := TIngested;
    case PdfDuplicate(number, of) =>
      files.Record(pdf.path, pdf.mtime, pdf.sha, None, Duplicate, NumberMessage(number, of), 0);
      tally := TDuplicate;
    case PdfError(error) =>
      RecordFailure(pdf, error, files, previous);
      tally := TError;
  }

  /** The folder scan. */
  method ScanAndProcess(pdfs: seq<Pdf>, world: World, table: InvoiceTable, files: IngestedFiles)
    returns (counts: Counts)
    requires table.Valid()
    modifies table, files
    ensures table.Valid()
    ensures Scanned(State(table.Docs(), files.Entries()), counts)
      == Scan(State(old(table.Docs()), old(files.Entries())), pdfs, world)
  {
    counts := NO_COUNTS;
    assert pdfs[..0] == [];
    for i := 0 to |pdfs|
      invariant table.Valid()
      invariant Scanned(State(table.Docs(), files.Entries()), counts)
        == Scan(State(old(table.Docs()), old(files.Entries())), pdfs[..i], world)
    {
      assert pdfs[..i + 1][..i] == pdfs[..i];
      var tally := HandleFile(pdfs[i], world, table, files);
      counts := Count(counts, tally);
    }
    assert pdfs[..|pdfs|] == pdfs;
  }
}
