/** The folder scan on values: invoices as documents without row ids, the ledger by path
    (epiproc/ingest/scan.py, pipeline.py, db/invoices.py, db/ingested.py).

    Extraction is a function of a file's bytes and the supplier configuration; a file's digest
    stands for its bytes. */
module ScanSpec {
  import opened Common
  import Slug

  datatype LineItem = LineItem(
    position: Option<int>, article: Option<string>, quantity: Option<real>, unit: Option<string>,
    description: Option<string>, unitPrice: Option<real>, totalPrice: Option<real>, lineDiscount: Option<real>)

  /** An extracted and corrected record; `rawJson` stands for every column copied from it unchanged. */
  datatype Record = Record(
    sellerName: Option<string>, invoiceNumber: Option<string>, total: Option<real>, items: seq<LineItem>,
    rawJson: string)

  datatype Extraction = Extracted(record: Record, notes: seq<string>) | Failed(error: string)

  /** What extraction makes of given bytes under a configuration, and each configuration's supplier. */
  datatype World = World(extract: (string, string) -> Extraction, cfgSupplier: string -> string)

  /** A stored invoice with its line items, up to row ids. */
  datatype Doc = Doc(
    supplier: string, filename: string, number: Option<string>, total: Option<real>, rawJson: string,
    notes: seq<string>, status: string, path: string, items: seq<LineItem>)

  /** A PDF in the folder. */
  datatype Pdf = Pdf(path: string, name: string, parent: string, atRoot: bool, mtime: int, sha: string)

  datatype Outcome = Ingested | Duplicate | Error

  /** A ledger row, up to the invoice id it may carry; no message is "". */
  datatype Entry = Entry(mtime: int, sha: string, result: Outcome, message: string, attempts: nat)

  type Ledger = map<string, Entry>

  datatype State = State(docs: seq<Doc>, ledger: Ledger)

  const MAX_ATTEMPTS := 3

  const DROPBOX := {"inbox", "imports", "incoming", "unsorted", "invoices", ""}

  // ---- Invoices ----

  /** All documents but the one stored under this supplier and filename. */
  function Others(docs: seq<Doc>, supplier: string, filename: string): seq<Doc> {
    if docs == [] then []
    else
      var n := |docs| - 1;
      if docs[n].supplier == supplier && docs[n].filename == filename then Others(docs[..n], supplier, filename)
      else Others(docs[..n], supplier, filename) + [docs[n]]
  }

  /** `insert_record`: delete, then insert. */
  function InsertDoc(docs: seq<Doc>, d: Doc): seq<Doc> {
    Others(docs, d.supplier, d.filename) + [d]
  }

  predicate HasName(docs: seq<Doc>, supplier: string, filename: string) {
    exists i :: 0 <= i < |docs| && docs[i].supplier == supplier && docs[i].filename == filename
  }

  /** First document of a supplier with this invoice number, or |docs|. */
  function FindNumber(docs: seq<Doc>, supplier: string, number: string): (k: nat)
    ensures k <= |docs|
    ensures k < |docs| ==> docs[k].supplier == supplier && docs[k].number == Some(number)
    ensures forall i | 0 <= i < k :: !(docs[i].supplier == supplier && docs[i].number == Some(number))
  {
    if docs == [] || (docs[0].supplier == supplier && docs[0].number == Some(number)) then 0
    else 1 + FindNumber(docs[1..], supplier, number)
  }

  // ---- One PDF through the pipeline ----

  function SupplierHint(pdf: Pdf): Option<string> {
    if pdf.atRoot || Lower(pdf.parent) in DROPBOX then None else Some(pdf.parent)
  }

  function CfgName(pdf: Pdf): string {
    SupplierHint(pdf).GetOr("_generic")
  }

  function SupplierOf(pdf: Pdf, record: Record, world: World): string {
    if SupplierHint(pdf).Some? then SupplierHint(pdf).value
    else if Slug.SlugOf(record.sellerName).Some? then Slug.SlugOf(record.sellerName).value
    else if world.cfgSupplier(CfgName(pdf)) != "" then world.cfgSupplier(CfgName(pdf))
    else "unknown"
  }

  /** A record without items and total is for a human to review. */
  function Verify(record: Record): string {
    if record.items == [] && record.total.None? then "review" else "extracted"
  }

  function DocOf(pdf: Pdf, record: Record, notes: seq<string>, world: World): Doc {
    Doc(SupplierOf(pdf, record, world), pdf.name, record.invoiceNumber, record.total, record.rawJson, notes,
        Verify(record), pdf.path, record.items)
  }

  datatype Processed = Stored(doc: Doc) | SameNumber(number: string, of: string) | Broken(error: string)

  predicate HasNumber(d: Doc) {
    d.number.Some? && d.number.value != ""
  }

  /** Another file of the same supplier already carries this invoice number. */
  predicate NumberTaken(docs: seq<Doc>, d: Doc) {
    HasNumber(d) &&
    var k := FindNumber(docs, d.supplier, d.number.value);
    k < |docs| && docs[k].filename != d.filename
  }

  /** `process_pdf`: extract, correct, dedup within the supplier, store. */
  function ProcessPdf(docs: seq<Doc>, pdf: Pdf, world: World): Processed {
    match world.extract(pdf.sha, CfgName(pdf))
    case Failed(error) => Broken(error)
    case Extracted(record, notes) =>
      var d := DocOf(pdf, record, notes, world);
      if NumberTaken(docs, d) then
        SameNumber(d.number.value, docs[FindNumber(docs, d.supplier, d.number.value)].filename)
      else Stored(d)
  }

  /** Connectivity errors are left unledgered. */
  predicate Transient(error: string) {
    var e := Lower(Strip(error));
    Contains(e, "unreachable") || Contains(e, "connection") || Contains(e, "timeout") || Contains(e, "timed out")
  }

  // ---- The ledger ----

  /** Same bytes already ingested under another path. */
  predicate ShaIngested(ledger: Ledger, sha: string, path: string) {
    exists p :: p in ledger && p != path && ledger[p].sha == sha && ledger[p].result == Ingested
  }

  /** Handled, and not an error with retries left. */
  predicate Settled(ledger: Ledger, pdf: Pdf) {
    && pdf.path in ledger
    && ledger[pdf.path].mtime == pdf.mtime
    && !(ledger[pdf.path].result == Error && ledger[pdf.path].attempts < MAX_ATTEMPTS)
  }

  function PreviousAttempts(ledger: Ledger, pdf: Pdf): nat {
    if pdf.path in ledger && ledger[pdf.path].mtime == pdf.mtime then ledger[pdf.path].attempts else 0
  }

  function Ledgered(ledger: Ledger, pdf: Pdf, result: Outcome, message: string, attempts: nat): Ledger {
    ledger[pdf.path := Entry(pdf.mtime, pdf.sha, result, message, attempts)]
  }

  // ---- The scan ----

  datatype Tally = TSkipped | TDuplicate | TIngested | TError

  datatype Step = Step(state: State, tally: Tally)

  function Truncate(s: string): string {
    if |s| <= 500 then s else s[..500]
  }

  function NumberMessage(number: string, of: string): string {
    "invoice_number " + number + " already present (of " + of + ")"
  }

  function RecordOutcome(s: State, pdf: Pdf, p: Processed): Step {
    match p
    case Stored(d) =>
      Step(State(InsertDoc(s.docs, d), Ledgered(s.ledger, pdf, Ingested, "", 0)), TIngested)
    case SameNumber(number, of) =>
      Step(s.(ledger := Ledgered(s.ledger, pdf, Duplicate, NumberMessage(number, of), 0)), TDuplicate)
    case Broken(error) =>
      if Transient(error) then Step(s, TError)
      else
        var attempts := PreviousAttempts(s.ledger, pdf) + 1;
        Step(s.(ledger := Ledgered(s.ledger, pdf, Error, Truncate(Strip(error)), attempts)), TError)
  }

  predicate NameTaken(docs: seq<Doc>, pdf: Pdf) {
    SupplierHint(pdf).Some? && HasName(docs, SupplierHint(pdf).value, pdf.name)
  }

  /** One file of the scan. */
  function ScanFile(s: State, pdf: Pdf, world: World): Step {
    if Settled(s.ledger, pdf) then Step(s, TSkipped)
    else if ShaIngested(s.ledger, pdf.sha, pdf.path) then
      Step(s.(ledger := Ledgered(s.ledger, pdf, Duplicate, "same content as an already-ingested file", 0)), TDuplicate)
    else if NameTaken(s.docs, pdf) then
      Step(s.(ledger := Ledgered(s.ledger, pdf, Duplicate, "filename already present in invoices", 0)), TDuplicate)
    else RecordOutcome(s, pdf, ProcessPdf(s.docs, pdf, world))
  }

  datatype Counts = Counts(scanned: nat, ingested: nat, duplicate: nat, error: nat, skipped: nat)

  const NO_COUNTS := Counts(0, 0, 0, 0, 0)

  function Count(c: Counts, tally: Tally): Counts {
    var c1 := c.(scanned := c.scanned + 1);
    match tally
    case TSkipped => c1.(skipped := c1.skipped + 1)
    case TDuplicate => c1.(duplicate := c1.duplicate + 1)
    case TIngested => c1.(ingested := c1.ingested + 1)
    case TError => c1.(error := c1.error + 1)
  }

  datatype Scanned = Scanned(state: State, counts: Counts)

  function Scan(s: State, pdfs: seq<Pdf>, world: World): Scanned {
    if pdfs == [] then Scanned(s, NO_COUNTS)
    else
      var before := Scan(s, pdfs[..|pdfs| - 1], world);
      var step := ScanFile(before.state, pdfs[|pdfs| - 1], world);
      Scanned(step.state, Count(before.counts, step.tally))
  }

  /** Killed between the invoice commit and the ledger commit of a file. */
  function CommitOnly(s: State, pdf: Pdf, world: World): State {
    var step := ScanFile(s, pdf, world);
    if step.tally == TIngested then s.(docs := step.state.docs) else s
  }

  /** A folder lists every path once. */
  predicate DistinctPaths(pdfs: seq<Pdf>) {
    forall i, j | 0 <= i < j < |pdfs| :: pdfs[i].path != pdfs[j].path
  }
}
