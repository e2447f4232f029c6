/** The invoices, invoice_items and ingested_files tables as the scan updates them
    (epiproc/db/invoices.py, epiproc/db/ingested.py). */
module InvoiceStore {
  import opened Common
  import opened ScanSpec

  datatype InvoiceRow = InvoiceRow(
    id: nat, supplier: string, filename: string, number: Option<string>, total: Option<real>, rawJson: string,
    notes: seq<string>, status: string, path: string)

  datatype ItemRow = ItemRow(invoiceId: nat, item: LineItem)

  function ItemsOf(items: seq<ItemRow>, id: nat): seq<LineItem> {
    if items == [] then []
    else
      var n := |items| - 1;
      if items[n].invoiceId == id then ItemsOf(items[..n], id) + [items[n].item] else ItemsOf(items[..n], id)
  }

  function RowDoc(row: InvoiceRow, items: seq<ItemRow>): Doc {
    Doc(row.supplier, row.filename, row.number, row.total, row.rawJson, row.notes, row.status, row.path,
        ItemsOf(items, row.id))
  }

  /** Both tables as documents, up to row ids. */
  function DocsOf(invoices: seq<InvoiceRow>, items: seq<ItemRow>): seq<Doc> {
    if invoices == [] then []
    else DocsOf(invoices[..|invoices| - 1], items) + [RowDoc(invoices[|invoices| - 1], items)]
  }

  /** DELETE ... WHERE supplier AND filename. */
  function RowsKept(invoices: seq<InvoiceRow>, supplier: string, filename: string): seq<InvoiceRow> {
    if invoices == [] then []
    else
      var n := |invoices| - 1;
      if invoices[n].supplier == supplier && invoices[n].filename == filename then
        RowsKept(invoices[..n], supplier, filename)
      else RowsKept(invoices[..n], supplier, filename) + [invoices[n]]
  }

  predicate HasId(invoices: seq<InvoiceRow>, id: nat) {
    exists i :: 0 <= i < |invoices| && invoices[i].id == id
  }

  /** ON DELETE CASCADE. */
  function ItemsKept(items: seq<ItemRow>, invoices: seq<InvoiceRow>): seq<ItemRow> {
    if items == [] then []
    else
      var n := |items| - 1;
      if HasId(invoices, items[n].invoiceId) then ItemsKept(items[..n], invoices) + [items[n]]
      else ItemsKept(items[..n], invoices)
  }

  function NewItems(id: nat, items: seq<LineItem>): seq<ItemRow> {
    seq(|items|, i requires 0 <= i < |items| => ItemRow(id, items[i]))
  }

  // ---- Row ids and references ----

  predicate IdsAscend(invoices: seq<InvoiceRow>, next: nat) {
    && (forall i | 0 <= i < |invoices| :: invoices[i].id < next)
    && (forall i, j | 0 <= i < j < |invoices| :: invoices[i].id < invoices[j].id)
  }

  /** Every line item is owned by a stored invoice. */
  predicate ItemsOwned(invoices: seq<InvoiceRow>, items: seq<ItemRow>) {
    forall k | 0 <= k < |items| :: HasId(invoices, items[k].invoiceId)
  }

  lemma {:induction false} RowsKeptFilters(invoices: seq<InvoiceRow>, supplier: string, filename: string)
    ensures forall r :: (r in RowsKept(invoices, supplier, filename)
                         <==> r in invoices && !(r.supplier == supplier && r.filename == filename))
  {
    if invoices != [] {
      var n := |invoices| - 1;
      RowsKeptFilters(invoices[..n], supplier, filename);
      assert invoices == invoices[..n] + [invoices[n]];
    }
  }

  lemma {:induction false} RowsKeptAscend(invoices: seq<InvoiceRow>, supplier: string, filename: string, next: nat)
    requires IdsAscend(invoices, next)
    ensures IdsAscend(RowsKept(invoices, supplier, filename), next)
  {
    if invoices != [] {
      var n := |invoices| - 1;
      RowsKeptAscend(invoices[..n], supplier, filename, next);
      RowsKeptFilters(invoices[..n], supplier, filename);
      var kept := RowsKept(invoices[..n], supplier, filename);
      forall i | 0 <= i < |kept| ensures kept[i].id < invoices[n].id {
        assert kept[i] in invoices[..n];
      }
    }
  }

  lemma {:induction false} ItemsKeptAreOwned(items: seq<ItemRow>, invoices: seq<InvoiceRow>)
    ensures ItemsOwned(invoices, ItemsKept(items, invoices))
  {
    if items != [] {
      ItemsKeptAreOwned(items[..|items| - 1], invoices);
    }
  }

  // ---- What deletion and insertion do to the documents ----

  lemma {:induction false} ItemsOfKept(items: seq<ItemRow>, invoices: seq<InvoiceRow>, id: nat)
    requires HasId(invoices, id)
    ensures ItemsOf(ItemsKept(items, invoices), id) == ItemsOf(items, id)
  {
    if items != [] {
      var n := |items| - 1;
      ItemsOfKept(items[..n], invoices, id);
      var kept := ItemsKept(items[..n], invoices);
      assert (kept + [items[n]])[..|kept|] == kept;
    }
  }

  lemma {:induction false} ItemsOfAppended(items: seq<ItemRow>, more: seq<ItemRow>, id: nat)
    requires forall k | 0 <= k < |more| :: more[k].invoiceId != id
    ensures ItemsOf(items + more, id) == ItemsOf(items, id)
  {
    if more == [] {
      assert items + more == items;
    } else {
      assert (items + more)[..|items + more| - 1] == items + more[..|more| - 1];
      ItemsOfAppended(items, more[..|more| - 1], id);
    }
  }

  lemma {:induction false} ItemsOfNew(items: seq<ItemRow>, id: nat, lines: seq<LineItem>)
    requires forall k | 0 <= k < |items| :: items[k].invoiceId != id
    ensures ItemsOf(items + NewItems(id, lines), id) == lines
  {
    if lines == [] {
      ItemsOfNone(items, id);
      assert items + NewItems(id, lines) == items;
    } else {
      var n := |lines| - 1;
      var all := items + NewItems(id, lines);
      assert all[..|all| - 1] == items + NewItems(id, lines[..n]);
      ItemsOfNew(items, id, lines[..n]);
      assert all[|all| - 1] == ItemRow(id, lines[n]);
    }
  }

  lemma {:induction false} ItemsOfNone(items: seq<ItemRow>, id: nat)
    requires forall k | 0 <= k < |items| :: items[k].invoiceId != id
    ensures ItemsOf(items, id) == []
  {
    if items != [] {
      ItemsOfNone(items[..|items| - 1], id);
    }
  }

  lemma {:induction false} DocsWithSameItems(invoices: seq<InvoiceRow>, items: seq<ItemRow>, items': seq<ItemRow>)
    requires forall i | 0 <= i < |invoices| :: ItemsOf(items, invoices[i].id) == ItemsOf(items', invoices[i].id)
    ensures DocsOf(invoices, items) == DocsOf(invoices, items')
  {
    if invoices != [] {
      var n := |invoices| - 1;
      assert forall i | 0 <= i < n :: invoices[..n][i] == invoices[i];
      DocsWithSameItems(invoices[..n], items, items');
    }
  }

  lemma {:induction false} DocsOfKept(invoices: seq<InvoiceRow>, items: seq<ItemRow>, supplier: string,
                                      filename: string)
    ensures DocsOf(RowsKept(invoices, supplier, filename), items) == Others(DocsOf(invoices, items), supplier, filename)
  {
    if invoices != [] {
      var n := |invoices| - 1;
      DocsOfKept(invoices[..n], items, supplier, filename);
      var docs, kept := DocsOf(invoices[..n], items), RowsKept(invoices[..n], supplier, filename);
      assert (docs + [RowDoc(invoices[n], items)])[..|docs|] == docs;
      assert (kept + [invoices[n]])[..|kept|] == kept;
    }
  }

  /** Delete, cascade and insert amount to `InsertDoc` on the documents. */
  lemma InsertionOnDocs(invoices: seq<InvoiceRow>, items: seq<ItemRow>, next: nat, row: InvoiceRow,
                        lines: seq<LineItem>)
    requires IdsAscend(invoices, next) && ItemsOwned(invoices, items) && row.id == next
    ensures var kept := RowsKept(invoices, row.supplier, row.filename);
      var items' := ItemsKept(items, kept) + NewItems(next, lines);
      DocsOf(kept + [row], items')
        == InsertDoc(DocsOf(invoices, items), RowDoc(row, NewItems(next, lines)).(items := lines))
  {
    var kept := RowsKept(invoices, row.supplier, row.filename);
    var cascaded := ItemsKept(items, kept);
    var items' := cascaded + NewItems(next, lines);
    RowsKeptAscend(invoices, row.supplier, row.filename, next);
    ItemsKeptAreOwned(items, kept);
    forall i | 0 <= i < |kept| ensures ItemsOf(items', kept[i].id) == ItemsOf(items, kept[i].id) {
      ItemsOfAppended(cascaded, NewItems(next, lines), kept[i].id);
      ItemsOfKept(items, kept, kept[i].id);
    }
    DocsWithSameItems(kept, items, items');
    DocsOfKept(invoices, items, row.supplier, row.filename);
    forall k | 0 <= k < |cascaded| ensures cascaded[k].invoiceId != next {
      assert HasId(kept, cascaded[k].invoiceId);
      var i :| 0 <= i < |kept| && kept[i].id == cascaded[k].invoiceId;
    }
    ItemsOfNew(cascaded, next, lines);
    assert (kept + [row])[..|kept|] == kept;
  }

  /** The new rows keep ids ascending and line items owned. */
  lemma InsertionKeepsReferences(
    invoices: seq<InvoiceRow>, items: seq<ItemRow>, next: nat, row: InvoiceRow, lines: seq<LineItem>)
    requires IdsAscend(invoices, next) && ItemsOwned(invoices, items) && row.id == next
    ensures var kept := RowsKept(invoices, row.supplier, row.filename);
      && IdsAscend(kept + [row], next + 1)
      && ItemsOwned(kept + [row], ItemsKept(items, kept) + NewItems(next, lines))
  {
    var kept := RowsKept(invoices, row.supplier, row.filename);
    var cascaded := ItemsKept(items, kept);
    RowsKeptAscend(invoices, row.supplier, row.filename, next);
    ItemsKeptAreOwned(items, kept);
    assert (kept + [row])[|kept|].id == next;
    forall k | 0 <= k < |cascaded| ensures HasId(kept + [row], cascaded[k].invoiceId) {
      assert HasId(kept, cascaded[k].invoiceId);
      var i :| 0 <= i < |kept| && kept[i].id == cascaded[k].invoiceId;
      assert (kept + [row])[i].id == cascaded[k].invoiceId;
    }
  }

  class InvoiceTable {
    var invoices: seq<InvoiceRow>
    var items: seq<ItemRow>
    var nextId: nat

    predicate Valid()
      reads this
    {
      IdsAscend(invoices, nextId) && ItemsOwned(invoices, items)
    }

    function Docs(): seq<Doc>
      reads this
    {
      DocsOf(invoices, items)
    }

    constructor ()
      ensures Valid() && Docs() == []
    {
      invoices, items, nextId := [], [], 1;
    }

    /** Replace the rows of this supplier and filename by the record and its line items, and commit. */
    method InsertRecord(
      supplier: string, filename: string, record: Record, notes: seq<string>, status: string, path: string)
      returns (id: nat)
      requires Valid()
      modifies this
      ensures Valid()
      ensures Docs() == InsertDoc(
        old(Docs()), Doc(supplier, filename, record.invoiceNumber, record.total, record.rawJson, notes, status, path,
                         record.items))
      ensures HasId(invoices, id) && id == old(nextId)
    {
      id := nextId;
      var row := InvoiceRow(id, supplier, filename, record.invoiceNumber, record.total, record.rawJson, notes, status,
                            path);
      InsertionOnDocs(invoices, items, nextId, row, record.items);
      InsertionKeepsReferences(invoices, items, nextId, row, record.items);
      invoices := RowsKept(invoices, supplier, filename);
      items := ItemsKept(items, invoices);
      invoices := invoices + [row];
      nextId := nextId + 1;
      InsertItems(id, record.items);
      assert invoices[|invoices| - 1].id == id;
    }

    /** INSERT INTO invoice_items, line by line. */
    method InsertItems(id: nat, lines: seq<LineItem>)
      modifies this`items
      ensures items == old(items) + NewItems(id, lines)
    {
      for i := 0 to |lines|
        invariant items == old(items) + NewItems(id, lines[..i])
      {
        items := items + [ItemRow(id, lines[i])];
        assert NewItems(id, lines[..i + 1]) == NewItems(id, lines[..i]) + [ItemRow(id, lines[i])];
      }
      assert lines[..|lines|] == lines;
    }
  }

  /** A row of ingested_files. */
  datatype FileRow = FileRow(entry: Entry, invoiceId: Option<nat>)

  function EntriesOf(rows: map<string, FileRow>): Ledger {
    map p | p in rows :: rows[p].entry
  }

  class IngestedFiles {
    var rows: map<string, FileRow>

    function Entries(): Ledger
      reads this
    {
      EntriesOf(rows)
    }

    constructor ()
      ensures Entries() == map[]
    {
      rows := map[];
    }

    method Get(path: string) returns (row: Option<FileRow>)
      ensures row.Some? <==> path in Entries()
      ensures row.Some? ==> row.value.entry == Entries()[path]
    {
      row := if path in rows then Some(rows[path]) else None;
    }

    /** True when this content was already ingested under a different path. */
    method ShaIngested(sha: string, excludePath: string) returns (found: bool)
      ensures found == ScanSpec.ShaIngested(Entries(), sha, excludePath)
    {
      found := exists p | p in rows :: p != excludePath && rows[p].entry.sha == sha && rows[p].entry.result == Ingested;
      if found {
        assert forall p | p in rows :: p in Entries() && Entries()[p] == rows[p].entry;
      }
    }

    /** INSERT ... ON CONFLICT (path) DO UPDATE, and commit. */
    method Record(
      path: string, mtime: int, sha: string, invoiceId: Option<nat>, result: Outcome, message: string, attempts: nat)
      modifies this
      ensures Entries() == old(Entries())[path := Entry(mtime, sha, result, message, attempts)]
      ensures rows == old(rows)[path := FileRow(Entry(mtime, sha, result, message, attempts), invoiceId)]
    {
      rows := rows[path := FileRow(Entry(mtime, sha, result, message, attempts), invoiceId)];
    }
  }
}
