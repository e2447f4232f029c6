/** Under which labels the dashboard counts an item, and what one more item or invoice adds to what is shown
    (epiproc/db/dashboard.py). */
module DashboardLaws {
  import opened Common
  import opened Rounding
  import opened Dashboard

  // ---- Labels ----

  /** The category column, or "Uncategorised" when it is null or empty. */
  function CategoryShown(it: Item): string {
    match it.category
    case Some(c) => if c == "" then "Uncategorised" else c
    case None => "Uncategorised"
  }

  /** The department column, or "Unknown" when it is null or empty. */
  function DepartmentShown(it: Item): string {
    match it.department
    case Some(d) => if d == "" then "Unknown" else d
    case None => "Unknown"
  }

  // ---- What a view shows under a key ----

  /** The cell of a key; an empty one where the view has none. */
  function Under<K(==)>(cells: seq<Cell<K>>, key: K): Cell<K> {
    var k := IndexOf(cells, key);
    if k < |cells| then cells[k] else Cell(key, 0, 0.0)
  }

  lemma GroupUnder<K>(rows: seq<(K, real)>, key: K)
    ensures Under(Group(rows), key) == Cell(key, CountOf(rows, key), TotalOf(rows, key))
  {
    GroupGroups(rows);
    var cells := Group(rows);
    if IndexOf(cells, key) < |cells| {
      assert Holds(rows, cells[IndexOf(cells, key)]);
    } else {
      AbsentKey(rows, cells, key);
    }
  }

  lemma OneMoreRow<K>(rows: seq<(K, real)>, row: (K, real), key: K)
    ensures CountOf(rows + [row], key) == CountOf(rows, key) + if row.0 == key then 1 else 0
    ensures TotalOf(rows + [row], key) == TotalOf(rows, key) + if row.0 == key then row.1 else 0.0
  {
    assert (rows + [row])[..|rows|] == rows;
  }

  /** A cell after one more item that is shown under it or not. */
  function Raised<K>(cell: Cell<K>, it: Item, mine: bool): Cell<K> {
    if mine && it.price.Some? then Cell(cell.key, cell.count + 1, cell.total + it.price.value) else cell
  }

  lemma OneMoreItem<K>(items: seq<Item>, it: Item, keyOf: Item -> K, key: K)
    ensures Under(Group(Rows(items + [it], keyOf, PriceOf)), key)
      == Raised(Under(Group(Rows(items, keyOf, PriceOf)), key), it, keyOf(it) == key)
  {
    assert (items + [it])[..|items|] == items;
    var rows := Rows(items, keyOf, PriceOf);
    GroupUnder(rows, key);
    GroupUnder(Rows(items + [it], keyOf, PriceOf), key);
    if it.price.Some? {
      OneMoreRow(rows, (keyOf(it), it.price.value), key);
    } else {
      assert rows + [] == rows;
    }
  }

  /** One more item with a price raises its own category by one item and that price, and no other category. */
  lemma ItemCountsInItsCategory(items: seq<Item>, it: Item, cat: string)
    ensures Under(CatCells(items + [it]), cat) == Raised(Under(CatCells(items), cat), it, CategoryShown(it) == cat)
  {
    OneMoreItem(items, it, Category, cat);
  }

  lemma ItemCountsInItsDepartment(items: seq<Item>, it: Item, cat: string, dept: string)
    ensures Under(CatDeptCells(items + [it]), (cat, dept))
      == Raised(Under(CatDeptCells(items), (cat, dept)), it, CategoryShown(it) == cat && DepartmentShown(it) == dept)
  {
    OneMoreItem(items, it, CatDept, (cat, dept));
  }

  lemma ItemCountsWithItsSupplier(items: seq<Item>, it: Item, cat: string, name: string)
    ensures Under(CatSupplierCells(items + [it]), (cat, name))
      == Raised(Under(CatSupplierCells(items), (cat, name)), it, CategoryShown(it) == cat && it.supplierName == name)
  {
    OneMoreItem(items, it, CatSupplier, (cat, name));
  }

  lemma NothingToShow()
    ensures CatCells([]) == [] && CatDeptCells([]) == [] && CatSupplierCells([]) == []
  {
  }

  // ---- Rounding ----

  /** The nearest whole number; of two equally near ones, the even. */
  predicate NearestWhole(units: real, exact: real) {
    && units.Floor as real == units
    && Abs(units - exact) <= 0.5
    && (Abs(units - exact) == 0.5 ==> units.Floor % 2 == 0)
  }

  /** Four decimals, to the nearest, ties to the even one. */
  predicate ShownAs(shown: real, exact: real) {
    NearestWhole(shown * 10000.0, exact * 10000.0)
  }

  lemma HalfEvenIsNearestWhole(x: real)
    ensures NearestWhole(HalfEvenUnits(x) as real, x)
  {
    HalfEvenIsTheNearest(x);
    assert (HalfEvenUnits(x) as real).Floor == HalfEvenUnits(x);
  }

  lemma Round4IsShownAs(x: real)
    ensures ShownAs(Round4(x), x)
  {
    RoundedIsTheNearest(x);
    HalfEvenIsNearestWhole(x * 10000.0);
  }

  /** Rounding keeps every cell's place, key and count. */
  lemma CellsAreShownRounded<K>(cells: seq<Cell<K>>, i: nat)
    requires i < |cells|
    ensures var shown := RoundCells(cells);
      && |shown| == |cells| && shown[i].key == cells[i].key && shown[i].count == cells[i].count
      && ShownAs(shown[i].total, cells[i].total)
  {
    Round4IsShownAs(cells[i].total);
  }

  // ---- Suppliers ----

  /** An invoice counts for the supplier that shows its name. */
  lemma InvoiceCountsForItsSupplier(name: string, invoices: seq<Invoice>, inv: Invoice, items: seq<Dashboard.Item>)
    ensures var before, after := TotalFor(name, invoices, items), TotalFor(name, invoices + [inv], items);
      && after.name == name && after.items == before.items
      && after.count == before.count + (if inv.supplierName == name then 1 else 0)
      && SpendOf(invoices + [inv], name)
         == SpendOf(invoices, name) + (if inv.supplierName == name then inv.total.GetOr(0.0) else 0.0)
      && ShownAs(after.total, SpendOf(invoices + [inv], name))
  {
    assert (invoices + [inv])[..|invoices|] == invoices;
    Round4IsShownAs(SpendOf(invoices + [inv], name));
  }

  lemma ItemCountsForItsSupplier(name: string, invoices: seq<Invoice>, items: seq<Item>, it: Item)
    ensures var before, after := TotalFor(name, invoices, items), TotalFor(name, invoices, items + [it]);
      && after.count == before.count && after.total == before.total
      && after.items == before.items + if it.supplierName == name then 1 else 0
  {
    assert (items + [it])[..|items|] == items;
  }

  /** The grand total adds up what is shown for the suppliers. */
  lemma GrandTotalAddsTheShownTotals(names: seq<string>, name: string, invoices: seq<Invoice>, items: seq<Item>)
    ensures GrandTotal([], invoices) == 0.0
    ensures GrandTotal(names + [name], invoices) == GrandTotal(names, invoices) + TotalFor(name, invoices, items).total
  {
    assert (names + [name])[..|names|] == names;
  }

  lemma NoSpendWithoutInvoices(name: string)
    ensures TotalFor(name, [], []) == SupplierTotal(name, 0, 0.0, 0)
  {
    assert Round4(0.0) == 0.0;
  }
}
