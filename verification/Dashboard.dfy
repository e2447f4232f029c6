/** Dashboard aggregation on values: several group-bys over the same rows (epiproc/db/dashboard.py).

    A dictionary that keeps insertion order is a list of cells with distinct keys. */
module Dashboard {
  import opened Common
  import opened Rounding

  datatype Item = Item(
    category: Option<string>, department: Option<string>, supplierName: string, price: Option<real>)

  datatype Invoice = Invoice(supplierName: string, department: Option<string>, total: Option<real>)

  /** One group of a group-by. */
  datatype Cell<K> = Cell(key: K, count: nat, total: real)

  /** `x or fallback` on a text column. */
  function OrElse(x: Option<string>, fallback: string): string {
    if x.None? || x.value == "" then fallback else x.value
  }

  function Category(it: Item): string {
    OrElse(it.category, "Uncategorised")
  }

  function CatDept(it: Item): (string, string) {
    (Category(it), OrElse(it.department, "Unknown"))
  }

  function CatSupplier(it: Item): (string, string) {
    (Category(it), it.supplierName)
  }

  // ---- Grouping ----

  /** Key and amount of every row that has an amount. */
  function Rows<T, K>(xs: seq<T>, keyOf: T -> K, amountOf: T -> Option<real>): seq<(K, real)> {
    if xs == [] then []
    else
      var x := xs[|xs| - 1];
      Rows(xs[..|xs| - 1], keyOf, amountOf) + if amountOf(x).Some? then [(keyOf(x), amountOf(x).value)] else []
  }

  /** Position of a key, or |cells|. */
  function IndexOf<K(==)>(cells: seq<Cell<K>>, key: K): (k: nat)
    ensures k <= |cells|
    ensures k < |cells| ==> cells[k].key == key
    ensures forall i | 0 <= i < k :: cells[i].key != key
  {
    if cells == [] || cells[0].key == key then 0 else 1 + IndexOf(cells[1..], key)
  }

  /** agg[key]["count"] += 1; agg[key]["total"] += amount. */
  function Add<K(==)>(cells: seq<Cell<K>>, key: K, amount: real): seq<Cell<K>> {
    var k := IndexOf(cells, key);
    if k < |cells| then cells[k := Cell(key, cells[k].count + 1, cells[k].total + amount)]
    else cells + [Cell(key, 1, amount)]
  }

  function Group<K(==)>(rows: seq<(K, real)>): seq<Cell<K>> {
    if rows == [] then []
    else Add(Group(rows[..|rows| - 1]), rows[|rows| - 1].0, rows[|rows| - 1].1)
  }

  // ---- What a group-by is ----

  function Total<K>(rows: seq<(K, real)>): real {
    if rows == [] then 0.0 else Total(rows[..|rows| - 1]) + rows[|rows| - 1].1
  }

  function TotalOf<K(==)>(rows: seq<(K, real)>, key: K): real {
    if rows == [] then 0.0
    else TotalOf(rows[..|rows| - 1], key) + if rows[|rows| - 1].0 == key then rows[|rows| - 1].1 else 0.0
  }

  function CountOf<K(==)>(rows: seq<(K, real)>, key: K): nat {
    if rows == [] then 0
    else CountOf(rows[..|rows| - 1], key) + if rows[|rows| - 1].0 == key then 1 else 0
  }

  ghost predicate DistinctKeys<K>(cells: seq<Cell<K>>) {
    forall i, j | 0 <= i < j < |cells| :: cells[i].key != cells[j].key
  }

  ghost predicate Holds<K>(rows: seq<(K, real)>, cell: Cell<K>) {
    cell.count > 0 && cell.count == CountOf(rows, cell.key) && cell.total == TotalOf(rows, cell.key)
  }

  /** One cell per key that occurs, holding the count and the total of that key's rows. */
  ghost predicate Groups<K>(rows: seq<(K, real)>, cells: seq<Cell<K>>) {
    && DistinctKeys(cells)
    && (forall i | 0 <= i < |cells| :: Holds(rows, cells[i]))
    && (forall r | 0 <= r < |rows| :: IndexOf(cells, rows[r].0) < |cells|)
  }

  lemma AddGroups<K>(rows: seq<(K, real)>, cells: seq<Cell<K>>, row: (K, real))
    requires Groups(rows, cells)
    ensures Groups(rows + [row], Add(cells, row.0, row.1))
  {
    var all, cells' := rows + [row], Add(cells, row.0, row.1);
    assert all[..|rows|] == rows;
    var k := IndexOf(cells, row.0);
    if k == |cells| {
      AbsentKey(rows, cells, row.0);
    }
    forall i | 0 <= i < |cells'| ensures Holds(all, cells'[i]) {
      if i < |cells| {
        assert Holds(rows, cells[i]);
      }
    }
    forall r | 0 <= r < |all| ensures IndexOf(cells', all[r].0) < |cells'| {
      if r < |rows| {
        var i := IndexOf(cells, rows[r].0);
        assert cells'[i].key == rows[r].0;
      } else {
        assert cells'[k].key == row.0;
      }
    }
  }

  lemma {:induction false} AbsentKey<K>(rows: seq<(K, real)>, cells: seq<Cell<K>>, key: K)
    requires forall r | 0 <= r < |rows| :: IndexOf(cells, rows[r].0) < |cells|
    requires IndexOf(cells, key) == |cells|
    ensures CountOf(rows, key) == 0 && TotalOf(rows, key) == 0.0
  {
    if rows != [] {
      var n := |rows| - 1;
      assert forall r | 0 <= r < n :: rows[..n][r] == rows[r];
      AbsentKey(rows[..n], cells, key);
      assert IndexOf(cells, rows[n].0) < |cells|;
    }
  }

  /** Accumulating row by row is the group-by. */
  lemma {:induction false} GroupGroups<K>(rows: seq<(K, real)>)
    ensures Groups(rows, Group(rows))
  {
    if rows != [] {
      var n := |rows| - 1;
      GroupGroups(rows[..n]);
      AddGroups(rows[..n], Group(rows[..n]), rows[n]);
      assert rows[..n] + [rows[n]] == rows;
    }
  }

  // ---- Sums over cells ----

  /** Total of the cells whose key projects to `l`. */
  function RowTotal<K, L(==)>(cells: seq<Cell<K>>, proj: K -> L, l: L): real {
    if cells == [] then 0.0
    else
      var c := cells[|cells| - 1];
      RowTotal(cells[..|cells| - 1], proj, l) + if proj(c.key) == l then c.total else 0.0
  }

  lemma {:induction false} RowTotalUpdate<K, L>(cells: seq<Cell<K>>, proj: K -> L, l: L, k: nat, c: Cell<K>)
    requires k < |cells| && c.key == cells[k].key
    ensures RowTotal(cells[k := c], proj, l)
      == RowTotal(cells, proj, l) + if proj(c.key) == l then c.total - cells[k].total else 0.0
  {
    var n := |cells| - 1;
    if k == n {
      assert cells[k := c][..n] == cells[..n];
    } else {
      assert cells[k := c][..n] == cells[..n][k := c];
      RowTotalUpdate(cells[..n], proj, l, k, c);
    }
  }

  function Project<K, L>(rows: seq<(K, real)>, proj: K -> L): seq<(L, real)> {
    seq(|rows|, i requires 0 <= i < |rows| => (proj(rows[i].0), rows[i].1))
  }

  /** The cells of a finer group-by that fall under one key of a coarser one add up to that key's total. */
  lemma {:induction false} FinerCellsAddUp<K, L>(rows: seq<(K, real)>, proj: K -> L, l: L)
    ensures RowTotal(Group(rows), proj, l) == TotalOf(Project(rows, proj), l)
  {
    if rows != [] {
      var n := |rows| - 1;
      FinerCellsAddUp(rows[..n], proj, l);
      assert Project(rows, proj)[..n] == Project(rows[..n], proj);
      var cells, key := Group(rows[..n]), rows[n].0;
      var k := IndexOf(cells, key);
      if k < |cells| {
        RowTotalUpdate(cells, proj, l, k, Cell(key, cells[k].count + 1, cells[k].total + rows[n].1));
      } else {
        assert (cells + [Cell(key, 1, rows[n].1)])[..|cells|] == cells;
      }
    }
  }

  function Sum<K>(cells: seq<Cell<K>>): real {
    if cells == [] then 0.0 else Sum(cells[..|cells| - 1]) + cells[|cells| - 1].total
  }

  lemma {:induction false} SumIsRowTotal<K>(cells: seq<Cell<K>>)
    ensures Sum(cells) == RowTotal(cells, (k: K) => true, true)
  {
    if cells != [] {
      SumIsRowTotal(cells[..|cells| - 1]);
    }
  }

  lemma {:induction false} TotalIsTotalOf<K>(rows: seq<(K, real)>)
    ensures Total(rows) == TotalOf(Project(rows, (k: K) => true), true)
  {
    if rows != [] {
      var n := |rows| - 1;
      TotalIsTotalOf(rows[..n]);
      assert Project(rows, (k: K) => true)[..n] == Project(rows[..n], (k: K) => true);
    }
  }

  /** Grouping neither loses nor invents money. */
  lemma GroupConserves<K>(rows: seq<(K, real)>)
    ensures Sum(Group(rows)) == Total(rows)
  {
    SumIsRowTotal(Group(rows));
    TotalIsTotalOf(rows);
    FinerCellsAddUp(rows, (k: K) => true, true);
  }

  // ---- The views ----

  function PriceOf(it: Item): Option<real> {
    it.price
  }

  function CatCells(items: seq<Item>): seq<Cell<string>> {
    Group(Rows(items, Category, PriceOf))
  }

  function CatDeptCells(items: seq<Item>): seq<Cell<(string, string)>> {
    Group(Rows(items, CatDept, PriceOf))
  }

  function CatSupplierCells(items: seq<Item>): seq<Cell<(string, string)>> {
    Group(Rows(items, CatSupplier, PriceOf))
  }

  function PricedTotal(items: seq<Item>): real {
    if items == [] then 0.0 else PricedTotal(items[..|items| - 1]) + items[|items| - 1].price.GetOr(0.0)
  }

  lemma {:induction false} RowsTotal<K>(items: seq<Item>, keyOf: Item -> K)
    ensures Total(Rows(items, keyOf, PriceOf)) == PricedTotal(items)
  {
    if items != [] {
      var n := |items| - 1;
      RowsTotal(items[..n], keyOf);
      var rows := Rows(items[..n], keyOf, PriceOf);
      var it := items[n];
      if it.price.Some? {
        assert (rows + [(keyOf(it), it.price.value)])[..|rows|] == rows;
      } else {
        assert rows + [] == rows;
      }
    }
  }

  lemma {:induction false} RowsProject<K, L>(items: seq<Item>, keyOf: Item -> K, proj: K -> L, coarse: Item -> L)
    requires forall it: Item :: proj(keyOf(it)) == coarse(it)
    ensures Project(Rows(items, keyOf, PriceOf), proj) == Rows(items, coarse, PriceOf)
  {
    if items != [] {
      RowsProject(items[..|items| - 1], keyOf, proj, coarse);
    }
  }

  function First(k: (string, string)): string {
    k.0
  }

  /** Before rounding, the three views of the same items each partition the total of the priced items. */
  lemma ViewsConserveSpend(items: seq<Item>)
    ensures Sum(CatCells(items)) == PricedTotal(items)
    ensures Sum(CatDeptCells(items)) == PricedTotal(items)
    ensures Sum(CatSupplierCells(items)) == PricedTotal(items)
  {
    GroupConserves(Rows(items, Category, PriceOf));
    GroupConserves(Rows(items, CatDept, PriceOf));
    GroupConserves(Rows(items, CatSupplier, PriceOf));
    RowsTotal(items, Category);
    RowsTotal(items, CatDept);
    RowsTotal(items, CatSupplier);
  }

  /** A category's row of either matrix adds up to that category's total. */
  lemma MatrixRowsMeetCategoryTotals(items: seq<Item>, i: nat)
    requires i < |CatCells(items)|
    ensures RowTotal(CatDeptCells(items), First, CatCells(items)[i].key) == CatCells(items)[i].total
    ensures RowTotal(CatSupplierCells(items), First, CatCells(items)[i].key) == CatCells(items)[i].total
  {
    var c := CatCells(items)[i];
    GroupGroups(Rows(items, Category, PriceOf));
    assert Holds(Rows(items, Category, PriceOf), c);
    FinerCellsAddUp(Rows(items, CatDept, PriceOf), First, c.key);
    RowsProject(items, CatDept, First, Category);
    FinerCellsAddUp(Rows(items, CatSupplier, PriceOf), First, c.key);
    RowsProject(items, CatSupplier, First, Category);
  }

  // ---- After rounding ----

  function RoundCell<K>(c: Cell<K>): Cell<K> {
    c.(total := Round4(c.total))
  }

  function RoundCells<K>(cells: seq<Cell<K>>): seq<Cell<K>> {
    seq(|cells|, i requires 0 <= i < |cells| => RoundCell(cells[i]))
  }

  /** Number of cells under a coarser key. */
  function RowSize<K, L(==)>(cells: seq<Cell<K>>, proj: K -> L, l: L): nat {
    if cells == [] then 0
    else RowSize(cells[..|cells| - 1], proj, l) + if proj(cells[|cells| - 1].key) == l then 1 else 0
  }

  /** What rounding n figures to four places can move their sum by. */
  function Tolerance(n: nat): real {
    n as real * 0.00005
  }

  lemma {:induction false} RoundedRowIsClose<K, L>(cells: seq<Cell<K>>, proj: K -> L, l: L)
    ensures Abs(RowTotal(RoundCells(cells), proj, l) - RowTotal(cells, proj, l))
      <= Tolerance(RowSize(cells, proj, l))
  {
    if cells != [] {
      var n := |cells| - 1;
      RoundedRowIsClose(cells[..n], proj, l);
      assert RoundCells(cells)[..n] == RoundCells(cells[..n]);
    }
  }

  lemma {:induction false} RoundingKeepsRowSize<K, L>(cells: seq<Cell<K>>, proj: K -> L, l: L)
    ensures RowSize(RoundCells(cells), proj, l) == RowSize(cells, proj, l)
  {
    if cells != [] {
      var n := |cells| - 1;
      RoundingKeepsRowSize(cells[..n], proj, l);
      assert RoundCells(cells)[..n] == RoundCells(cells[..n]);
    }
  }

  lemma RoundedRowMeetsRoundedTotal<K, L>(cells: seq<Cell<K>>, proj: K -> L, c: Cell<L>)
    requires RowTotal(cells, proj, c.key) == c.total
    ensures Abs(RowTotal(RoundCells(cells), proj, c.key) - RoundCell(c).total)
      <= Tolerance(RowSize(RoundCells(cells), proj, c.key) + 1)
  {
    RoundedRowIsClose(cells, proj, c.key);
    RoundingKeepsRowSize(cells, proj, c.key);
    assert Abs(Round4(c.total) - c.total) <= 0.00005;
  }

  /** The k cells of a category's shown row add up to its shown total, within (k + 1) * 0.00005. */
  predicate RowMeetsTotal(shown: seq<Cell<(string, string)>>, total: Cell<string>) {
    Abs(RowTotal(shown, First, total.key) - total.total) <= Tolerance(RowSize(shown, First, total.key) + 1)
  }

  lemma ShownRowMeetsShownTotal(items: seq<Item>, i: nat)
    requires i < |CatCells(items)|
    ensures RowMeetsTotal(RoundCells(CatDeptCells(items)), RoundCells(CatCells(items))[i])
    ensures RowMeetsTotal(RoundCells(CatSupplierCells(items)), RoundCells(CatCells(items))[i])
  {
    MatrixRowsMeetCategoryTotals(items, i);
    RoundedRowMeetsRoundedTotal(CatDeptCells(items), First, CatCells(items)[i]);
    RoundedRowMeetsRoundedTotal(CatSupplierCells(items), First, CatCells(items)[i]);
  }

  // ---- Order of the category totals ----

  predicate Descending<K>(cells: seq<Cell<K>>) {
    forall i, j | 0 <= i < j < |cells| :: cells[i].total >= cells[j].total
  }

  /** Behind every cell that is not smaller. */
  function Insert<K>(cells: seq<Cell<K>>, c: Cell<K>): seq<Cell<K>> {
    if cells == [] || cells[|cells| - 1].total >= c.total then cells + [c]
    else Insert(cells[..|cells| - 1], c) + [cells[|cells| - 1]]
  }

  /** sorted(..., key=lambda x: -x["total"]), which is stable. */
  function SortDescending<K>(cells: seq<Cell<K>>): seq<Cell<K>> {
    if cells == [] then [] else Insert(SortDescending(cells[..|cells| - 1]), cells[|cells| - 1])
  }

  /** The cells with a given total, in order. */
  function WithTotal<K>(cells: seq<Cell<K>>, t: real): seq<Cell<K>> {
    if cells == [] then []
    else WithTotal(cells[..|cells| - 1], t) + if cells[|cells| - 1].total == t then [cells[|cells| - 1]] else []
  }

  lemma {:induction false} InsertSorts<K>(cells: seq<Cell<K>>, c: Cell<K>)
    requires Descending(cells)
    ensures Descending(Insert(cells, c))
    ensures forall x | x in Insert(cells, c) :: x in cells || x == c
  {
    if cells != [] && cells[|cells| - 1].total < c.total {
      var n := |cells| - 1;
      InsertSorts(cells[..n], c);
      var before := Insert(cells[..n], c);
      forall i | 0 <= i < |before| ensures before[i].total >= cells[n].total {
        assert before[i] in before;
      }
    }
  }

  lemma {:induction false} InsertIsStable<K>(cells: seq<Cell<K>>, c: Cell<K>, t: real)
    requires Descending(cells)
    ensures WithTotal(Insert(cells, c), t) == WithTotal(cells + [c], t)
  {
    assert (cells + [c])[..|cells|] == cells;
    if cells != [] && cells[|cells| - 1].total < c.total {
      var n := |cells| - 1;
      InsertIsStable(cells[..n], c, t);
      assert (cells[..n] + [c])[..n] == cells[..n];
      var before := Insert(cells[..n], c);
      assert (before + [cells[n]])[..|before|] == before;
    }
  }

  /** The category list is in descending order, and holds each amount's cells exactly as they were grouped. */
  lemma {:induction false} SortingIsStable<K>(cells: seq<Cell<K>>, t: real)
    ensures Descending(SortDescending(cells))
    ensures WithTotal(SortDescending(cells), t) == WithTotal(cells, t)
  {
    if cells != [] {
      var n := |cells| - 1;
      SortingIsStable(cells[..n], t);
      InsertSorts(SortDescending(cells[..n]), cells[n]);
      InsertIsStable(SortDescending(cells[..n]), cells[n], t);
      var sorted := SortDescending(cells[..n]);
      assert (sorted + [cells[n]])[..|sorted|] == sorted;
    }
  }

  // ---- All suppliers together ----

  function Spend(invoices: seq<Invoice>): real {
    if invoices == [] then 0.0 else Spend(invoices[..|invoices| - 1]) + invoices[|invoices| - 1].total.GetOr(0.0)
  }

  function SpendOf(invoices: seq<Invoice>, name: string): real {
    if invoices == [] then 0.0
    else
      var inv := invoices[|invoices| - 1];
      SpendOf(invoices[..|invoices| - 1], name) + if inv.supplierName == name then inv.total.GetOr(0.0) else 0.0
  }

  /** Sum of the rounded supplier totals, one per display name. */
  function GrandTotal(names: seq<string>, invoices: seq<Invoice>): real {
    if names == [] then 0.0
    else GrandTotal(names[..|names| - 1], invoices) + Round4(SpendOf(invoices, names[|names| - 1]))
  }

  function Occurrences(names: seq<string>, name: string): nat {
    if names == [] then 0
    else Occurrences(names[..|names| - 1], name) + if names[|names| - 1] == name then 1 else 0
  }

  function Times(n: nat, amount: real): real {
    n as real * amount
  }

  /** Every invoice counted once for each supplier that shows its display name. */
  function CountedSpend(names: seq<string>, invoices: seq<Invoice>): real {
    if invoices == [] then 0.0
    else
      var inv := invoices[|invoices| - 1];
      CountedSpend(names, invoices[..|invoices| - 1])
      + Times(Occurrences(names, inv.supplierName), inv.total.GetOr(0.0))
  }

  lemma {:induction false} CountedByName(names: seq<string>, name: string, invoices: seq<Invoice>)
    ensures CountedSpend(names + [name], invoices) == CountedSpend(names, invoices) + SpendOf(invoices, name)
  {
    assert (names + [name])[..|names|] == names;
    if invoices != [] {
      CountedByName(names, name, invoices[..|invoices| - 1]);
    }
  }

  lemma {:induction false} NothingCounted(invoices: seq<Invoice>)
    ensures CountedSpend([], invoices) == 0.0
  {
    if invoices != [] {
      NothingCounted(invoices[..|invoices| - 1]);
    }
  }

  /** For all inputs: the grand total is within n * 0.00005 of the spend in which an invoice counts as
      often as suppliers share its display name. */
  lemma {:induction false} GrandTotalCountsPerName(names: seq<string>, invoices: seq<Invoice>)
    ensures Abs(GrandTotal(names, invoices) - CountedSpend(names, invoices)) <= Tolerance(|names|)
  {
    if names == [] {
      NothingCounted(invoices);
    } else {
      var n := |names| - 1;
      GrandTotalCountsPerName(names[..n], invoices);
      CountedByName(names[..n], names[n], invoices);
      assert names[..n] + [names[n]] == names;
    }
  }

  predicate DistinctNames(names: seq<string>) {
    forall i, j | 0 <= i < j < |names| :: names[i] != names[j]
  }

  lemma {:induction false} OccursOnce(names: seq<string>, name: string)
    requires DistinctNames(names)
    ensures Occurrences(names, name) == if name in names then 1 else 0
  {
    if names != [] {
      OccursOnce(names[..|names| - 1], name);
      assert names == names[..|names| - 1] + [names[|names| - 1]];
    }
  }

  /** Every invoice carries the display name of one of the suppliers. */
  predicate AllNamed(names: seq<string>, invoices: seq<Invoice>) {
    forall i | 0 <= i < |invoices| :: invoices[i].supplierName in names
  }

  lemma {:induction false} CountedOnce(names: seq<string>, invoices: seq<Invoice>)
    requires DistinctNames(names) && AllNamed(names, invoices)
    ensures CountedSpend(names, invoices) == Spend(invoices)
  {
    if invoices != [] {
      CountedOnce(names, invoices[..|invoices| - 1]);
      OccursOnce(names, invoices[|invoices| - 1].supplierName);
    }
  }

  /** With pairwise different display names the grand total is within n * 0.00005 of all invoices' spend. */
  lemma GrandTotalMeetsSpend(names: seq<string>, invoices: seq<Invoice>)
    requires DistinctNames(names) && AllNamed(names, invoices)
    ensures Abs(GrandTotal(names, invoices) - Spend(invoices)) <= Tolerance(|names|)
  {
    GrandTotalCountsPerName(names, invoices);
    assert CountedSpend(names, invoices) == Spend(invoices) by {
      CountedOnce(names, invoices);
    }
  }

  lemma {:induction false} OccursAtLeast(names: seq<string>, i: nat, j: nat)
    requires i <= j < |names| && names[i] == names[j]
    ensures Occurrences(names, names[i]) >= if i < j then 2 else 1
  {
    var n := |names| - 1;
    if j < n {
      OccursAtLeast(names[..n], i, j);
    } else if i < j {
      OccursAtLeast(names[..n], i, i);
    }
  }

  /** Two suppliers with one display name: the spend of either is counted at least twice. */
  lemma SharedNameCountsTwice(names: seq<string>, i: nat, j: nat, amount: real)
    requires i < j < |names| && names[i] == names[j] && amount >= 0.0
    ensures var invoices := [Invoice(names[i], None, Some(amount))];
      Spend(invoices) == amount && CountedSpend(names, invoices) >= 2.0 * amount
  {
    var inv := Invoice(names[i], None, Some(amount));
    assert [inv][..0] == [];
    OccursAtLeast(names, i, j);
    MoreCountsMore(2, Occurrences(names, names[i]), amount);
  }

  predicate WithinRounding(names: seq<string>, invoices: seq<Invoice>) {
    Abs(GrandTotal(names, invoices) - Spend(invoices)) <= Tolerance(|names|)
  }

  lemma SharedNameIsOff(names: seq<string>, i: nat, j: nat)
    requires i < j < |names| && names[i] == names[j]
    ensures var invoices := [Invoice(names[i], None, Some(2.0 * Tolerance(|names|) + 1.0))];
      AllNamed(names, invoices) && !WithinRounding(names, invoices)
  {
    var amount := 2.0 * Tolerance(|names|) + 1.0;
    SharedNameCountsTwice(names, i, j, amount);
    GrandTotalCountsPerName(names, [Invoice(names[i], None, Some(amount))]);
  }

  /** The shown grand total is the invoices' spend up to rounding, whatever the invoices, if and only if no two
      suppliers share a display name. */
  lemma GrandTotalIsRightExactlyWhenNamesDiffer(names: seq<string>)
    ensures DistinctNames(names) <==> (forall invoices | AllNamed(names, invoices) :: WithinRounding(names, invoices))
  {
    if DistinctNames(names) {
      forall invoices | AllNamed(names, invoices) ensures WithinRounding(names, invoices) {
        GrandTotalMeetsSpend(names, invoices);
      }
    } else {
      var i: nat, j: nat :| i < j < |names| && names[i] == names[j];
      SharedNameIsOff(names, i, j);
    }
  }

  lemma MoreCountsMore(m: nat, n: nat, amount: real)
    requires m <= n && amount >= 0.0
    ensures Times(m, amount) <= Times(n, amount)
  {
    assert Times(n, amount) == Times(m, amount) + (n - m) as real * amount;
  }

  // ---- The builders ----

  lemma RowsNext<K>(items: seq<Item>, keyOf: Item -> K, n: nat)
    requires n < |items|
    ensures var rows := Rows(items[..n], keyOf, PriceOf);
      Group(Rows(items[..n + 1], keyOf, PriceOf))
        == if items[n].price.Some? then Add(Group(rows), keyOf(items[n]), items[n].price.value) else Group(rows)
  {
    assert items[..n + 1][..n] == items[..n];
    var rows := Rows(items[..n], keyOf, PriceOf);
    if items[n].price.Some? {
      assert (rows + [(keyOf(items[n]), items[n].price.value)])[..|rows|] == rows;
    } else {
      assert rows + [] == rows;
    }
  }

  /** A missing key is appended with nothing, then added to. */
  lemma AddInPlace<K>(cells: seq<Cell<K>>, key: K, amount: real)
    ensures var k := IndexOf(cells, key);
      var agg := if k == |cells| then cells + [Cell(key, 0, 0.0)] else cells;
      Add(cells, key, amount) == agg[k := agg[k].(count := agg[k].count + 1, total := agg[k].total + amount)]
  {
  }

  method FindKey<K(==)>(cells: seq<Cell<K>>, key: K) returns (k: nat)
    ensures k == IndexOf(cells, key)
  {
    k := 0;
    while k < |cells| && cells[k].key != key
      invariant k <= |cells|
      invariant forall i | 0 <= i < k :: cells[i].key != key
    {
      k := k + 1;
    }
    assert k <= IndexOf(cells, key) && IndexOf(cells, key) <= k;
  }

  /** for it in items: accumulate its price under its key. */
  method Accumulate<K(==)>(items: seq<Item>, keyOf: Item -> K) returns (agg: seq<Cell<K>>)
    ensures agg == Group(Rows(items, keyOf, PriceOf))
  {
    agg := [];
    for n := 0 to |items|
      invariant agg == Group(Rows(items[..n], keyOf, PriceOf))
    {
      RowsNext(items, keyOf, n);
      var it := items[n];
      if it.price.Some? {
        var k := FindKey(agg, keyOf(it));
        AddInPlace(agg, keyOf(it), it.price.value);
        if k == |agg| {
          agg := agg + [Cell(keyOf(it), 0, 0.0)];
        }
        agg := agg[k := agg[k].(count := agg[k].count + 1, total := agg[k].total + it.price.value)];
      }
    }
    assert items[..|items|] == items;
  }

  method CatTotals(items: seq<Item>) returns (shown: seq<Cell<string>>)
    ensures shown == SortDescending(RoundCells(CatCells(items)))
  {
    var agg := Accumulate(items, Category);
    shown := SortDescending(RoundCells(agg));
  }

  /** Each shown row of the matrix meets its category's shown total, up to rounding. */
  method CatDeptMatrix(items: seq<Item>) returns (shown: seq<Cell<(string, string)>>)
    ensures shown == RoundCells(CatDeptCells(items))
    ensures forall i: nat | i < |CatCells(items)| :: RowMeetsTotal(shown, RoundCells(CatCells(items))[i])
  {
    var agg := Accumulate(items, CatDept);
    shown := RoundCells(agg);
    forall i: nat | i < |CatCells(items)| ensures RowMeetsTotal(shown, RoundCells(CatCells(items))[i]) {
      ShownRowMeetsShownTotal(items, i);
    }
  }

  method CatSupplierMatrix(items: seq<Item>) returns (shown: seq<Cell<(string, string)>>)
    ensures shown == RoundCells(CatSupplierCells(items))
    ensures forall i: nat | i < |CatCells(items)| :: RowMeetsTotal(shown, RoundCells(CatCells(items))[i])
  {
    var agg := Accumulate(items, CatSupplier);
    shown := RoundCells(agg);
    forall i: nat | i < |CatCells(items)| ensures RowMeetsTotal(shown, RoundCells(CatCells(items))[i]) {
      ShownRowMeetsShownTotal(items, i);
    }
  }

  datatype SupplierTotal = SupplierTotal(name: string, count: nat, total: real, items: nat)

  function Named(invoices: seq<Invoice>, name: string): seq<Invoice> {
    if invoices == [] then []
    else
      var inv := invoices[|invoices| - 1];
      Named(invoices[..|invoices| - 1], name) + if inv.supplierName == name then [inv] else []
  }

  lemma {:induction false} NamedSpend(invoices: seq<Invoice>, name: string)
    ensures Spend(Named(invoices, name)) == SpendOf(invoices, name)
  {
    if invoices != [] {
      var n := |invoices| - 1;
      NamedSpend(invoices[..n], name);
      var mine := Named(invoices[..n], name);
      assert (mine + [invoices[n]])[..|mine|] == mine && mine + [] == mine;
    }
  }

  function ItemsNamed(items: seq<Item>, name: string): seq<Item> {
    if items == [] then []
    else
      var it := items[|items| - 1];
      ItemsNamed(items[..|items| - 1], name) + if it.supplierName == name then [it] else []
  }

  /** What is shown for one display name. */
  function TotalFor(name: string, invoices: seq<Invoice>, items: seq<Item>): SupplierTotal {
    SupplierTotal(name, |Named(invoices, name)|, Round4(SpendOf(invoices, name)), |ItemsNamed(items, name)|)
  }

  method SumInvoices(invoices: seq<Invoice>) returns (sum: real)
    ensures sum == Spend(invoices)
  {
    sum := 0.0;
    for n := 0 to |invoices|
      invariant sum == Spend(invoices[..n])
    {
      assert invoices[..n + 1][..n] == invoices[..n];
      if invoices[n].total.Some? {
        sum := sum + invoices[n].total.value;
      }
    }
    assert invoices[..|invoices|] == invoices;
  }

  /** Supplier totals and grand total over all suppliers' invoices. */
  method SupplierTotals(names: seq<string>, invoices: seq<Invoice>, items: seq<Item>)
    returns (totals: seq<SupplierTotal>, grand: real)
    ensures |totals| == |names| && forall i | 0 <= i < |names| :: totals[i] == TotalFor(names[i], invoices, items)
    ensures grand == GrandTotal(names, invoices)
  {
    totals, grand := [], 0.0;
    for n := 0 to |names|
      invariant |totals| == n && forall i | 0 <= i < n :: totals[i] == TotalFor(names[i], invoices, items)
      invariant grand == GrandTotal(names[..n], invoices)
    {
      assert names[..n + 1][..n] == names[..n];
      var mine := Named(invoices, names[n]);
      var sum := SumInvoices(mine);
      NamedSpend(invoices, names[n]);
      totals := totals + [SupplierTotal(names[n], |mine|, Round4(sum), |ItemsNamed(items, names[n])|)];
      grand := grand + Round4(sum);
    }
    assert names[..|names|] == names;
  }
}
