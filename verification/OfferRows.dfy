/** One offer row: box resolution, mapping onto costing inputs, pricing, report line
    (epiproc/costing/offer_import.py). */
module OfferRows {
  import opened Common
  import opened Rounding
  import opened Calc
  import opened CostingTables

  datatype OfferRow = OfferRow(
    rowNumber: int, name: string, ean: Option<string>, upt: Option<int>, materialCost: Option<real>,
    boxHeight: Option<int>, perPalletRaw: Option<string>, warnings: seq<string>)

  datatype BoxType = BoxType(code: string, dimensions: Option<string>, price: real)

  datatype MenuItem = MenuItem(name: string, unitCost: real, kind: MenuKind)

  /** `costing_defaults`; a key stored as null is None. */
  datatype Defaults = Defaults(
    vatRate: Option<real>, eurRate: Option<real>, wastePct: Option<real>, intakeLabourPct: Option<real>,
    additionalPct: Option<real>, customerTargetMargin: Option<real>, ourTargetMargin: Option<real>,
    palletRate: Option<real>, boxesPerCC: Option<real>, qtyPerBox: Option<real>, pricePerPallet: Option<real>,
    fillRate: Option<real>, boxesOnOrder: Option<real>, fuelSurchargePct: Option<real>)

  /** What an import reads once at its start, and the calculator it calls. */
  datatype Settings = Settings(compute: Calculator, defaults: Defaults, boxTypes: seq<BoxType>,
                               menuItems: seq<MenuItem>)

  // ---- Boxes ----

  predicate IsBoxSep(c: char) {
    c == '\U{0445}' || c == 'x' || c == 'X' || c == '\U{00D7}' || c == '*'
  }

  function TrimSeps(s: string): string {
    if s != "" && IsBoxSep(s[|s| - 1]) then TrimSeps(s[..|s| - 1]) else s
  }

  function LastPart(s: string): string {
    if s == "" || IsBoxSep(s[|s| - 1]) then "" else LastPart(s[..|s| - 1]) + [s[|s| - 1]]
  }

  /** The last component of the dimensions, when it is a whole number: the height in cm. */
  function BoxHeight(bt: BoxType): Option<int> {
    var part := Strip(LastPart(TrimSeps(bt.dimensions.GetOr(""))));
    if part != "" && AllDigits(part) then Some(Decimal(part)) else None
  }

  predicate Fits(bt: BoxType, height: int) {
    BoxHeight(bt).Some? && BoxHeight(bt).value >= height
  }

  /** The lowest fitting box, the first listed among equals. */
  function SmallestFit(height: int, boxes: seq<BoxType>): Option<BoxType> {
    if boxes == [] then None
    else
      var best := SmallestFit(height, boxes[..|boxes| - 1]);
      var bt := boxes[|boxes| - 1];
      if Fits(bt, height) && (best.None? || BoxHeight(bt).value < BoxHeight(best.value).GetOr(0)) then Some(bt)
      else best
  }

  /** The chosen box is a listed one, holds the height, and no listed box that holds it is lower;
      no box is chosen exactly when none holds it. */
  lemma {:induction false} SmallestFitIsMinimal(height: int, boxes: seq<BoxType>)
    ensures var r := SmallestFit(height, boxes);
      && (r.Some? ==> r.value in boxes && Fits(r.value, height))
      && (r.Some? ==> forall b | b in boxes && Fits(b, height) :: BoxHeight(r.value).value <= BoxHeight(b).value)
      && (r.None? ==> forall b | b in boxes :: !Fits(b, height))
  {
    if boxes != [] {
      var n := |boxes| - 1;
      assert boxes == boxes[..n] + [boxes[n]];
      SmallestFitIsMinimal(height, boxes[..n]);
    }
  }

  /** Box `k` holds the height and is lower than every listed box before it that does. */
  predicate FirstSoLow(height: int, boxes: seq<BoxType>, k: nat)
    requires k < |boxes|
  {
    Fits(boxes[k], height)
    && forall j | 0 <= j < k && Fits(boxes[j], height) :: BoxHeight(boxes[k]).value < BoxHeight(boxes[j]).value
  }

  lemma FirstStaysFirst(height: int, boxes: seq<BoxType>, n: nat, k: nat)
    requires k < n <= |boxes| && FirstSoLow(height, boxes[..n], k)
    ensures FirstSoLow(height, boxes, k)
  {
    forall j | 0 <= j < k ensures boxes[..n][j] == boxes[j] {
    }
  }

  lemma NewlyChosenIsFirst(height: int, boxes: seq<BoxType>, n: nat)
    requires n < |boxes| && Fits(boxes[n], height)
    requires var best := SmallestFit(height, boxes[..n]);
      best.Some? ==> BoxHeight(boxes[n]).value < BoxHeight(best.value).GetOr(0)
    ensures FirstSoLow(height, boxes, n)
  {
    SmallestFitIsMinimal(height, boxes[..n]);
    forall j | 0 <= j < n && Fits(boxes[j], height) ensures BoxHeight(boxes[n]).value < BoxHeight(boxes[j]).value {
      assert boxes[..n][j] in boxes[..n];
    }
  }

  /** Of equally low boxes the first listed one is chosen. */
  lemma {:induction false} SmallestFitIsFirst(height: int, boxes: seq<BoxType>) returns (k: nat)
    requires SmallestFit(height, boxes).Some?
    ensures k < |boxes| && boxes[k] == SmallestFit(height, boxes).value && FirstSoLow(height, boxes, k)
  {
    var n := |boxes| - 1;
    var best := SmallestFit(height, boxes[..n]);
    if Fits(boxes[n], height) && (best.None? || BoxHeight(boxes[n]).value < BoxHeight(best.value).GetOr(0)) {
      NewlyChosenIsFirst(height, boxes, n);
      k := n;
    } else {
      k := SmallestFitIsFirst(height, boxes[..n]);
      FirstStaysFirst(height, boxes, n, k);
    }
  }

  type Fitting = (int, BoxType)

  /** Stable insertion by height, as `list.sort(key=...)` orders. */
  function InsertByHeight(s: seq<Fitting>, x: Fitting): seq<Fitting> {
    if s == [] || x.0 < s[0].0 then [x] + s else [s[0]] + InsertByHeight(s[1..], x)
  }

  function SortByHeight(s: seq<Fitting>): (r: seq<Fitting>)
    ensures r == [] <==> s == []
  {
    if s == [] then [] else InsertByHeight(SortByHeight(s[..|s| - 1]), s[|s| - 1])
  }

  method ResolveBox(height: int, boxes: seq<BoxType>) returns (r: Option<BoxType>)
    ensures r == SmallestFit(height, boxes)
  {
    var fitting: seq<Fitting> := [];
    for i := 0 to |boxes|
      invariant forall f | f in fitting :: BoxHeight(f.1) == Some(f.0)
      invariant SmallestFit(height, boxes[..i]) ==
        if fitting == [] then None else Some(SortByHeight(fitting)[0].1)
      invariant fitting != [] ==> BoxHeight(SortByHeight(fitting)[0].1) == Some(SortByHeight(fitting)[0].0)
    {
      var bt := boxes[i];
      assert boxes[..i + 1][..i] == boxes[..i];
      var h := BoxHeight(bt);
      if h.Some? && h.value >= height {
        assert (fitting + [(h.value, bt)])[..|fitting|] == fitting;
        fitting := fitting + [(h.value, bt)];
      }
    }
    assert boxes[..|boxes|] == boxes;
    r := if fitting == [] then None else Some(SortByHeight(fitting)[0].1);
  }

  // ---- Costing inputs ----

  function DefaultQty(name: string, kind: MenuKind): real {
    match kind
    case PackagingPerUnit => if Lower(name) == "consumables" then 1.0 else 0.0
    case PackagingPerCase => if Lower(name) == "consumables" then 1.0 else 0.0
    case Labour => if Lower(name) in {"pack on line", "labelling"} then 1.0 else 0.0
    case Equipment => 0.0
  }

  /** The default selection of one kind of menu line. */
  function Select(items: seq<MenuItem>, kind: MenuKind): seq<MenuSelection> {
    if items == [] then []
    else
      var it := items[|items| - 1];
      Select(items[..|items| - 1], kind)
      + if it.kind != kind then []
        else [MenuSelection(it.name, it.unitCost, DefaultQty(it.name, kind), kind,
                            kind == Equipment && Lower(it.name) == "chep pallets")]
  }

  method SelectLoop(items: seq<MenuItem>, kind: MenuKind) returns (out: seq<MenuSelection>)
    ensures out == Select(items, kind)
  {
    out := [];
    for i := 0 to |items|
      invariant out == Select(items[..i], kind)
    {
      var it := items[i];
      assert items[..i + 1][..i] == items[..i];
      if it.kind != kind { continue; }
      out := out + [MenuSelection(it.name, it.unitCost, DefaultQty(it.name, kind), kind,
                                  kind == Equipment && Lower(it.name) == "chep pallets")];
    }
    assert items[..|items|] == items;
  }

  function InputsFor(upt: int, name: string, cost: real, box: BoxType, settings: Settings): CostingInputs {
    var d := settings.defaults;
    CostingInputs(
      upt, d.eurRate.GetOr(1.0), [MaterialLine(name, cost, 1.0)],
      InboundTransport(d.qtyPerBox.GetOr(1.0), d.boxesPerCC.GetOr(0.0), d.palletRate.GetOr(0.0)),
      d.wastePct.GetOr(0.0),
      Select(settings.menuItems, PackagingPerUnit) + Select(settings.menuItems, PackagingPerCase),
      PackagingPcts(0.0, 0.0, 0.0),
      BoxSelection(Some(box.code), box.price),
      Select(settings.menuItems, Equipment),
      Outbound(d.pricePerPallet.GetOr(0.0), d.fillRate.GetOr(1.0), d.boxesOnOrder.GetOr(0.0),
               d.fuelSurchargePct.GetOr(0.0)),
      Select(settings.menuItems, Labour),
      d.intakeLabourPct.GetOr(0.0), d.additionalPct.GetOr(0.0), d.vatRate.GetOr(0.0),
      None, None, d.customerTargetMargin.GetOr(0.0), d.ourTargetMargin.GetOr(0.0))
  }

  /** A warning is listed once. */
  function Warn(warnings: seq<string>, w: string): seq<string> {
    if w in warnings then warnings else warnings + [w]
  }

  /** None when the row cannot be costed yet; a height no box holds also leaves a warning. */
  function BuildInputs(row: OfferRow, settings: Settings): (Option<CostingInputs>, seq<string>) {
    if row.upt.None? || row.materialCost.None? || row.boxHeight.None? then (None, row.warnings)
    else
      var box := SmallestFit(row.boxHeight.value, settings.boxTypes);
      if box.None? then (None, Warn(row.warnings, "box_unresolved"))
      else (Some(InputsFor(row.upt.value, row.name, row.materialCost.value, box.value, settings)), row.warnings)
  }

  method BuildInputsLoop(row: OfferRow, settings: Settings)
    returns (inputs: Option<CostingInputs>, warnings: seq<string>)
    ensures (inputs, warnings) == BuildInputs(row, settings)
  {
    warnings := row.warnings;
    if row.upt.None? || row.materialCost.None? || row.boxHeight.None? {
      return None, warnings;
    }
    var box := ResolveBox(row.boxHeight.value, settings.boxTypes);
    if box.None? {
      if "box_unresolved" !in warnings {
        warnings := warnings + ["box_unresolved"];
      }
      return None, warnings;
    }
    var perUnit := SelectLoop(settings.menuItems, PackagingPerUnit);
    var perCase := SelectLoop(settings.menuItems, PackagingPerCase);
    var equipment := SelectLoop(settings.menuItems, Equipment);
    var labour := SelectLoop(settings.menuItems, Labour);
    var d := settings.defaults;
    inputs := Some(CostingInputs(
      row.upt.value, d.eurRate.GetOr(1.0), [MaterialLine(row.name, row.materialCost.value, 1.0)],
      InboundTransport(d.qtyPerBox.GetOr(1.0), d.boxesPerCC.GetOr(0.0), d.palletRate.GetOr(0.0)),
      d.wastePct.GetOr(0.0), perUnit + perCase, PackagingPcts(0.0, 0.0, 0.0),
      BoxSelection(Some(box.value.code), box.value.price), equipment,
      Outbound(d.pricePerPallet.GetOr(0.0), d.fillRate.GetOr(1.0), d.boxesOnOrder.GetOr(0.0),
               d.fuelSurchargePct.GetOr(0.0)),
      labour, d.intakeLabourPct.GetOr(0.0), d.additionalPct.GetOr(0.0), d.vatRate.GetOr(0.0),
      None, None, d.customerTargetMargin.GetOr(0.0), d.ourTargetMargin.GetOr(0.0)));
  }

  // ---- Pricing ----

  /** What the driver looks at in the product it found. */
  datatype Seen = Absent | AutoPriced | HumanPriced(selling: Option<real>, retail: Option<real>)

  function StoredSelling(seen: Seen): Option<real> {
    if seen.HumanPriced? then seen.selling else None
  }

  function StoredRetail(seen: Seen): Option<real> {
    if seen.HumanPriced? then seen.retail else None
  }

  /** The workbook's Target FP, rounded to 2dp. */
  function AutoSelling(total: real, margin: real): real
    requires margin < 1.0
  {
    RoundHalfUp2(total / (1.0 - margin))
  }

  /** The workbook's Target Retail, rounded to 2dp. */
  function AutoRetail(selling: real, margin: real, vatRate: real): real
    requires margin < 1.0
  {
    RoundHalfUp2(WithVat(selling / (1.0 - margin), vatRate))
  }

  /** A stored admin price wins; otherwise our target margin, unless it is missing or >= 100%. */
  function ChooseSelling(seen: Seen, total: real, d: Defaults): Option<real> {
    if StoredSelling(seen).Some? then StoredSelling(seen)
    else if d.ourTargetMargin.Some? && d.ourTargetMargin.value < 1.0 then
      Some(AutoSelling(total, d.ourTargetMargin.value))
    else None
  }

  function ChooseRetail(seen: Seen, selling: Option<real>, d: Defaults): Option<real> {
    if StoredRetail(seen).Some? then StoredRetail(seen)
    else if selling.Some? && d.customerTargetMargin.Some? && d.vatRate.Some? && d.customerTargetMargin.value < 1.0 then
      Some(AutoRetail(selling.value, d.customerTargetMargin.value, d.vatRate.value))
    else None
  }

  /** A costed row: the snapshot that is saved, and the prices written to the product. */
  datatype Costed = Costed(inputs: CostingInputs, results: CostingResults)

  function PriceRow(inputs: CostingInputs, seen: Seen, settings: Settings): Costed {
    var total := settings.compute(inputs).totalDirectCost;
    var selling := ChooseSelling(seen, total, settings.defaults);
    var retail := ChooseRetail(seen, selling, settings.defaults);
    var priced := inputs.(sellingPrice := selling, retailPrice := retail);
    Costed(priced, settings.compute(priced))
  }

  // ---- Report lines ----

  datatype RowStatus = CostedRow | Attention | Skipped

  datatype Action = CreatedProduct | UpdatedProduct

  datatype RowReport = RowReport(
    rowNumber: int, name: string, ean: Option<string>, upt: Option<int>, materialCost: Option<real>,
    boxCode: Option<string>, perPalletRaw: Option<string>, status: RowStatus, totalDirectCost: Option<real>,
    sellingPrice: Option<real>, retailPrice: Option<real>, ourGp: Option<real>, customerGpPct: Option<real>,
    productAction: Option<Action>, warnings: seq<string>)

  function BlankReport(row: OfferRow, warnings: seq<string>, status: RowStatus, action: Option<Action>): RowReport {
    RowReport(row.rowNumber, row.name, row.ean, row.upt, row.materialCost, None, row.perPalletRaw, status,
              None, None, None, None, None, action, warnings)
  }

  /** The EAN a row is keyed and stored by. */
  function RowEan(row: OfferRow): Option<string> {
    KeyEan(row.ean)
  }

  /** A repeated valid EAN is flagged every time; a junk one once. */
  function EanWarnings(row: OfferRow, seenEans: set<string>): seq<string> {
    var key := RowEan(row);
    if key.Some? then
      if key.value in seenEans then row.warnings + ["duplicate_ean"] else row.warnings
    else if row.ean.GetOr("") != "" then Warn(row.warnings, "ean_suspect")
    else row.warnings
  }

  datatype RowResult = RowResult(report: RowReport, costed: Option<Costed>)

  /** Everything `handle` decides about a named row once it knows the product it found. */
  function HandleRow(row: OfferRow, seenEans: set<string>, seen: Seen, settings: Settings): RowResult {
    var action := if seen.Absent? then CreatedProduct else UpdatedProduct;
    var flagged := row.(warnings := EanWarnings(row, seenEans));
    var (inputs, warnings) := BuildInputs(flagged, settings);
    if inputs.None? then
      RowResult(BlankReport(row, warnings, Attention, Some(action)), None)
    else
      var c := PriceRow(inputs.value, seen, settings);
      var w := if c.inputs.sellingPrice.None? then Warn(warnings, "margin_invalid") else warnings;
      RowResult(BlankReport(row, w, CostedRow, Some(action)).(
                  boxCode := c.inputs.box.code, totalDirectCost := Some(c.results.totalDirectCost),
                  sellingPrice := c.inputs.sellingPrice, retailPrice := c.inputs.retailPrice,
                  ourGp := c.results.ourGp, customerGpPct := c.results.customerGpPct),
                Some(c))
  }

  // ---- Pricing theorems on imported rows ----

  /** A profit is our margin of the price, up to half a cent's share. */
  predicate MeetsMargin(gp: real, selling: real, m: real) {
    Abs(gp - m * selling) <= 0.005 * (1.0 - m)
  }

  /** The profit of an auto-priced row misses our target margin by at most half a cent's share. */
  lemma AutoPricedRowMeetsTheMargin(inputs: CostingInputs, seen: Seen, settings: Settings, m: real)
    requires settings.compute == Compute
    requires inputs.sellingPrice == None && inputs.retailPrice == None
    requires StoredSelling(seen) == None
    requires settings.defaults.ourTargetMargin == Some(m) && m < 1.0
    ensures var c := PriceRow(inputs, seen, settings);
      && c.inputs.sellingPrice.Some? && c.results.ourGp.Some?
      && MeetsMargin(c.results.ourGp.value, c.inputs.sellingPrice.value, m)
  {
    var t := settings.compute(inputs).totalDirectCost;
    var s := AutoSelling(t, m);
    ProfitIsPriceLessCost(inputs, s, ChooseRetail(seen, Some(s), settings.defaults));
    AutoSellingNearTarget(t, m);
  }

  lemma AutoSellingNearTarget(total: real, m: real)
    requires m < 1.0
    ensures MeetsMargin(AutoSelling(total, m) - total, AutoSelling(total, m), m)
  {
    var f, s := 1.0 - m, AutoSelling(total, m);
    GapOfShares(s, total, m);
    ScaledGap(s - total / f, f);
  }

  lemma GapOfShares(s: real, total: real, m: real)
    requires m < 1.0
    ensures s - total - m * s == (s - total / (1.0 - m)) * (1.0 - m)
  {
    QuotientTimes(total, 1.0 - m);
    Distributes(s, total / (1.0 - m), 1.0 - m);
    RestOfShare(s, m);
  }

  lemma QuotientTimes(x: real, f: real)
    requires f != 0.0
    ensures x / f * f == x
  {
  }

  lemma Distributes(x: real, y: real, f: real)
    ensures (x - y) * f == x * f - y * f
  {
  }

  lemma RestOfShare(s: real, m: real)
    ensures s * (1.0 - m) == s - m * s
  {
  }

  lemma ScaledGap(gap: real, f: real)
    requires f > 0.0 && Abs(gap) <= 0.005
    ensures Abs(gap * f) <= 0.005 * f
  {
    ScaleUp(gap, 0.005, f);
    ScaleUp(-gap, 0.005, f);
    Negated(gap, f);
  }

  lemma Negated(x: real, f: real)
    ensures (-x) * f == -(x * f)
  {
  }

  lemma AutoSellingMonotone(x: real, y: real, m: real)
    requires m < 1.0 && x <= y
    ensures AutoSelling(x, m) <= AutoSelling(y, m)
  {
    DivMonotone(x, y, 1.0 - m);
    RoundHalfUp2Monotone(x / (1.0 - m), y / (1.0 - m));
  }

  /** With non-negative rates, a dearer offer row never gets a lower auto price. */
  lemma AutoPriceMonotoneInMaterialCost(upt: int, name: string, cost: real, dearer: real, box: BoxType,
                                        seen: Seen, settings: Settings, m: real)
    requires settings.compute == Compute
    requires cost <= dearer
    requires settings.defaults.eurRate.GetOr(1.0) >= 0.0 && settings.defaults.wastePct.GetOr(0.0) >= 0.0
    requires StoredSelling(seen) == None
    requires settings.defaults.ourTargetMargin == Some(m) && m < 1.0
    ensures var low := PriceRow(InputsFor(upt, name, cost, box, settings), seen, settings).inputs.sellingPrice;
      var high := PriceRow(InputsFor(upt, name, dearer, box, settings), seen, settings).inputs.sellingPrice;
      low.Some? && high.Some? && low.value <= high.value
  {
    var inp, ms := InputsFor(upt, name, cost, box, settings), [MaterialLine(name, dearer, 1.0)];
    SingleLine(inp.materials[0]);
    SingleLine(ms[0]);
    CostMonotoneInMaterials(inp, ms);
    var dear := InputsFor(upt, name, dearer, box, settings);
    assert dear == inp.(materials := ms);
    AutoSellingMonotone(Compute(inp).totalDirectCost, Compute(dear).totalDirectCost, m);
  }

  lemma SingleLine(line: MaterialLine)
    ensures MaterialsSum([line]) == line.unitCost * line.qty
    ensures TransportUnits([line]) == line.qty
  {
    assert [line][..0] == [];
  }
}
