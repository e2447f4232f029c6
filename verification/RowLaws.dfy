/** What the costing, the prices and the report line of an offer row show of the row, of the product it
    found and of the settings (epiproc/costing/offer_import.py). */
module RowLaws {
  import opened Common
  import opened Rounding
  import opened Calc
  import opened CostingTables
  import opened OfferRows

  // ---- The height of a box ----

  /** A number in decimal digits. */
  function Written(n: nat): string {
    if n < 10 then [DigitOf(n)] else Written(n / 10) + [DigitOf(n % 10)]
  }

  function DigitOf(d: nat): char
    requires d < 10
  {
    '0' + d as char
  }

  lemma {:induction false} WrittenIsRead(n: nat)
    ensures Written(n) != "" && AllDigits(Written(n)) && Decimal(Written(n)) == n
  {
    if n < 10 {
      OneDigit(n);
    } else {
      WrittenIsRead(n / 10);
      OneMoreDigit(Written(n / 10), n % 10);
    }
  }

  lemma OneDigit(d: nat)
    requires d < 10
    ensures AllDigits([DigitOf(d)]) && Decimal([DigitOf(d)]) == d
  {
    assert [DigitOf(d)][..0] == [];
    assert Decimal("") == 0;
  }

  lemma OneMoreDigit(s: string, d: nat)
    requires AllDigits(s) && d < 10
    ensures AllDigits(s + [DigitOf(d)]) && Decimal(s + [DigitOf(d)]) == Decimal(s) * 10 + d
  {
    assert (s + [DigitOf(d)])[..|s|] == s;
  }

  /** x in either case, the Cyrillic one, the multiplication sign or an asterisk. */
  predicate Separates(c: char) {
    c in {'x', 'X', '*'} || c as int == 0x445 || c as int == 0xD7
  }

  lemma SeparatorsSeparate(c: char)
    ensures IsBoxSep(c) <==> Separates(c)
  {
  }

  predicate AllSeps(s: string) {
    forall i | 0 <= i < |s| :: Separates(s[i])
  }

  lemma {:induction false} TrimSkips(s: string, seps: string)
    requires AllSeps(seps) && s != "" && !IsBoxSep(s[|s| - 1])
    ensures TrimSeps(s + seps) == s
  {
    if seps == "" {
      assert s + seps == s;
    } else {
      var n := |seps| - 1;
      SeparatorsSeparate(seps[n]);
      assert (s + seps)[..|s + seps| - 1] == s + seps[..n];
      TrimSkips(s, seps[..n]);
    }
  }

  lemma {:induction false} LastPartStops(before: string, part: string)
    requires before == "" || IsBoxSep(before[|before| - 1])
    requires forall i | 0 <= i < |part| :: !IsBoxSep(part[i])
    ensures LastPart(before + part) == part
  {
    if part == "" {
      assert before + part == before;
    } else {
      var n := |part| - 1;
      assert (before + part)[..|before + part| - 1] == before + part[..n];
      LastPartStops(before, part[..n]);
    }
  }

  lemma DigitsAreNoSeps(s: string)
    requires AllDigits(s)
    ensures forall i | 0 <= i < |s| :: !IsBoxSep(s[i]) && !IsSpace(s[i])
  {
    forall i | 0 <= i < |s| ensures !IsBoxSep(s[i]) && !IsSpace(s[i]) {
      assert IsDigit(s[i]);
    }
  }

  lemma NumberIsLastPart(before: string, number: string, seps: string)
    requires (before == "" || Separates(before[|before| - 1])) && AllSeps(seps)
    requires number != "" && AllDigits(number)
    ensures LastPart(TrimSeps(before + number + seps)) == number
  {
    DigitsAreNoSeps(number);
    if before != "" {
      SeparatorsSeparate(before[|before| - 1]);
    }
    TrimSkips(before + number, seps);
    LastPartStops(before, number);
  }

  lemma NumberStripped(number: string)
    requires number != "" && AllDigits(number)
    ensures Strip(number) == number
  {
    DigitsAreNoSeps(number);
    assert "" + number + "" == number;
    StripLosesTheFrame(number, "", number, "");
  }

  /** The height of a box is the number after the last separator, whatever stands before it, also when further
      separators follow. */
  lemma BoxHeightIsTheLastNumber(bt: BoxType, before: string, height: nat, seps: string)
    requires bt.dimensions == Some(before + Written(height) + seps)
    requires (before == "" || Separates(before[|before| - 1])) && AllSeps(seps)
    ensures BoxHeight(bt) == Some(height)
  {
    WrittenIsRead(height);
    NumberIsLastPart(before, Written(height), seps);
    NumberStripped(Written(height));
  }

  // ---- Menu lines ----

  /** Switched on for every import: consumables of either packaging kind, packing on line and labelling. */
  predicate OnByDefault(it: MenuItem) {
    var name := Lower(it.name);
    match it.kind
    case PackagingPerUnit => name == "consumables"
    case PackagingPerCase => name == "consumables"
    case Labour => name == "pack on line" || name == "labelling"
    case Equipment => false
  }

  /** A menu item joins the selection of its own kind, at its own cost, as the last line and once. */
  lemma SelectionTakesItsKind(items: seq<MenuItem>, it: MenuItem, kind: MenuKind)
    ensures var before, after := Select(items, kind), Select(items + [it], kind);
      if it.kind != kind then after == before
      else
        |after| == |before| + 1 && before <= after &&
        var s := after[|before|];
        && s.name == it.name && s.unitCost == it.unitCost && s.kind == it.kind
        && s.qty == (if OnByDefault(it) then 1.0 else 0.0)
        && (s.divideByPack <==> it.kind == Equipment && Lower(it.name) == "chep pallets")
  {
    assert (items + [it])[..|items|] == items;
    DefaultsAreOn(it);
  }

  lemma DefaultsAreOn(it: MenuItem)
    ensures DefaultQty(it.name, it.kind) == if OnByDefault(it) then 1.0 else 0.0
  {
  }

  // ---- Inputs ----

  /** The box is at least so high. */
  predicate HoldsHeight(b: BoxType, height: Option<int>) {
    height.Some? && BoxHeight(b).Some? && BoxHeight(b).value >= height.value
  }

  /** A row has inputs exactly when its tray, its cost and its height are given and some box holds the height. */
  lemma CostableExactlyWhen(row: OfferRow, settings: Settings)
    ensures BuildInputs(row, settings).0.Some? <==>
      row.upt.Some? && row.materialCost.Some? && row.boxHeight.Some?
      && exists b :: b in settings.boxTypes && HoldsHeight(b, row.boxHeight)
  {
    if row.boxHeight.Some? {
      SmallestFitIsMinimal(row.boxHeight.value, settings.boxTypes);
    }
  }

  /** The inputs carry the row and the lowest box that holds it; no price is set. */
  lemma InputsCarryTheRow(row: OfferRow, settings: Settings)
    requires BuildInputs(row, settings).0.Some?
    ensures var inp := BuildInputs(row, settings).0.value;
      && Some(inp.unitsPerTray) == row.upt
      && |inp.materials| == 1 && inp.materials[0].name == row.name
      && Some(inp.materials[0].unitCost) == row.materialCost && inp.materials[0].qty == 1.0
      && inp.sellingPrice == None && inp.retailPrice == None
      && exists b :: b in settings.boxTypes && HoldsHeight(b, row.boxHeight)
           && inp.box.code == Some(b.code) && inp.box.price == b.price
           && forall c | c in settings.boxTypes && HoldsHeight(c, row.boxHeight) ::
                BoxHeight(b).value <= BoxHeight(c).value
  {
    SmallestFitIsMinimal(row.boxHeight.value, settings.boxTypes);
    var b := SmallestFit(row.boxHeight.value, settings.boxTypes).value;
    assert b in settings.boxTypes && HoldsHeight(b, row.boxHeight);
  }

  /** ... and every rate is the default of its own name: nothing when it is not set, one for the exchange rate,
      the units of a box and the fill rate. */
  lemma InputsCarryTheDefaults(row: OfferRow, settings: Settings)
    requires BuildInputs(row, settings).0.Some?
    ensures var inp, d := BuildInputs(row, settings).0.value, settings.defaults;
      && inp.eurRate == d.eurRate.GetOr(1.0)
      && inp.inbound.qtyPerBox == d.qtyPerBox.GetOr(1.0)
      && inp.outbound.fillRate == d.fillRate.GetOr(1.0)
      && inp.inbound.boxesPerCC == d.boxesPerCC.GetOr(0.0)
      && inp.inbound.palletRate == d.palletRate.GetOr(0.0)
      && inp.wastePct == d.wastePct.GetOr(0.0)
      && inp.outbound.pricePerPallet == d.pricePerPallet.GetOr(0.0)
      && inp.outbound.boxesOnOrder == d.boxesOnOrder.GetOr(0.0)
      && inp.outbound.fuelSurchargePct == d.fuelSurchargePct.GetOr(0.0)
      && inp.intakeLabourPct == d.intakeLabourPct.GetOr(0.0)
      && inp.additionalPct == d.additionalPct.GetOr(0.0)
      && inp.vatRate == d.vatRate.GetOr(0.0)
      && inp.customerTargetMargin == d.customerTargetMargin.GetOr(0.0)
      && inp.ourTargetMargin == d.ourTargetMargin.GetOr(0.0)
      && inp.packagingPct.waste == 0.0 && inp.packagingPct.writeOff == 0.0 && inp.packagingPct.storage == 0.0
      && inp.packaging == Select(settings.menuItems, PackagingPerUnit) + Select(settings.menuItems, PackagingPerCase)
      && inp.equipment == Select(settings.menuItems, Equipment)
      && inp.labour == Select(settings.menuItems, Labour)
  {
  }

  // ---- Prices ----

  /** A whole number of cents. */
  predicate InCents(price: real) {
    (price * 100.0).Floor as real == price * 100.0
  }

  /** `price` is the amount `p` with p * share == value, to the nearest cent. */
  predicate NearestCent(price: real, share: real, value: real) {
    InCents(price) && Abs(Times(price, share) - value) <= Times(0.005, share)
  }

  function Times(x: real, y: real): real {
    x * y
  }

  lemma NearSolution(price: real, p: real, share: real, value: real)
    requires share > 0.0 && p * share == value
    requires InCents(price) && Abs(price - p) <= 0.005
    ensures NearestCent(price, share, value)
  {
    ScaledGap(price - p, share);
    Distributes(price, p, share);
  }

  lemma RoundedSolution(p: real, share: real, value: real)
    requires share > 0.0 && p * share == value
    ensures NearestCent(RoundHalfUp2(p), share, value)
  {
    HalfUpIsTheNearestCent(p);
    NearSolution(RoundHalfUp2(p), p, share, value);
  }

  lemma SellingToTheCent(total: real, m: real)
    requires m < 1.0
    ensures NearestCent(AutoSelling(total, m), 1.0 - m, total)
  {
    QuotientTimes(total, 1.0 - m);
    RoundedSolution(total / (1.0 - m), 1.0 - m, total);
  }

  lemma Swapped(x: real, y: real, z: real)
    ensures x * y * z == x * z * y
  {
  }

  lemma VatOnTop(net: real, share: real, selling: real, vatRate: real)
    requires net * share == selling
    ensures WithVat(net, vatRate) * share == Times(selling, 1.0 + vatRate)
  {
    Swapped(net, 1.0 + vatRate, share);
  }

  lemma RetailToTheCent(selling: real, m: real, vatRate: real)
    requires m < 1.0
    ensures NearestCent(AutoRetail(selling, m, vatRate), 1.0 - m, Times(selling, 1.0 + vatRate))
  {
    var net := selling / (1.0 - m);
    QuotientTimes(selling, 1.0 - m);
    VatOnTop(net, 1.0 - m, selling, vatRate);
    RoundedSolution(WithVat(net, vatRate), 1.0 - m, Times(selling, 1.0 + vatRate));
  }

  /** The selling price of a costed row: the admin's, else the one whose share after our target margin is the cost,
      to the cent; none when that margin is missing or 100% and more. */
  predicate SoldAt(price: Option<real>, seen: Seen, total: real, margin: Option<real>) {
    if seen.HumanPriced? && seen.selling.Some? then price == seen.selling
    else
      && (price.Some? <==> margin.Some? && margin.value < 1.0)
      && (price.Some? ==> NearestCent(price.value, 1.0 - margin.value, total))
  }

  /** The retail price: the admin's, else the one whose share after the customer's margin is the selling price with
      VAT, to the cent; none without a selling price, a VAT rate or a margin below 100%. */
  predicate RetailedAt(price: Option<real>, seen: Seen, selling: Option<real>, margin: Option<real>, vat: Option<real>)
  {
    if seen.HumanPriced? && seen.retail.Some? then price == seen.retail
    else
      && (price.Some? <==> selling.Some? && margin.Some? && vat.Some? && margin.value < 1.0)
      && (price.Some? ==> NearestCent(price.value, 1.0 - margin.value, Times(selling.value, 1.0 + vat.value)))
  }

  lemma SellingIsChosen(seen: Seen, total: real, d: Defaults)
    ensures SoldAt(ChooseSelling(seen, total, d), seen, total, d.ourTargetMargin)
  {
    if d.ourTargetMargin.Some? && d.ourTargetMargin.value < 1.0 {
      SellingToTheCent(total, d.ourTargetMargin.value);
    }
  }

  lemma RetailIsChosen(seen: Seen, selling: Option<real>, d: Defaults)
    ensures RetailedAt(ChooseRetail(seen, selling, d), seen, selling, d.customerTargetMargin, d.vatRate)
  {
    if selling.Some? && d.customerTargetMargin.Some? && d.vatRate.Some? && d.customerTargetMargin.value < 1.0 {
      RetailToTheCent(selling.value, d.customerTargetMargin.value, d.vatRate.value);
    }
  }

  /** Both prices of a costed row, and that nothing else of its inputs changes; the figures are those at the prices. */
  lemma RowIsPriced(inputs: CostingInputs, seen: Seen, settings: Settings)
    ensures var c, d := PriceRow(inputs, seen, settings), settings.defaults;
      && SoldAt(c.inputs.sellingPrice, seen, settings.compute(inputs).totalDirectCost, d.ourTargetMargin)
      && RetailedAt(c.inputs.retailPrice, seen, c.inputs.sellingPrice, d.customerTargetMargin, d.vatRate)
      && c.inputs == inputs.(sellingPrice := c.inputs.sellingPrice, retailPrice := c.inputs.retailPrice)
      && c.results == settings.compute(c.inputs)
  {
    var d, total := settings.defaults, settings.compute(inputs).totalDirectCost;
    SellingIsChosen(seen, total, d);
    RetailIsChosen(seen, ChooseSelling(seen, total, d), d);
  }

  // ---- Report lines ----

  predicate ValidEan(row: OfferRow) {
    row.ean.Some? && |row.ean.value| in {8, 13}
  }

  /** The reasons for a warning on the line of a named row. */
  predicate Reason(w: string, row: OfferRow, eans: set<string>, seen: Seen, settings: Settings) {
    var given := row.upt.Some? && row.materialCost.Some? && row.boxHeight.Some?;
    var costed := BuildInputs(row, settings).0.Some?;
    || (w == "duplicate_ean" && ValidEan(row) && row.ean.value in eans)
    || (w == "ean_suspect" && row.ean.GetOr("") != "" && !ValidEan(row))
    || (w == "box_unresolved" && given && !costed)
    || (w == "margin_invalid" && costed && !(seen.HumanPriced? && seen.selling.Some?)
        && settings.defaults.ourTargetMargin.GetOr(1.0) >= 1.0)
  }

  lemma InputsIgnoreWarnings(row: OfferRow, warnings: seq<string>, settings: Settings)
    ensures BuildInputs(row.(warnings := warnings), settings).0 == BuildInputs(row, settings).0
  {
  }

  lemma WarnedOnce(warnings: seq<string>, w: string, x: string)
    ensures warnings <= Warn(warnings, w) && (x in Warn(warnings, w) <==> x in warnings || x == w)
  {
  }

  lemma EanIsFlagged(row: OfferRow, eans: set<string>, w: string)
    ensures row.warnings <= EanWarnings(row, eans)
    ensures w in EanWarnings(row, eans) <==>
      w in row.warnings
      || (w == "duplicate_ean" && ValidEan(row) && row.ean.value in eans)
      || (w == "ean_suspect" && row.ean.GetOr("") != "" && !ValidEan(row))
  {
    WarnedOnce(row.warnings, "ean_suspect", w);
  }

  /** The line keeps the row's own warnings and adds exactly those there is a reason for. */
  lemma LineWarnsWithReason(row: OfferRow, eans: set<string>, seen: Seen, settings: Settings, w: string)
    ensures var warnings := HandleRow(row, eans, seen, settings).report.warnings;
      row.warnings <= warnings && (w in warnings <==> w in row.warnings || Reason(w, row, eans, seen, settings))
  {
    var flagged := EanWarnings(row, eans);
    EanIsFlagged(row, eans, w);
    InputsIgnoreWarnings(row, flagged, settings);
    WarnedOnce(flagged, "box_unresolved", w);
    WarnedOnce(flagged, "margin_invalid", w);
    if BuildInputs(row, settings).0.Some? {
      RowIsPriced(BuildInputs(row, settings).0.value, seen, settings);
    }
  }

  /** The line copies the row, says what happened to its product, and shows box, cost, prices and profits of the
      costing, or none of them. */
  lemma LineShowsRowAndCosting(row: OfferRow, eans: set<string>, seen: Seen, settings: Settings)
    ensures var r := HandleRow(row, eans, seen, settings);
      var line := r.report;
      && line.rowNumber == row.rowNumber && line.name == row.name && line.ean == row.ean && line.upt == row.upt
      && line.materialCost == row.materialCost && line.perPalletRaw == row.perPalletRaw
      && line.productAction == Some(if seen.Absent? then CreatedProduct else UpdatedProduct)
      && line.status == (if r.costed.Some? then CostedRow else Attention)
      && (r.costed.Some? ==>
            var c := r.costed.value;
            && line.boxCode == c.inputs.box.code && line.totalDirectCost == Some(c.results.totalDirectCost)
            && line.sellingPrice == c.inputs.sellingPrice && line.retailPrice == c.inputs.retailPrice
            && line.ourGp == c.results.ourGp && line.customerGpPct == c.results.customerGpPct)
      && (r.costed.None? ==>
            line.boxCode == None && line.totalDirectCost == None && line.sellingPrice == None
            && line.retailPrice == None && line.ourGp == None && line.customerGpPct == None)
  {
  }

  /** A costed row is costed with its own inputs, priced against the product it found. */
  lemma CostedWithItsInputs(row: OfferRow, eans: set<string>, seen: Seen, settings: Settings)
    ensures var costed, inputs := HandleRow(row, eans, seen, settings).costed, BuildInputs(row, settings).0;
      && (costed.Some? <==> inputs.Some?)
      && (costed.Some? ==> costed.value == PriceRow(inputs.value, seen, settings))
  {
    InputsIgnoreWarnings(row, EanWarnings(row, eans), settings);
  }
}
