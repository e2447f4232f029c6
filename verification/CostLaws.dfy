/** What every input of a costing contributes to its total direct cost (epiproc/costing/calc.py). */
module CostLaws {
  import opened Common
  import opened Calc

  // ---- Arithmetic ----

  /** A quotient times its divisor is the amount; a zero divisor gives nothing. */
  lemma DivUndone(a: real, b: real)
    ensures if b == 0.0 then Div(a, b) == 0.0 else Div(a, b) * b == a
  {
  }

  /** So many at so much each. */
  function Amount(unitCost: real, qty: real): real {
    unitCost * qty
  }

  lemma LineAmount(x: MenuSelection)
    ensures LineCost(x) == Amount(x.unitCost, x.qty)
  {
  }

  /** An amount with a percentage on top. */
  function Marked(amount: real, pct: real): real {
    amount * (1.0 + pct)
  }

  lemma MarkedIsShared(x: real, pct: real)
    ensures x + Share(x, pct) == Marked(x, pct)
  {
  }

  lemma MarkedSum(x: real, y: real, pct: real)
    ensures Marked(x + y, pct) == Marked(x, pct) + Marked(y, pct)
  {
  }

  lemma Factored(x: real, y: real, z: real)
    ensures (x + y) * z == x * z + y * z
  {
  }

  lemma DivSum(x: real, y: real, b: real)
    ensures Div(x + y, b) == Div(x, b) + Div(y, b)
  {
    if b != 0.0 {
      DivIsTimes(x, b);
      DivIsTimes(y, b);
      DivIsTimes(x + y, b);
      Factored(x, y, 1.0 / b);
    }
  }

  lemma DivIsTimes(x: real, b: real)
    requires b != 0.0
    ensures Div(x, b) == x * (1.0 / b)
  {
  }

  // ---- The parts of the cost ----

  lemma RawCost(materials: seq<MaterialLine>, eurRate: real, inbound: InboundTransport, wastePct: real)
    ensures var raw := RawMaterials(materials, eurRate, inbound, wastePct);
      raw.total == Marked(raw.materialsTotal + raw.inboundPerUnit, wastePct)
  {
    var raw := RawMaterials(materials, eurRate, inbound, wastePct);
    MarkedIsShared(raw.materialsTotal + raw.inboundPerUnit, wastePct);
  }

  lemma PackCost(packaging: seq<MenuSelection>, pct: PackagingPcts, box: BoxSelection,
                 equipment: seq<MenuSelection>, inbound: InboundTransport, upt: real)
    ensures PackAndEquip(packaging, pct, box, equipment, inbound, upt).total
      == Marked(PackItems(packaging, upt), pct.waste + pct.writeOff + pct.storage)
         + (Div(box.price, upt) + EquipmentItems(equipment, inbound))
  {
    MarkedIsShared(PackItems(packaging, upt), pct.waste + pct.writeOff + pct.storage);
  }

  lemma OutCost(ob: Outbound, upt: real)
    ensures OutboundCost(ob, upt).total == Marked(OutboundPerUnit(ob, upt), ob.fuelSurchargePct)
  {
    MarkedIsShared(OutboundPerUnit(ob, upt), ob.fuelSurchargePct);
  }

  lemma LabourCost(labour: seq<MenuSelection>, intakePct: real, additionalPct: real, upt: real)
    ensures Operations(labour, intakePct, additionalPct, upt).total
      == Marked(Marked(LabourItems(labour), intakePct), additionalPct)
  {
    var items := LabourItems(labour);
    MarkedIsShared(items, intakePct);
    MarkedIsShared(Marked(items, intakePct), additionalPct);
  }

  lemma PartsMakeTheTotal(inp: CostingInputs)
    ensures var upt := inp.unitsPerTray as real;
      Compute(inp).totalDirectCost
      == RawMaterials(inp.materials, inp.eurRate, inp.inbound, inp.wastePct).total
         + PackAndEquip(inp.packaging, inp.packagingPct, inp.box, inp.equipment, inp.inbound, upt).total
         + OutboundCost(inp.outbound, upt).total
         + Operations(inp.labour, inp.intakeLabourPct, inp.additionalPct, upt).total
  {
  }

  // ---- What one more line adds ----

  lemma LabourGrows(labour: seq<MenuSelection>, x: MenuSelection, intakePct: real, additionalPct: real, upt: real)
    ensures var before, after := Operations(labour, intakePct, additionalPct, upt),
                                 Operations(labour + [x], intakePct, additionalPct, upt);
      && after.items == before.items + LineCost(x)
      && after.total == before.total + Marked(Marked(LineCost(x), intakePct), additionalPct)
  {
    var items := LabourItems(labour);
    assert (labour + [x])[..|labour|] == labour;
    LabourCost(labour, intakePct, additionalPct, upt);
    LabourCost(labour + [x], intakePct, additionalPct, upt);
    MarkedSum(items, LineCost(x), intakePct);
    MarkedSum(Marked(items, intakePct), Marked(LineCost(x), intakePct), additionalPct);
  }

  /** One more labour line adds its cost with the intake and the additional percentage on top. */
  lemma LabourLineAdds(inp: CostingInputs, x: MenuSelection)
    ensures var before, after := Compute(inp), Compute(inp.(labour := inp.labour + [x]));
      var cost := Amount(x.unitCost, x.qty);
      && after.labourItems == before.labourItems + cost
      && after.totalDirectCost
         == before.totalDirectCost + Marked(Marked(cost, inp.intakeLabourPct), inp.additionalPct)
  {
    LineAmount(x);
    PartsMakeTheTotal(inp);
    PartsMakeTheTotal(inp.(labour := inp.labour + [x]));
    LabourGrows(inp.labour, x, inp.intakeLabourPct, inp.additionalPct, inp.unitsPerTray as real);
  }

  lemma PackagingGrows(packaging: seq<MenuSelection>, x: MenuSelection, pct: PackagingPcts, box: BoxSelection,
                       equipment: seq<MenuSelection>, inbound: InboundTransport, upt: real)
    ensures var before, after := PackAndEquip(packaging, pct, box, equipment, inbound, upt),
                                 PackAndEquip(packaging + [x], pct, box, equipment, inbound, upt);
      && after.packItems == before.packItems + PackLine(x, upt)
      && after.total == before.total + Marked(PackLine(x, upt), pct.waste + pct.writeOff + pct.storage)
  {
    assert (packaging + [x])[..|packaging|] == packaging;
    PackCost(packaging, pct, box, equipment, inbound, upt);
    PackCost(packaging + [x], pct, box, equipment, inbound, upt);
    MarkedSum(PackItems(packaging, upt), PackLine(x, upt), pct.waste + pct.writeOff + pct.storage);
  }

  /** One more packaging line adds its cost, over the tray if it is per case, with the three percentages on top. */
  lemma PackagingLineAdds(inp: CostingInputs, x: MenuSelection)
    ensures var before, after := Compute(inp), Compute(inp.(packaging := inp.packaging + [x]));
      var cost, pct := Amount(x.unitCost, x.qty), inp.packagingPct;
      var perUnit := if x.kind == PackagingPerCase then Div(cost, inp.unitsPerTray as real) else cost;
      && after.packItems == before.packItems + perUnit
      && after.totalDirectCost
         == before.totalDirectCost + Marked(perUnit, pct.waste + pct.writeOff + pct.storage)
  {
    LineAmount(x);
    PartsMakeTheTotal(inp);
    PartsMakeTheTotal(inp.(packaging := inp.packaging + [x]));
    PackagingGrows(inp.packaging, x, inp.packagingPct, inp.box, inp.equipment, inp.inbound, inp.unitsPerTray as real);
  }

  lemma EquipmentGrows(packaging: seq<MenuSelection>, x: MenuSelection, pct: PackagingPcts, box: BoxSelection,
                       equipment: seq<MenuSelection>, inbound: InboundTransport, upt: real)
    ensures var before, after := PackAndEquip(packaging, pct, box, equipment, inbound, upt),
                                 PackAndEquip(packaging, pct, box, equipment + [x], inbound, upt);
      && after.equipmentTotal == before.equipmentTotal + EquipmentLine(x, inbound)
      && after.total == before.total + EquipmentLine(x, inbound)
  {
    assert (equipment + [x])[..|equipment|] == equipment;
    PackCost(packaging, pct, box, equipment, inbound, upt);
    PackCost(packaging, pct, box, equipment + [x], inbound, upt);
  }

  /** One more equipment line adds its cost, over the boxes of a trolley and the units of a box if it is palletised. */
  lemma EquipmentLineAdds(inp: CostingInputs, x: MenuSelection)
    ensures var before, after := Compute(inp), Compute(inp.(equipment := inp.equipment + [x]));
      var cost := Amount(x.unitCost, x.qty);
      var perUnit := if x.divideByPack then Div(Div(cost, inp.inbound.boxesPerCC), inp.inbound.qtyPerBox) else cost;
      && after.equipmentTotal == before.equipmentTotal + perUnit
      && after.totalDirectCost == before.totalDirectCost + perUnit
  {
    LineAmount(x);
    PartsMakeTheTotal(inp);
    PartsMakeTheTotal(inp.(equipment := inp.equipment + [x]));
    EquipmentGrows(inp.packaging, x, inp.packagingPct, inp.box, inp.equipment, inp.inbound, inp.unitsPerTray as real);
  }

  /** The inbound transport of one unit: the pallet rate over the boxes of a trolley and the units of a box. */
  function PerBox(inbound: InboundTransport): real {
    Div(Div(inbound.palletRate, inbound.boxesPerCC), inbound.qtyPerBox)
  }

  /** A material line costs its amount in our currency and the inbound transport of its quantity, both with the
      waste on top. */
  function MaterialCost(x: MaterialLine, eurRate: real, inbound: InboundTransport, wastePct: real): real {
    Marked(Div(Amount(x.unitCost, x.qty), eurRate) + Amount(PerBox(inbound), x.qty), wastePct)
  }

  lemma MaterialSums(ms: seq<MaterialLine>, x: MaterialLine)
    ensures MaterialsSum(ms + [x]) == MaterialsSum(ms) + Amount(x.unitCost, x.qty)
    ensures TransportUnits(ms + [x]) == TransportUnits(ms) + x.qty
  {
    assert (ms + [x])[..|ms|] == ms;
  }

  lemma InboundGrows(inbound: InboundTransport, units: real, qty: real)
    ensures InboundPerUnit(inbound, units + qty) == InboundPerUnit(inbound, units) + Amount(PerBox(inbound), qty)
  {
    TimesSum(PerBox(inbound), units, qty);
  }

  lemma MaterialsGrow(ms: seq<MaterialLine>, x: MaterialLine, eurRate: real, inbound: InboundTransport, wastePct: real)
    ensures var before, after := RawMaterials(ms, eurRate, inbound, wastePct),
                                 RawMaterials(ms + [x], eurRate, inbound, wastePct);
      && after.materialsTotal == before.materialsTotal + Div(Amount(x.unitCost, x.qty), eurRate)
      && after.transportUnits == before.transportUnits + x.qty
      && after.inboundPerUnit == before.inboundPerUnit + Amount(PerBox(inbound), x.qty)
      && after.total == before.total + MaterialCost(x, eurRate, inbound, wastePct)
  {
    var before := RawMaterials(ms, eurRate, inbound, wastePct);
    MaterialSums(ms, x);
    DivSum(MaterialsSum(ms), Amount(x.unitCost, x.qty), eurRate);
    InboundGrows(inbound, TransportUnits(ms), x.qty);
    RawCost(ms, eurRate, inbound, wastePct);
    RawCost(ms + [x], eurRate, inbound, wastePct);
    MarkedSum(before.materialsTotal + before.inboundPerUnit,
              Div(Amount(x.unitCost, x.qty), eurRate) + Amount(PerBox(inbound), x.qty), wastePct);
  }

  /** One more material line adds just that. */
  lemma MaterialLineAdds(inp: CostingInputs, x: MaterialLine)
    ensures var before, after := Compute(inp), Compute(inp.(materials := inp.materials + [x]));
      after.totalDirectCost == before.totalDirectCost + MaterialCost(x, inp.eurRate, inp.inbound, inp.wastePct)
  {
    PartsMakeTheTotal(inp);
    PartsMakeTheTotal(inp.(materials := inp.materials + [x]));
    MaterialsGrow(inp.materials, x, inp.eurRate, inp.inbound, inp.wastePct);
  }

  /** ... and these are the figures it moves. */
  lemma MaterialLineShows(inp: CostingInputs, x: MaterialLine)
    ensures var before, after := Compute(inp), Compute(inp.(materials := inp.materials + [x]));
      && after.materialsTotal == before.materialsTotal + Div(Amount(x.unitCost, x.qty), inp.eurRate)
      && after.transportUnits == before.transportUnits + x.qty
      && after.inboundPerUnit == before.inboundPerUnit + Amount(PerBox(inp.inbound), x.qty)
  {
    MaterialsGrow(inp.materials, x, inp.eurRate, inp.inbound, inp.wastePct);
  }

  lemma TimesSum(z: real, x: real, y: real)
    ensures z * (x + y) == z * x + z * y
  {
  }

  // ---- What the box and the outbound transport add ----

  /** A box adds its price over the tray. */
  lemma BoxAdds(inp: CostingInputs, box: BoxSelection)
    ensures var without, with := Compute(inp.(box := box.(price := 0.0))), Compute(inp.(box := box));
      && with.boxPerUnit == without.boxPerUnit + Div(box.price, inp.unitsPerTray as real)
      && with.totalDirectCost == without.totalDirectCost + Div(box.price, inp.unitsPerTray as real)
  {
    var upt, pct := inp.unitsPerTray as real, inp.packagingPct;
    PackCost(inp.packaging, pct, box, inp.equipment, inp.inbound, upt);
    PackCost(inp.packaging, pct, box.(price := 0.0), inp.equipment, inp.inbound, upt);
    NothingOver(upt);
  }

  lemma NothingOver(b: real)
    ensures Div(0.0, b) == 0.0
  {
  }

  /** A pallet's price over its fill rate, its boxes and the tray, with the fuel surcharge on top. */
  lemma OutboundAdds(inp: CostingInputs, ob: Outbound)
    ensures var without, with := Compute(inp.(outbound := ob.(pricePerPallet := 0.0))), Compute(inp.(outbound := ob));
      var perUnit := Div(Div(Div(ob.pricePerPallet, ob.fillRate), ob.boxesOnOrder), inp.unitsPerTray as real);
      && with.outboundPerUnit == without.outboundPerUnit + perUnit
      && with.totalDirectCost == without.totalDirectCost + Marked(perUnit, ob.fuelSurchargePct)
  {
    var upt := inp.unitsPerTray as real;
    OutCost(ob, upt);
    OutCost(ob.(pricePerPallet := 0.0), upt);
    NothingOver(ob.fillRate);
    NothingOver(ob.boxesOnOrder);
    NothingOver(upt);
  }

  /** The full-pallet figure is the outbound cost at a fill rate of one. */
  lemma FullPalletIsFillRateOne(inp: CostingInputs)
    ensures Compute(inp).outboundAtFull == Compute(inp.(outbound := inp.outbound.(fillRate := 1.0))).outboundPerUnit
  {
    DivUndone(inp.outbound.pricePerPallet, 1.0);
  }

  /** Without lines, box price and pallet price nothing costs anything, whatever the rates. */
  lemma NothingCostsNothing(inp: CostingInputs)
    requires inp.materials == [] && inp.packaging == [] && inp.equipment == [] && inp.labour == []
    requires inp.box.price == 0.0 && inp.outbound.pricePerPallet == 0.0
    ensures var r := Compute(inp);
      && r.totalDirectCost == 0.0 && r.materialsTotal == 0.0 && r.transportUnits == 0.0 && r.inboundPerUnit == 0.0
      && r.packItems == 0.0 && r.boxPerUnit == 0.0 && r.equipmentTotal == 0.0 && r.outboundPerUnit == 0.0
      && r.labourItems == 0.0
  {
    var upt := inp.unitsPerTray as real;
    NothingOver(inp.eurRate);
    NothingOver(upt);
    NothingOver(inp.outbound.fillRate);
    NothingOver(inp.outbound.boxesOnOrder);
    RawCost([], inp.eurRate, inp.inbound, inp.wastePct);
    PackCost([], inp.packagingPct, inp.box, [], inp.inbound, upt);
    OutCost(inp.outbound, upt);
    LabourCost([], inp.intakeLabourPct, inp.additionalPct, upt);
  }

  // ---- The figures of the sheet among themselves ----

  /** The subtotals add up to the total, and each percentage is taken of the figure it stands under. */
  lemma SubtotalsAddUp(inp: CostingInputs)
    ensures var r, pct := Compute(inp), inp.packagingPct;
      && r.waste == (r.materialsTotal + r.inboundPerUnit) * inp.wastePct
      && r.rawMaterials == r.materialsTotal + r.inboundPerUnit + r.waste
      && r.packPcts == r.packItems * (pct.waste + pct.writeOff + pct.storage)
      && r.packagingTotal == r.packItems + r.packPcts
      && r.pkgEquipTotal == r.packagingTotal + r.equipmentTotal
      && r.fuel == r.outboundPerUnit * inp.outbound.fuelSurchargePct
      && r.outboundTotal == r.outboundPerUnit + r.fuel
      && r.intake == r.labourItems * inp.intakeLabourPct
      && r.labourTotal == r.labourItems + r.intake
      && r.caseCost == r.labourTotal * inp.unitsPerTray as real
      && r.additional == r.labourTotal * inp.additionalPct
      && r.operationsTotal == r.labourTotal + r.additional
      && r.totalDirectCost == r.rawMaterials + r.pkgEquipTotal + r.outboundTotal + r.operationsTotal
  {
  }

  /** `x` can be computed exactly when `computable`, and is then the solution of x * factor = amount. */
  predicate Solves(x: Option<real>, computable: bool, factor: real, amount: real) {
    (x.Some? <==> computable) && (x.Some? ==> x.value * factor == amount)
  }

  lemma RatioSolves(a: real, b: real)
    ensures Solves(Ratio(a, b), b != 0.0, b, a)
  {
  }

  /** Our profit is the price less the cost; the margin solves m * price = profit, and the target price
      p * (1 - target margin) = cost. */
  lemma OurMarginsSolve(inp: CostingInputs)
    ensures var r, selling := Compute(inp), inp.sellingPrice;
      && r.ourGp == (if selling.Some? then Some(selling.value - r.totalDirectCost) else None)
      && Solves(r.ourGpPct, selling.Some? && selling.value != 0.0, selling.GetOr(0.0), r.ourGp.GetOr(0.0))
      && Solves(r.targetSelling, inp.ourTargetMargin != 1.0, 1.0 - inp.ourTargetMargin, r.totalDirectCost)
  {
    var r := Compute(inp);
    RatioSolves(r.ourGp.GetOr(0.0), inp.sellingPrice.GetOr(0.0));
    RatioSolves(r.totalDirectCost, 1.0 - inp.ourTargetMargin);
  }

  /** The customer's net price solves net * (1 + vat) = retail; his profit is that less our price, and its share is
      taken of our price. */
  lemma CustomerMarginsSolve(inp: CostingInputs)
    ensures var r, selling, retail := Compute(inp), inp.sellingPrice, inp.retailPrice;
      && Solves(r.customerNet, retail.Some? && inp.vatRate != -1.0, 1.0 + inp.vatRate, retail.GetOr(0.0))
      && r.customerGp
         == (if r.customerNet.Some? && selling.Some? then Some(r.customerNet.value - selling.value) else None)
      && Solves(r.customerGpPct, r.customerGp.Some? && selling.GetOr(0.0) != 0.0, selling.GetOr(0.0),
                r.customerGp.GetOr(0.0))
  {
    var r := Compute(inp);
    RatioSolves(inp.retailPrice.GetOr(0.0), 1.0 + inp.vatRate);
    RatioSolves(r.customerGp.GetOr(0.0), inp.sellingPrice.GetOr(0.0));
  }

  /** The target retail price solves retail * (1 - target margin) = price * (1 + vat). */
  lemma TargetRetailSolves(inp: CostingInputs)
    ensures var selling, c := inp.sellingPrice, inp.customerTargetMargin;
      Solves(Compute(inp).targetRetail, selling.Some? && c != 1.0, 1.0 - c, selling.GetOr(0.0) * (1.0 + inp.vatRate))
  {
    if inp.sellingPrice.Some? && inp.customerTargetMargin != 1.0 {
      RetailSolves(inp.sellingPrice.value, inp.customerTargetMargin, inp.vatRate);
    }
  }

  lemma RetailSolves(selling: real, c: real, vatRate: real)
    requires c != 1.0
    ensures Solves(TargetRetail(selling, c, vatRate), true, 1.0 - c, selling * (1.0 + vatRate))
  {
    var base := Ratio(selling, 1.0 - c).value;
    RatioTimes(selling, 1.0 - c);
    Reordered(base, 1.0 + vatRate, 1.0 - c);
  }

  lemma Reordered(x: real, y: real, z: real)
    ensures x * y * z == x * z * y
  {
  }
}
