/** The per-unit costing arithmetic (epiproc/costing/calc.py), on exact numbers. */
module Calc {
  import opened Common

  datatype MaterialLine = MaterialLine(name: string, unitCost: real, qty: real)

  datatype InboundTransport = InboundTransport(qtyPerBox: real, boxesPerCC: real, palletRate: real)

  datatype MenuKind = PackagingPerUnit | PackagingPerCase | Equipment | Labour

  /** A packaging, equipment or labour line; `qty == 0.0` is a line toggled off. */
  datatype MenuSelection = MenuSelection(name: string, unitCost: real, qty: real, kind: MenuKind, divideByPack: bool)

  datatype PackagingPcts = PackagingPcts(waste: real, writeOff: real, storage: real)

  datatype BoxSelection = BoxSelection(code: Option<string>, price: real)

  datatype Outbound = Outbound(pricePerPallet: real, fillRate: real, boxesOnOrder: real, fuelSurchargePct: real)

  datatype CostingInputs = CostingInputs(
    unitsPerTray: int,
    eurRate: real,
    materials: seq<MaterialLine>,
    inbound: InboundTransport,
    wastePct: real,
    packaging: seq<MenuSelection>,
    packagingPct: PackagingPcts,
    box: BoxSelection,
    equipment: seq<MenuSelection>,
    outbound: Outbound,
    labour: seq<MenuSelection>,
    intakeLabourPct: real,
    additionalPct: real,
    vatRate: real,
    retailPrice: Option<real>,
    sellingPrice: Option<real>,
    customerTargetMargin: real,
    ourTargetMargin: real)

  datatype CostingResults = CostingResults(
    materialsTotal: real,
    transportUnits: real,
    inboundPerUnit: real,
    waste: real,
    rawMaterials: real,
    packItems: real,
    packPcts: real,
    packagingTotal: real,
    boxPerUnit: real,
    equipmentTotal: real,
    pkgEquipTotal: real,
    outboundPerUnit: real,
    outboundAtFull: real,
    fuel: real,
    outboundTotal: real,
    labourItems: real,
    intake: real,
    labourTotal: real,
    caseCost: real,
    additional: real,
    operationsTotal: real,
    totalDirectCost: real,
    ourGp: Option<real>,
    ourGpPct: Option<real>,
    customerNet: Option<real>,
    customerGp: Option<real>,
    customerGpPct: Option<real>,
    targetRetail: Option<real>,
    targetSelling: Option<real>)

  /** A zero denominator costs nothing. */
  function Div(a: real, b: real): real {
    if b != 0.0 then a / b else 0.0
  }

  /** A zero denominator makes a margin or a solver "not computable". */
  function Ratio(a: real, b: real): (r: Option<real>)
    ensures r.None? <==> b == 0.0
  {
    if b != 0.0 then Some(a / b) else None
  }

  /** A fraction of an amount. */
  function Share(amount: real, pct: real): real {
    amount * pct
  }

  /** Price times quantity; nothing for a line toggled off. */
  function LineCost(s: MenuSelection): real {
    s.unitCost * s.qty
  }

  function MaterialsSum(ms: seq<MaterialLine>): real {
    if ms == [] then 0.0
    else MaterialsSum(ms[..|ms| - 1]) + ms[|ms| - 1].unitCost * ms[|ms| - 1].qty
  }

  function TransportUnits(ms: seq<MaterialLine>): real {
    if ms == [] then 0.0 else TransportUnits(ms[..|ms| - 1]) + ms[|ms| - 1].qty
  }

  function LabourItems(ls: seq<MenuSelection>): real {
    if ls == [] then 0.0 else LabourItems(ls[..|ls| - 1]) + LineCost(ls[|ls| - 1])
  }

  /** One packaging line per selling unit: a per-case price is spread over the tray. */
  function PackLine(p: MenuSelection, upt: real): real {
    if p.kind == PackagingPerCase then Div(LineCost(p), upt) else LineCost(p)
  }

  function PackItems(ps: seq<MenuSelection>, upt: real): real {
    if ps == [] then 0.0 else PackItems(ps[..|ps| - 1], upt) + PackLine(ps[|ps| - 1], upt)
  }

  /** One equipment line per selling unit: a palletised item is spread over the trolley. */
  function EquipmentLine(e: MenuSelection, inbound: InboundTransport): real {
    if e.divideByPack then Div(Div(LineCost(e), inbound.boxesPerCC), inbound.qtyPerBox) else LineCost(e)
  }

  function EquipmentItems(es: seq<MenuSelection>, inbound: InboundTransport): real {
    if es == [] then 0.0 else EquipmentItems(es[..|es| - 1], inbound) + EquipmentLine(es[|es| - 1], inbound)
  }

  function InboundPerUnit(inbound: InboundTransport, transportUnits: real): real {
    Div(Div(inbound.palletRate, inbound.boxesPerCC), inbound.qtyPerBox) * transportUnits
  }

  function OutboundPerUnit(ob: Outbound, upt: real): real {
    Div(Div(Div(ob.pricePerPallet, ob.fillRate), ob.boxesOnOrder), upt)
  }

  /** The parts of the workbook's cost block, each with its subtotals. */
  datatype RawBlock = RawBlock(materialsTotal: real, transportUnits: real, inboundPerUnit: real, waste: real,
                               total: real)

  function RawMaterials(materials: seq<MaterialLine>, eurRate: real, inbound: InboundTransport,
                        wastePct: real): RawBlock {
    var materialsTotal := Div(MaterialsSum(materials), eurRate);
    var transportUnits := TransportUnits(materials);
    var inboundPerUnit := InboundPerUnit(inbound, transportUnits);
    var waste := Share(materialsTotal + inboundPerUnit, wastePct);
    RawBlock(materialsTotal, transportUnits, inboundPerUnit, waste, materialsTotal + inboundPerUnit + waste)
  }

  datatype PackBlock = PackBlock(
    packItems: real, packPcts: real, packagingTotal: real, boxPerUnit: real, equipmentTotal: real, total: real)

  function PackAndEquip(packaging: seq<MenuSelection>, pct: PackagingPcts, box: BoxSelection,
                        equipment: seq<MenuSelection>, inbound: InboundTransport, upt: real): PackBlock
  {
    var packItems := PackItems(packaging, upt);
    var packPcts := Share(packItems, pct.waste + pct.writeOff + pct.storage);
    var boxPerUnit := Div(box.price, upt);
    var equipmentTotal := boxPerUnit + EquipmentItems(equipment, inbound);
    PackBlock(packItems, packPcts, packItems + packPcts, boxPerUnit, equipmentTotal,
              packItems + packPcts + equipmentTotal)
  }

  datatype OutBlock = OutBlock(perUnit: real, atFull: real, fuel: real, total: real)

  function OutboundCost(ob: Outbound, upt: real): OutBlock {
    var perUnit := OutboundPerUnit(ob, upt);
    var fuel := Share(perUnit, ob.fuelSurchargePct);
    OutBlock(perUnit, Div(Div(ob.pricePerPallet, ob.boxesOnOrder), upt), fuel, perUnit + fuel)
  }

  datatype LabourBlock = LabourBlock(
    items: real, intake: real, labourTotal: real, caseCost: real, additional: real, total: real)

  function Operations(labour: seq<MenuSelection>, intakePct: real, additionalPct: real, upt: real): LabourBlock {
    var items := LabourItems(labour);
    var intake := Share(items, intakePct);
    var labourTotal := items + intake;
    var additional := Share(labourTotal, additionalPct);
    LabourBlock(items, intake, labourTotal, labourTotal * upt, additional, labourTotal + additional)
  }

  function Assemble(raw: RawBlock, pack: PackBlock, ob: OutBlock, ops: LabourBlock): CostingResults {
    CostingResults(
      raw.materialsTotal, raw.transportUnits, raw.inboundPerUnit, raw.waste, raw.total,
      pack.packItems, pack.packPcts, pack.packagingTotal, pack.boxPerUnit, pack.equipmentTotal, pack.total,
      ob.perUnit, ob.atFull, ob.fuel, ob.total,
      ops.items, ops.intake, ops.labourTotal, ops.caseCost, ops.additional, ops.total,
      raw.total + pack.total + ob.total + ops.total,
      None, None, None, None, None, None, None)
  }

  /** Everything but the margins. */
  function CostBlock(inp: CostingInputs): CostingResults {
    var upt := inp.unitsPerTray as real;
    Assemble(RawMaterials(inp.materials, inp.eurRate, inp.inbound, inp.wastePct),
             PackAndEquip(inp.packaging, inp.packagingPct, inp.box, inp.equipment, inp.inbound, upt),
             OutboundCost(inp.outbound, upt),
             Operations(inp.labour, inp.intakeLabourPct, inp.additionalPct, upt))
  }

  /** A net price with VAT on top. */
  function WithVat(net: real, vatRate: real): real {
    net * (1.0 + vatRate)
  }

  /** The shelf price that leaves the customer margin `c` on a selling price. */
  function TargetRetail(selling: real, c: real, vatRate: real): Option<real> {
    var base := Ratio(selling, 1.0 - c);
    if base.Some? then Some(WithVat(base.value, vatRate)) else None
  }

  /** Margins and reverse solvers over a computed cost block. */
  function WithMargins(cost: CostingResults, inp: CostingInputs): CostingResults {
    var ourGp := if inp.sellingPrice.Some? then Some(inp.sellingPrice.value - cost.totalDirectCost) else None;
    var customerNet := if inp.retailPrice.Some? then Ratio(inp.retailPrice.value, 1.0 + inp.vatRate) else None;
    var customerGp :=
      if customerNet.Some? && inp.sellingPrice.Some? then Some(customerNet.value - inp.sellingPrice.value) else None;
    cost.(ourGp := ourGp,
          ourGpPct := if ourGp.Some? then Ratio(ourGp.value, inp.sellingPrice.value) else None,
          customerNet := customerNet,
          customerGp := customerGp,
          customerGpPct := if customerGp.Some? then Ratio(customerGp.value, inp.sellingPrice.value) else None,
          targetRetail := if inp.sellingPrice.Some?
                          then TargetRetail(inp.sellingPrice.value, inp.customerTargetMargin, inp.vatRate) else None,
          targetSelling := Ratio(cost.totalDirectCost, 1.0 - inp.ourTargetMargin))
  }

  /** The specification of `compute`. */
  function Compute(inp: CostingInputs): CostingResults {
    WithMargins(CostBlock(inp), inp)
  }

  /** `compute`, with the source's two accumulating loops. */
  method ComputeCosting(inp: CostingInputs) returns (r: CostingResults)
    ensures r == Compute(inp)
  {
    var upt := inp.unitsPerTray as real;
    var materialsTotal := Div(MaterialsSum(inp.materials), inp.eurRate);
    var transportUnits := TransportUnits(inp.materials);
    var inboundPerUnit := InboundPerUnit(inp.inbound, transportUnits);
    var waste := Share(materialsTotal + inboundPerUnit, inp.wastePct);
    var raw := RawBlock(materialsTotal, transportUnits, inboundPerUnit, waste, materialsTotal + inboundPerUnit + waste);

    var packItems := PackagingLoop(inp.packaging, upt);
    var packPcts := Share(packItems, inp.packagingPct.waste + inp.packagingPct.writeOff + inp.packagingPct.storage);
    var packagingTotal := packItems + packPcts;
    var boxPerUnit := Div(inp.box.price, upt);
    var equipmentTotal := EquipmentLoop(inp.equipment, inp.inbound, boxPerUnit);
    var pack := PackBlock(packItems, packPcts, packagingTotal, boxPerUnit, equipmentTotal,
                          packagingTotal + equipmentTotal);

    var ob := OutboundCost(inp.outbound, upt);
    var ops := Operations(inp.labour, inp.intakeLabourPct, inp.additionalPct, upt);
    assert raw == RawMaterials(inp.materials, inp.eurRate, inp.inbound, inp.wastePct);
    assert pack == PackAndEquip(inp.packaging, inp.packagingPct, inp.box, inp.equipment, inp.inbound, upt);
    r := WithMargins(Assemble(raw, pack, ob, ops), inp);
  }

  /** The packaging loop of `compute`. */
  method PackagingLoop(packaging: seq<MenuSelection>, upt: real) returns (packItems: real)
    ensures packItems == PackItems(packaging, upt)
  {
    packItems := 0.0;
    for i := 0 to |packaging|
      invariant packItems == PackItems(packaging[..i], upt)
    {
      var p := packaging[i];
      var line := LineCost(p);
      if p.kind == PackagingPerCase {
        line := Div(line, upt);
      }
      packItems := packItems + line;
      assert packaging[..i + 1][..i] == packaging[..i];
    }
    assert packaging[..|packaging|] == packaging;
  }

  /** The equipment loop of `compute`, which starts from the box. */
  method EquipmentLoop(equipment: seq<MenuSelection>, inbound: InboundTransport, boxPerUnit: real)
    returns (equipmentTotal: real)
    ensures equipmentTotal == boxPerUnit + EquipmentItems(equipment, inbound)
  {
    equipmentTotal := boxPerUnit;
    for i := 0 to |equipment|
      invariant equipmentTotal == boxPerUnit + EquipmentItems(equipment[..i], inbound)
    {
      var e := equipment[i];
      assert equipment[..i + 1][..i] == equipment[..i];
      var line := LineCost(e);
      if e.divideByPack {
        line := Div(Div(line, inbound.boxesPerCC), inbound.qtyPerBox);
      }
      equipmentTotal := equipmentTotal + line;
      assert line == EquipmentLine(e, inbound);
      assert EquipmentItems(equipment[..i + 1], inbound)
        == EquipmentItems(equipment[..i], inbound) + EquipmentLine(e, inbound);
    }
    assert equipment[..|equipment|] == equipment;
  }

  // ---- Pricing theorems ----

  /** Prices never feed back into costs: the whole cost block is the same at every price. */
  lemma CostIgnoresPrices(inp: CostingInputs, selling: Option<real>, retail: Option<real>)
    ensures CostBlock(inp.(sellingPrice := selling, retailPrice := retail)) == CostBlock(inp)
  {
  }

  /** Our profit at a selling price is that price less the cost, whatever prices are filled in. */
  lemma ProfitIsPriceLessCost(inp: CostingInputs, selling: real, retail: Option<real>)
    ensures var priced := inp.(sellingPrice := Some(selling), retailPrice := retail);
      && Compute(priced).totalDirectCost == Compute(inp).totalDirectCost
      && Compute(priced).ourGp == Some(selling - Compute(inp).totalDirectCost)
  {
    CostIgnoresPrices(inp, Some(selling), retail);
  }

  lemma RatioTimes(a: real, b: real)
    requires b != 0.0
    ensures Ratio(a, b).value * b == a
  {
  }

  lemma EqualByFactor(x: real, y: real, q: real)
    requires q != 0.0 && x * q == y * q
    ensures x == y
  {
    assert (x - y) * q == 0.0;
  }

  lemma RatioOfProduct(p: real, q: real)
    requires q != 0.0
    ensures Ratio(p * q, q) == Some(p)
  {
    var r := Ratio(p * q, q).value;
    assert r * q == p * q;
    EqualByFactor(r, p, q);
  }

  /** Selling at `target_selling` earns exactly our target margin; the solver and the margin
      are both undefined only when the margin is 100% or the cost is nil. */
  lemma SellingAtTargetEarnsTheMargin(inp: CostingInputs)
    ensures var target := Compute(inp).targetSelling;
      && (target.None? <==> inp.ourTargetMargin == 1.0)
      && (target.Some? ==>
        var gp := Compute(inp.(sellingPrice := target)).ourGpPct;
        if Compute(inp).totalDirectCost == 0.0 then gp == None else gp == Some(inp.ourTargetMargin))
  {
    var target := Compute(inp).targetSelling;
    if target.Some? {
      MarginAtTarget(Compute(inp).totalDirectCost, inp.ourTargetMargin);
      ProfitIsPriceLessCost(inp, target.value, inp.retailPrice);
      assert inp.(sellingPrice := target) == inp.(sellingPrice := target, retailPrice := inp.retailPrice);
    }
  }

  lemma MarginAtTarget(cost: real, m: real)
    requires m != 1.0
    ensures var s := Ratio(cost, 1.0 - m).value;
      if cost == 0.0 then s == 0.0 else s != 0.0 && Ratio(s - cost, s) == Some(m)
  {
    var s := Ratio(cost, 1.0 - m).value;
    RatioTimes(cost, 1.0 - m);
    if cost != 0.0 {
      assert s - cost == m * s;
      RatioOfProduct(m, s);
    }
  }

  lemma NetOfVat(net: real, vatRate: real)
    requires vatRate != -1.0
    ensures Ratio(WithVat(net, vatRate), 1.0 + vatRate) == Some(net)
  {
    var q := 1.0 + vatRate;
    RatioOfProduct(net, q);
    assert WithVat(net, vatRate) == net * q;
  }

  lemma CustomerRatioAtTarget(selling: real, c: real, vatRate: real)
    requires selling != 0.0 && vatRate != -1.0 && c != 1.0
    ensures var net := Ratio(TargetRetail(selling, c, vatRate).value, 1.0 + vatRate);
      net.Some? && Ratio(net.value - selling, selling).value * (1.0 - c) == c
  {
    var base := Ratio(selling, 1.0 - c).value;
    NetOfVat(base, vatRate);
    assert TargetRetail(selling, c, vatRate) == Some(WithVat(base, vatRate));
    var pct := Ratio(base - selling, selling).value;
    RatioTimes(base - selling, selling);
    RatioTimes(selling, 1.0 - c);
    CancelFactor(pct, base, selling, c);
  }

  /** Retailing at `target_retail` gives the customer c / (1 - c) on our price. */
  lemma RetailAtTargetGivesTheCustomerRatio(inp: CostingInputs, selling: real)
    requires inp.sellingPrice == Some(selling)
    ensures var c, target := inp.customerTargetMargin, Compute(inp).targetRetail;
      && (target.None? <==> c == 1.0)
      && (target.Some? ==>
        var pct := Compute(inp.(retailPrice := target)).customerGpPct;
        if selling == 0.0 || inp.vatRate == -1.0 then pct == None
        else pct.Some? && pct.value * (1.0 - c) == c)
  {
    var c, target := inp.customerTargetMargin, Compute(inp).targetRetail;
    if target.Some? && selling != 0.0 && inp.vatRate != -1.0 {
      CustomerRatioAtTarget(selling, c, inp.vatRate);
    }
  }

  lemma CancelFactor(pct: real, base: real, selling: real, c: real)
    requires pct * selling == base - selling
    requires base * (1.0 - c) == selling
    requires selling != 0.0
    ensures pct * (1.0 - c) == c
  {
    calc {
      selling * (pct * (1.0 - c));
      (pct * selling) * (1.0 - c);
      (base - selling) * (1.0 - c);
      base * (1.0 - c) - selling * (1.0 - c);
      selling - selling * (1.0 - c);
      selling * c;
    }
    assert selling * (pct * (1.0 - c) - c) == 0.0;
  }

  lemma ScaleUp(x: real, y: real, f: real)
    requires f >= 0.0 && x <= y
    ensures x * f <= y * f
  {
  }

  lemma DivMonotone(x: real, y: real, b: real)
    requires b >= 0.0 && x <= y
    ensures Div(x, b) <= Div(y, b)
  {
    if b > 0.0 {
      ScaleUp(x, y, 1.0 / b);
      assert x / b == x * (1.0 / b) && y / b == y * (1.0 / b);
    }
  }

  /** Dearer materials never make a product cheaper, as long as the rates are not negative. */
  lemma CostMonotoneInMaterials(inp: CostingInputs, dearer: seq<MaterialLine>)
    requires MaterialsSum(inp.materials) <= MaterialsSum(dearer)
    requires TransportUnits(inp.materials) == TransportUnits(dearer)
    requires inp.eurRate >= 0.0 && inp.wastePct >= 0.0
    ensures Compute(inp).totalDirectCost <= Compute(inp.(materials := dearer)).totalDirectCost
  {
    RawMonotone(inp.materials, dearer, inp.eurRate, inp.inbound, inp.wastePct);
  }

  lemma RawMonotone(
    ms: seq<MaterialLine>, dearer: seq<MaterialLine>, eurRate: real, inbound: InboundTransport, wastePct: real)
    requires MaterialsSum(ms) <= MaterialsSum(dearer)
    requires TransportUnits(ms) == TransportUnits(dearer)
    requires eurRate >= 0.0 && wastePct >= 0.0
    ensures RawMaterials(ms, eurRate, inbound, wastePct).total <= RawMaterials(dearer, eurRate, inbound, wastePct).total
  {
    var inb := InboundPerUnit(inbound, TransportUnits(ms));
    var x, y := Div(MaterialsSum(ms), eurRate) + inb, Div(MaterialsSum(dearer), eurRate) + inb;
    DivMonotone(MaterialsSum(ms), MaterialsSum(dearer), eurRate);
    ShareMonotone(x, y, wastePct);
  }

  lemma ShareMonotone(x: real, y: real, pct: real)
    requires pct >= 0.0 && x <= y
    ensures Share(x, pct) <= Share(y, pct)
  {
    ScaleUp(x, y, pct);
  }
}
