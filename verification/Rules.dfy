/** The corrections engine on values (epiproc/ingest/rules.py).

    Amounts are exact numbers; `str` is Python's text form of a value. */
module Rules {
  import opened Common
  import opened Continuation
  import opened Rounding

  datatype Warn =
    | ItemsOffSubtotal(sum: real, subtotal: real)
    | ItemsOffTotal(sum: real, total: real)
    | Unexplained(explained: real, total: real)

  datatype Note = Dropped(count: nat) | Flipped | Derived(subtotal: real) | Reconciled(warns: seq<Warn>)

  /** `warning` lists the parts of validation_warning. */
  datatype Invoice = Invoice(docType: Option<string>, lines: seq<Elem>, totals: Option<Fields>, warning: seq<Warn>)

  datatype Applied = Applied(invoice: Invoice, notes: seq<Note>)

  predicate IsCredit(r: Invoice) {
    Contains(Lower(r.docType.GetOr("")), "credit")
  }

  function TotalsOf(r: Invoice): Fields {
    r.totals.GetOr(map[])
  }

  function Amount(f: Fields, k: string): real {
    if Get(f, k).Num? then Get(f, k).value else 0.0
  }

  // ---- drop_hs_summary ----

  /** The pattern: white space, eight digits, white space. */
  predicate BareCode(s: string) {
    |Strip(s)| == 8 && AllDigits(Strip(s))
  }

  predicate IsHsLine(e: Elem, str: Str) {
    e.Dict? &&
    var d := Get(e.fields, "description");
    BareCode(if Truthy(d) then str(d) else "")
  }

  function WithoutHs(lines: seq<Elem>, str: Str): seq<Elem> {
    if lines == [] then []
    else
      var n := |lines| - 1;
      WithoutHs(lines[..n], str) + if IsHsLine(lines[n], str) then [] else [lines[n]]
  }

  function DropHs(r: Invoice, str: Str): Applied {
    var kept := WithoutHs(r.lines, str);
    KeptAreFewer(r.lines, str);
    if |kept| < |r.lines| then Applied(r.(lines := kept), [Dropped(|r.lines| - |kept|)]) else Applied(r, [])
  }

  lemma {:induction false} KeptAreFewer(lines: seq<Elem>, str: Str)
    ensures |WithoutHs(lines, str)| <= |lines|
    ensures |WithoutHs(lines, str)| == |lines| ==> WithoutHs(lines, str) == lines
  {
    if lines != [] {
      KeptAreFewer(lines[..|lines| - 1], str);
    }
  }

  // ---- credit_note_sign ----

  const SIGNED_TOTALS := ["subtotal", "total", "discount_amount", "vat_amount"]

  const SIGNED_PRICES := ["unit_price", "total_price"]

  predicate Positive(f: Fields, k: string) {
    Get(f, k).Num? && Get(f, k).value > 0.0
  }

  function Flip(f: Fields, k: string): Fields {
    if Positive(f, k) then f[k := Num(-f[k].value)] else f
  }

  function FlipAll(f: Fields, keys: seq<string>): Fields {
    if keys == [] then f else Flip(FlipAll(f, keys[..|keys| - 1]), keys[|keys| - 1])
  }

  function FlipElem(e: Elem): Elem {
    match e
    case Dict(f) => Dict(FlipAll(f, SIGNED_PRICES))
    case Atom(_) => e
  }

  function FlipLines(lines: seq<Elem>): seq<Elem> {
    seq(|lines|, i requires 0 <= i < |lines| => FlipElem(lines[i]))
  }

  predicate HasAtom(lines: seq<Elem>) {
    exists i :: 0 <= i < |lines| && lines[i].Atom?
  }

  function FlippedInvoice(r: Invoice): Invoice {
    r.(totals := if r.totals.Some? then Some(FlipAll(r.totals.value, SIGNED_TOTALS)) else None,
       lines := FlipLines(r.lines))
  }

  /** A line that is not an object has no `get`. */
  function CreditSign(r: Invoice): Result<Applied> {
    if !IsCredit(r) then Ok(Applied(r, []))
    else if HasAtom(r.lines) then Err("AttributeError")
    else
      var flipped := FlippedInvoice(r);
      Ok(Applied(flipped, if flipped != r then [Flipped] else []))
  }

  // ---- derive_total_from_subtotal ----

  function DeriveTotal(r: Invoice): Applied {
    var t := TotalsOf(r);
    if Get(t, "total") == Null && Get(t, "subtotal").Num? then
      Applied(r.(totals := Some(t["total" := t["subtotal"]])), [Derived(t["subtotal"].value)])
    else Applied(r, [])
  }

  // ---- reconcile_totals ----

  function LineSum(lines: seq<Elem>): real {
    if lines == [] then 0.0
    else
      var e := lines[|lines| - 1];
      LineSum(lines[..|lines| - 1]) + if e.Dict? then Amount(e.fields, "total_price") else 0.0
  }

  predicate Off(a: real, b: real) {
    Round2(Abs(a - b)) > 0.02
  }

  /** Charges less discounts, on top of the subtotal. */
  function Charges(t: Fields): real {
    Amount(t, "freight") + Amount(t, "handling_charges") + Amount(t, "vat_amount")
    - Amount(t, "discount_amount") - Amount(t, "discount_2")
  }

  function WarningsFor(itemised: bool, credit: bool, sum: real, t: Fields): seq<Warn> {
    var subtotal, total := Get(t, "subtotal"), Get(t, "total");
    if itemised && total.Num? && !Off(sum, total.value) then []
    else
      (if itemised && subtotal.Num? && Off(sum, subtotal.value) then [ItemsOffSubtotal(sum, subtotal.value)]
       else if itemised && total.Num? && !subtotal.Num? && Off(sum, total.value) then [ItemsOffTotal(sum, total.value)]
       else []) +
      (if !credit && subtotal.Num? && total.Num? && Off(subtotal.value + Charges(t), total.value)
       then [Unexplained(subtotal.value + Charges(t), total.value)]
       else [])
  }

  function Warnings(r: Invoice): seq<Warn> {
    WarningsFor(r.lines != [], IsCredit(r), LineSum(r.lines), TotalsOf(r))
  }

  function Reconcile(r: Invoice): Applied {
    var w := Warnings(r);
    if w == [] then Applied(r, []) else Applied(r.(warning := r.warning + w), [Reconciled(w)])
  }

  // ---- apply_rules ----

  const DEFAULT_RULES := ["drop_hs_summary", "credit_note_sign", "derive_total_from_subtotal", "reconcile_totals"]

  /** One op by name; an unknown name is skipped. */
  function ApplyOp(r: Invoice, name: string, str: Str): Result<Applied> {
    if name == "drop_hs_summary" then Ok(DropHs(r, str))
    else if name == "credit_note_sign" then CreditSign(r)
    else if name == "derive_total_from_subtotal" then Ok(DeriveTotal(r))
    else if name == "reconcile_totals" then Ok(Reconcile(r))
    else Ok(Applied(r, []))
  }

  function ApplyOps(r: Invoice, names: seq<string>, str: Str): Result<Applied> {
    if names == [] then Ok(Applied(r, []))
    else
      match ApplyOps(r, names[..|names| - 1], str)
      case Err(e) => Err(e)
      case Ok(a) =>
        match ApplyOp(a.invoice, names[|names| - 1], str)
        case Err(e) => Err(e)
        case Ok(b) => Ok(Applied(b.invoice, a.notes + b.notes))
  }

  function ApplyRules(r: Invoice, extra: seq<string>, str: Str): Result<Applied> {
    ApplyOps(r, DEFAULT_RULES + extra, str)
  }

  // ---- Reconciliation: what a missing warning means ----

  lemma OffIsBeyondBand(a: real, b: real)
    ensures Off(a, b) <==> Abs(a - b) > 0.025
  {
    Round2Band(Abs(a - b));
  }

  /** A field's number; a field that is missing or no number counts for nothing. */
  function Figure(t: Fields, k: string): real {
    match Get(t, k)
    case Num(x) => x
    case _ => 0.0
  }

  /** Freight, handling and VAT come on top of the subtotal, the two discounts off it. */
  function Explained(t: Fields): real {
    var subtotal, freight, handling := Figure(t, "subtotal"), Figure(t, "freight"), Figure(t, "handling_charges");
    var vat, discount, discount2 := Figure(t, "vat_amount"), Figure(t, "discount_amount"), Figure(t, "discount_2");
    subtotal + freight + handling + vat - discount - discount2
  }

  lemma ChargesExplain(t: Fields)
    ensures Get(t, "subtotal").Num? ==> Get(t, "subtotal").value + Charges(t) == Explained(t)
  {
  }

  /** A line that is an object adds its numeric total_price to the sum; any other line adds nothing. */
  lemma LineSumGrows(lines: seq<Elem>, e: Elem)
    ensures LineSum(lines + [e]) == LineSum(lines) +
      match e { case Dict(f) => Figure(f, "total_price") case Atom(_) => 0.0 }
  {
    assert (lines + [e])[..|lines|] == lines;
  }

  /** The sum of the lines misses a figure by more than 2.5 cents. */
  predicate LinesMiss(r: Invoice, k: string) {
    Abs(LineSum(r.lines) - Figure(TotalsOf(r), k)) > 0.025
  }

  predicate HasFigure(r: Invoice, k: string) {
    Get(TotalsOf(r), k).Num?
  }

  /** Lines that meet the total silence every warning. */
  predicate LinesMeetTheTotal(r: Invoice) {
    r.lines != [] && HasFigure(r, "total") && !LinesMiss(r, "total")
  }

  lemma LinesOff(r: Invoice, k: string)
    ensures Off(LineSum(r.lines), Figure(TotalsOf(r), k)) <==> LinesMiss(r, k)
  {
    OffIsBeyondBand(LineSum(r.lines), Figure(TotalsOf(r), k));
  }

  lemma ExplainedOff(r: Invoice)
    ensures var t := TotalsOf(r);
      HasFigure(r, "subtotal") ==>
        Get(t, "subtotal").value + Charges(t) == Explained(t)
        && (Off(Explained(t), Figure(t, "total")) <==> Abs(Explained(t) - Figure(t, "total")) > 0.025)
  {
    ChargesExplain(TotalsOf(r));
    OffIsBeyondBand(Explained(TotalsOf(r)), Figure(TotalsOf(r), "total"));
  }

  lemma QuietInBands(r: Invoice)
    requires !IsCredit(r) && r.lines != [] && HasFigure(r, "subtotal") && HasFigure(r, "total")
    ensures var t := TotalsOf(r);
      (Warnings(r) == [] <==>
          !LinesMiss(r, "total")
          || (!LinesMiss(r, "subtotal") && Abs(Explained(t) - Figure(t, "total")) <= 0.025))
  {
    LinesOff(r, "subtotal");
    LinesOff(r, "total");
    ExplainedOff(r);
  }

  lemma TwoBands(a: real, b: real, c: real)
    requires Abs(a) <= 0.025 && Abs(b) <= 0.025 && c == a + b
    ensures Abs(c) <= 0.05
  {
  }

  /** No warning is raised on a non-credit invoice with lines, subtotal and total exactly when the lines meet
      the total, or meet the subtotal while subtotal, charges and discounts meet the total; each within 2.5 cents. */
  lemma QuietMeansReconciled(r: Invoice)
    requires !IsCredit(r) && r.lines != [] && Get(TotalsOf(r), "subtotal").Num? && Get(TotalsOf(r), "total").Num?
    ensures var t := TotalsOf(r);
      var sum, subtotal, total := LineSum(r.lines), Figure(t, "subtotal"), Figure(t, "total");
      var plus := Figure(t, "freight") + Figure(t, "handling_charges") + Figure(t, "vat_amount");
      var minus := Figure(t, "discount_amount") + Figure(t, "discount_2");
      && (Reconcile(r).notes == [] <==> Reconcile(r).invoice == r)
      && (Reconcile(r).notes == [] <==>
          Abs(sum - total) <= 0.025
          || (Abs(sum - subtotal) <= 0.025 && Abs(subtotal + plus - minus - total) <= 0.025))
      && (Reconcile(r).notes == [] ==>
          Abs(sum - total) <= 0.025 || Abs(sum + plus - minus - total) <= 0.05)
  {
    QuietInBands(r);
    var t := TotalsOf(r);
    if !LinesMiss(r, "subtotal") && Abs(Explained(t) - Figure(t, "total")) <= 0.025 {
      var sum, subtotal, total := LineSum(r.lines), Figure(t, "subtotal"), Figure(t, "total");
      TwoBands(sum - subtotal, Explained(t) - total, sum - subtotal + Explained(t) - total);
    }
  }

  /** An invoice whose figures agree exactly never gets a warning, credit notes and missing figures included. */
  lemma ExactFiguresAreQuiet(r: Invoice)
    requires var t := TotalsOf(r);
      var plus := Figure(t, "freight") + Figure(t, "handling_charges") + Figure(t, "vat_amount");
      var minus := Figure(t, "discount_amount") + Figure(t, "discount_2");
      && (Get(t, "subtotal").Num? && r.lines != [] ==> LineSum(r.lines) == Figure(t, "subtotal"))
      && (Get(t, "total").Num? && Get(t, "subtotal").Num?
          ==> Figure(t, "subtotal") + plus - minus == Figure(t, "total"))
      && (Get(t, "total").Num? && !Get(t, "subtotal").Num? && r.lines != [] ==> LineSum(r.lines) == Figure(t, "total"))
    ensures Reconcile(r) == Applied(r, [])
  {
    var t := TotalsOf(r);
    OffIsBeyondBand(LineSum(r.lines), Figure(t, "subtotal"));
    OffIsBeyondBand(LineSum(r.lines), Figure(t, "total"));
    OffIsBeyondBand(Figure(t, "subtotal") + Charges(t), Figure(t, "total"));
  }

  /** A warning an invoice should get, with the two amounts it shows. */
  predicate Warranted(r: Invoice, w: Warn) {
    && !LinesMeetTheTotal(r)
    && match w
       case ItemsOffSubtotal(a, b) =>
         r.lines != [] && HasFigure(r, "subtotal") && LinesMiss(r, "subtotal")
         && a == LineSum(r.lines) && b == Figure(TotalsOf(r), "subtotal")
       case ItemsOffTotal(a, b) =>
         r.lines != [] && HasFigure(r, "total") && !HasFigure(r, "subtotal")
         && a == LineSum(r.lines) && b == Figure(TotalsOf(r), "total")
       case Unexplained(a, b) =>
         !IsCredit(r) && HasFigure(r, "subtotal") && HasFigure(r, "total") && Abs(a - b) > 0.025
         && a == Explained(TotalsOf(r)) && b == Figure(TotalsOf(r), "total")
  }

  /** For every invoice, whatever figures it has: it gets exactly the warnings it should. */
  lemma WarningsTellTheFigures(r: Invoice, w: Warn)
    ensures w in Warnings(r) <==> Warranted(r, w)
  {
    LinesOff(r, "subtotal");
    LinesOff(r, "total");
    ExplainedOff(r);
    var t := TotalsOf(r);
    assert HasFigure(r, "total") ==> Get(t, "total").value == Figure(t, "total");
    assert HasFigure(r, "subtotal") ==> Get(t, "subtotal").value == Figure(t, "subtotal");
  }

  // ---- What each op leaves behind ----

  /** The note tells how many lines went; without any nothing changes, and nothing else ever does. */
  lemma DropTellsHowMany(r: Invoice, str: Str)
    ensures var d := DropHs(r, str);
      && d.invoice == r.(lines := WithoutHs(r.lines, str))
      && (d.notes == [] || d.notes == [Dropped(|r.lines| - |d.invoice.lines|)])
      && (d.notes == [] <==> forall e | e in r.lines :: !IsHsLine(e, str))
  {
    KeptAreFewer(r.lines, str);
    NoHsLineIsKept(r.lines, str);
    if forall e | e in r.lines :: !IsHsLine(e, str) {
      WithoutHsStable(r.lines, str);
    }
  }

  /** A credit note is one whose document type says "credit", in any case. */
  lemma CreditNotesSaySo(r: Invoice)
    ensures IsCredit(r) <==> exists before, after :: Occurs(Lower(r.docType.GetOr("")), before, "credit", after)
  {
    ContainsWhereItOccurs(Lower(r.docType.GetOr("")), "credit");
  }

  /** What a figure of a credit note becomes. */
  function Credited(v: Val): Val {
    if v.Num? && v.value > 0.0 then Num(-v.value) else v
  }

  /** On a credit note four totals and two prices of every line lose their positive sign, and nothing else changes. */
  lemma CreditSignFlipsTheFigures(r: Invoice, k: string)
    requires CreditSign(r).Ok?
    ensures var s, notes := CreditSign(r).value.invoice, CreditSign(r).value.notes;
      && |s.lines| == |r.lines| && s.docType == r.docType && s.warning == r.warning
      && (s.totals.None? <==> r.totals.None?)
      && (notes == [] <==> s == r)
      && (!IsCredit(r) ==> s == r)
      && (IsCredit(r) ==>
        && Get(TotalsOf(s), k) == (if k in {"subtotal", "total", "discount_amount", "vat_amount"}
                                   then Credited(Get(TotalsOf(r), k)) else Get(TotalsOf(r), k))
        && forall i | 0 <= i < |r.lines| :: s.lines[i].Dict? && r.lines[i].Dict? &&
             Get(s.lines[i].fields, k) == if k in {"unit_price", "total_price"}
                                          then Credited(Get(r.lines[i].fields, k)) else Get(r.lines[i].fields, k))
  {
    if IsCredit(r) {
      if r.totals.Some? {
        FlipAllFields(r.totals.value, SIGNED_TOTALS, k);
      }
      forall i | 0 <= i < |r.lines|
        ensures r.lines[i].Dict?
        ensures Get(FlipAll(r.lines[i].fields, SIGNED_PRICES), k)
          == if k in {"unit_price", "total_price"} then Credited(Get(r.lines[i].fields, k))
             else Get(r.lines[i].fields, k)
      {
        FlipAllFields(r.lines[i].fields, SIGNED_PRICES, k);
      }
    }
  }

  /** A missing total is taken from a numeric subtotal, and nothing else changes. */
  lemma TotalIsDerivedFromSubtotal(r: Invoice, k: string)
    ensures var t, d := TotalsOf(r), DeriveTotal(r);
      var derived := Get(t, "total") == Null && Get(t, "subtotal").Num?;
      && d.invoice == r.(totals := d.invoice.totals)
      && Get(TotalsOf(d.invoice), k) == Get(t, if derived && k == "total" then "subtotal" else k)
      && d.notes == if derived then [Derived(Figure(t, "subtotal"))] else []
  {
  }

  /** Eight digits between white space. */
  ghost predicate EightDigits(s: string, before: string, code: string, after: string) {
    Framed(s, before, code, after) && |code| == 8 && AllDigits(code)
  }

  lemma DigitsHaveBareEnds(code: string)
    requires |code| == 8 && AllDigits(code)
    ensures BareEnds(code)
  {
    assert IsDigit(code[0]) && IsDigit(code[7]);
  }

  lemma BareCodeIsEightDigits(s: string)
    ensures BareCode(s) <==> exists before, code, after :: EightDigits(s, before, code, after)
  {
    if BareCode(s) {
      StripIsTheCore(s, Strip(s));
      var before, after :| Framed(s, before, Strip(s), after);
      assert EightDigits(s, before, Strip(s), after);
    }
    if before, code, after :| EightDigits(s, before, code, after) {
      DigitsHaveBareEnds(code);
      StripLosesTheFrame(s, before, code, after);
    }
  }

  /** A customs line is an object whose description is eight digits between white space. */
  lemma CustomsLinesAreBareCodes(f: Fields, str: Str)
    ensures var d := Get(f, "description");
      IsHsLine(Dict(f), str) <==>
        !Blank(d) && exists before, code, after :: EightDigits(str(d), before, code, after)
  {
    var d := Get(f, "description");
    BareCodeIsEightDigits(str(d));
    assert |Strip("")| == 0;
  }

  lemma {:induction false} NoHsLineIsKept(lines: seq<Elem>, str: Str)
    ensures forall e | e in WithoutHs(lines, str) :: e in lines && !IsHsLine(e, str)
  {
    if lines != [] {
      NoHsLineIsKept(lines[..|lines| - 1], str);
    }
  }

  lemma KeptAtTheEnd(lines: seq<Elem>, str: Str)
    requires lines != [] && !IsHsLine(lines[|lines| - 1], str)
    ensures WithoutHs(lines, str) == WithoutHs(lines[..|lines| - 1], str) + [lines[|lines| - 1]]
  {
  }

  lemma {:induction false} WithoutHsStable(lines: seq<Elem>, str: Str)
    requires forall e | e in lines :: !IsHsLine(e, str)
    ensures WithoutHs(lines, str) == lines
  {
    if lines != [] {
      var n := |lines| - 1;
      KeptAtTheEnd(lines, str);
      WithoutHsStable(lines[..n], str);
    }
  }

  /** Dropping takes out exactly what the customs lines added to the sum. */
  lemma {:induction false} DroppingRemovesTheHsSum(lines: seq<Elem>, str: Str)
    ensures LineSum(lines) == LineSum(WithoutHs(lines, str)) + HsSum(lines, str)
  {
    if lines != [] {
      var n := |lines| - 1;
      DroppingRemovesTheHsSum(lines[..n], str);
      var kept := WithoutHs(lines[..n], str);
      assert (kept + [lines[n]])[..|kept|] == kept && kept + [] == kept;
    }
  }

  function HsSum(lines: seq<Elem>, str: Str): real {
    if lines == [] then 0.0
    else
      var e := lines[|lines| - 1];
      HsSum(lines[..|lines| - 1], str) + if IsHsLine(e, str) then Amount(e.fields, "total_price") else 0.0
  }

  lemma {:induction false} FlipAllFields(f: Fields, keys: seq<string>, k: string)
    ensures k in FlipAll(f, keys) <==> k in f
    ensures Get(FlipAll(f, keys), k) == if k in keys && Positive(f, k) then Num(-f[k].value) else Get(f, k)
  {
    if keys != [] {
      FlipAllFields(f, keys[..|keys| - 1], k);
      assert keys == keys[..|keys| - 1] + [keys[|keys| - 1]];
    }
  }

  predicate NonePositive(f: Fields, keys: seq<string>) {
    forall k | k in keys :: !Positive(f, k)
  }

  lemma FlippedIsNotPositive(f: Fields, keys: seq<string>)
    ensures NonePositive(FlipAll(f, keys), keys)
  {
    forall k | k in keys ensures !Positive(FlipAll(f, keys), k) {
      FlipAllFields(f, keys, k);
    }
  }

  lemma {:induction false} FlipAllStable(f: Fields, keys: seq<string>)
    requires NonePositive(f, keys)
    ensures FlipAll(f, keys) == f
  {
    if keys != [] {
      FlipAllStable(f, keys[..|keys| - 1]);
    }
  }

  lemma FlipKeepsHs(e: Elem, str: Str)
    ensures IsHsLine(FlipElem(e), str) == IsHsLine(e, str)
  {
    if e.Dict? {
      FlipAllFields(e.fields, SIGNED_PRICES, "description");
    }
  }

  // ---- The whole pipeline ----

  predicate LinesNegative(lines: seq<Elem>) {
    forall i | 0 <= i < |lines| :: lines[i].Dict? && NonePositive(lines[i].fields, SIGNED_PRICES)
  }

  /** No customs line, a total wherever there is a subtotal, and on a credit note no positive figure. */
  ghost predicate Settled(r: Invoice, str: Str) {
    && (forall e | e in r.lines :: !IsHsLine(e, str))
    && (Get(TotalsOf(r), "subtotal").Num? ==> Get(TotalsOf(r), "total") != Null)
    && (IsCredit(r) ==> LinesNegative(r.lines) && NonePositive(TotalsOf(r), SIGNED_TOTALS))
  }

  lemma SignSettles(r: Invoice, str: Str)
    requires (forall e | e in r.lines :: !IsHsLine(e, str)) && CreditSign(r).Ok?
    ensures var s := CreditSign(r).value.invoice;
      && IsCredit(s) == IsCredit(r)
      && (forall e | e in s.lines :: !IsHsLine(e, str))
      && (IsCredit(s) ==> LinesNegative(s.lines) && NonePositive(TotalsOf(s), SIGNED_TOTALS))
  {
    if IsCredit(r) {
      var s := CreditSign(r).value.invoice;
      forall i | 0 <= i < |s.lines|
        ensures s.lines[i].Dict? && NonePositive(s.lines[i].fields, SIGNED_PRICES) && !IsHsLine(s.lines[i], str)
      {
        assert r.lines[i] in r.lines;
        FlipKeepsHs(r.lines[i], str);
        assert r.lines[i].Dict?;
        FlippedIsNotPositive(r.lines[i].fields, SIGNED_PRICES);
      }
      if r.totals.Some? {
        FlippedIsNotPositive(r.totals.value, SIGNED_TOTALS);
      }
    }
  }

  lemma OneMoreOp(r: Invoice, names: seq<string>, name: string, str: Str)
    ensures var before, after := ApplyOps(r, names, str), ApplyOps(r, names + [name], str);
      && (after.Ok? <==> before.Ok? && ApplyOp(before.value.invoice, name, str).Ok?)
      && (after.Ok? ==> after.value.invoice == ApplyOp(before.value.invoice, name, str).value.invoice)
  {
    assert (names + [name])[..|names|] == names;
  }

  lemma DefaultSteps(r: Invoice, str: Str)
    ensures var sign := CreditSign(DropHs(r, str).invoice);
      var all := ApplyOps(r, DEFAULT_RULES, str);
      && (all.Ok? <==> sign.Ok?)
      && (all.Ok? ==> all.value.invoice == Reconcile(DeriveTotal(sign.value.invoice).invoice).invoice)
  {
    var d := DEFAULT_RULES;
    assert d[..0] == [] && d[..1] == [] + [d[0]] && d[..2] == d[..1] + [d[1]];
    assert d[..3] == d[..2] + [d[2]] && d == d[..3] + [d[3]];
    OneMoreOp(r, [], d[0], str);
    OneMoreOp(r, d[..1], d[1], str);
    OneMoreOp(r, d[..2], d[2], str);
    OneMoreOp(r, d[..3], d[3], str);
  }

  lemma DroppedHasNoHs(r: Invoice, str: Str)
    ensures var d := DropHs(r, str).invoice;
      && IsCredit(d) == IsCredit(r) && HasAtom(d.lines) == HasAtom(r.lines)
      && forall e | e in d.lines :: !IsHsLine(e, str)
  {
    NoHsLineIsKept(r.lines, str);
    KeptAreFewer(r.lines, str);
    AtomsAreKept(r.lines, str);
  }

  lemma DeriveSettles(s: Invoice, str: Str)
    requires forall e | e in s.lines :: !IsHsLine(e, str)
    requires IsCredit(s) ==> LinesNegative(s.lines) && NonePositive(TotalsOf(s), SIGNED_TOTALS)
    ensures Settled(Reconcile(DeriveTotal(s).invoice).invoice, str)
  {
    var d := DeriveTotal(s).invoice;
    if IsCredit(s) {
      assert "subtotal" in SIGNED_TOTALS && !Positive(TotalsOf(s), "subtotal");
      forall k | k in SIGNED_TOTALS ensures !Positive(TotalsOf(d), k) {
        assert !Positive(TotalsOf(s), k);
      }
    }
  }

  /** The default rules fail exactly on a credit note with a line that is not an object; otherwise they settle. */
  lemma DefaultRulesSettle(r: Invoice, str: Str)
    ensures var all := ApplyOps(r, DEFAULT_RULES, str);
      && (all.Err? <==> IsCredit(r) && HasAtom(r.lines))
      && (all.Ok? ==> Settled(all.value.invoice, str))
  {
    DefaultSteps(r, str);
    DroppedHasNoHs(r, str);
    var dropped := DropHs(r, str).invoice;
    if CreditSign(dropped).Ok? {
      SignSettles(dropped, str);
      DeriveSettles(CreditSign(dropped).value.invoice, str);
    }
  }

  lemma AtomsAreKept(lines: seq<Elem>, str: Str)
    ensures HasAtom(WithoutHs(lines, str)) <==> HasAtom(lines)
  {
    if HasAtom(WithoutHs(lines, str)) {
      NoHsLineIsKept(lines, str);
      var j :| 0 <= j < |WithoutHs(lines, str)| && WithoutHs(lines, str)[j].Atom?;
      assert WithoutHs(lines, str)[j] in lines;
    }
    if HasAtom(lines) {
      var i :| 0 <= i < |lines| && lines[i].Atom?;
      OthersAreKept(lines, str, i);
    }
  }

  lemma {:induction false} OthersAreKept(lines: seq<Elem>, str: Str, i: nat)
    requires i < |lines| && !IsHsLine(lines[i], str)
    ensures lines[i] in WithoutHs(lines, str)
  {
    if i < |lines| - 1 {
      OthersAreKept(lines[..|lines| - 1], str, i);
    }
  }

  /** On a settled invoice an op can only add to the warning. */
  lemma SettledIsStable(r: Invoice, name: string, str: Str)
    requires Settled(r, str)
    ensures ApplyOp(r, name, str).Ok?
    ensures ApplyOp(r, name, str).value.invoice
      == r.(warning := r.warning + if name == "reconcile_totals" then Warnings(r) else [])
  {
    assert r.warning + [] == r.warning;
    if name == "drop_hs_summary" {
      WithoutHsStable(r.lines, str);
    } else if name == "credit_note_sign" && IsCredit(r) {
      forall i | 0 <= i < |r.lines| ensures FlipLines(r.lines)[i] == r.lines[i] {
        FlipAllStable(r.lines[i].fields, SIGNED_PRICES);
      }
      if r.totals.Some? {
        FlipAllStable(r.totals.value, SIGNED_TOTALS);
      }
      assert FlippedInvoice(r) == r;
    }
  }

  function Repeated(w: seq<Warn>, names: seq<string>): seq<Warn> {
    if names == [] then []
    else Repeated(w, names[..|names| - 1]) + if names[|names| - 1] == "reconcile_totals" then w else []
  }

  lemma SettledIgnoresWarning(r: Invoice, s: Invoice, str: Str)
    requires Settled(r, str) && s == r.(warning := s.warning)
    ensures Settled(s, str) && Warnings(s) == Warnings(r)
  {
  }

  /** Whatever further ops a supplier lists, they change nothing but the warning, which repeats once
      for every further reconcile_totals. */
  lemma {:induction false} FurtherOpsOnlyRepeatTheWarning(r: Invoice, names: seq<string>, str: Str)
    requires Settled(r, str)
    ensures ApplyOps(r, names, str).Ok?
    ensures ApplyOps(r, names, str).value.invoice == r.(warning := r.warning + Repeated(Warnings(r), names))
  {
    if names == [] {
      assert r.warning + [] == r.warning;
    } else {
      var before := names[..|names| - 1];
      FurtherOpsOnlyRepeatTheWarning(r, before, str);
      var s, name := ApplyOps(r, before, str).value.invoice, names[|names| - 1];
      SettledIgnoresWarning(r, s, str);
      SettledIsStable(s, name, str);
      OneMoreOp(r, before, name, str);
      assert before + [name] == names;
      RepeatedStep(r.warning, Warnings(r), names);
    }
  }

  lemma RepeatedStep(was: seq<Warn>, w: seq<Warn>, names: seq<string>)
    requires names != []
    ensures was + Repeated(w, names)
      == (was + Repeated(w, names[..|names| - 1])) + if names[|names| - 1] == "reconcile_totals" then w else []
  {
  }

  lemma {:induction false} OpsAppend(r: Invoice, first: seq<string>, more: seq<string>, str: Str)
    ensures ApplyOps(r, first, str).Err? ==> ApplyOps(r, first + more, str).Err?
    ensures ApplyOps(r, first, str).Ok? ==>
      var mid := ApplyOps(r, first, str).value.invoice;
      ApplyOps(r, first + more, str).Ok? == ApplyOps(mid, more, str).Ok?
      && (ApplyOps(mid, more, str).Ok?
          ==> ApplyOps(r, first + more, str).value.invoice == ApplyOps(mid, more, str).value.invoice)
  {
    if more == [] {
      assert first + more == first;
    } else {
      assert (first + more)[..|first + more| - 1] == first + more[..|more| - 1];
      OpsAppend(r, first, more[..|more| - 1], str);
    }
  }

  /** The pipeline with a supplier's own op list: it fails exactly as the default rules do, and otherwise
      yields their settled record up to a repeated warning. */
  lemma SupplierRulesAreHarmless(r: Invoice, extra: seq<string>, str: Str)
    ensures ApplyRules(r, extra, str).Err? <==> IsCredit(r) && HasAtom(r.lines)
    ensures ApplyRules(r, extra, str).Ok? ==>
      ApplyOps(r, DEFAULT_RULES, str).Ok? &&
      var base := ApplyOps(r, DEFAULT_RULES, str).value.invoice;
      Settled(base, str)
      && ApplyRules(r, extra, str).value.invoice == base.(warning := base.warning + Repeated(Warnings(base), extra))
  {
    DefaultRulesSettle(r, str);
    OpsAppend(r, DEFAULT_RULES, extra, str);
    if ApplyOps(r, DEFAULT_RULES, str).Ok? {
      FurtherOpsOnlyRepeatTheWarning(ApplyOps(r, DEFAULT_RULES, str).value.invoice, extra, str);
    }
  }
}
