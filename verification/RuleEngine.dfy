/** The correction ops in place on the record they change (epiproc/ingest/rules.py). */
module RuleEngine {
  import opened Common
  import opened Continuation
  import opened PageMerge
  import opened Rounding
  import R = Rules

  class InvoiceRecord {
    const docType: Option<string>
    var lines: seq<Line>
    var totals: Option<Fields>
    var warning: seq<R.Warn>

    constructor (docType: Option<string>, lines: seq<Line>, totals: Option<Fields>)
      ensures this.docType == docType && this.lines == lines && this.totals == totals && warning == []
    {
      this.docType, this.lines, this.totals, warning := docType, lines, totals, [];
    }

    function View(): R.Invoice
      reads this, ItemsIn(lines)
    {
      R.Invoice(docType, ValuesOf(lines), totals, warning)
    }

    method DropHsSummary(str: Str) returns (notes: seq<R.Note>)
      requires NoSharing(lines)
      modifies this`lines
      ensures NoSharing(lines) && ItemsIn(lines) <= old(ItemsIn(lines))
      ensures R.Applied(View(), notes) == R.DropHs(old(View()), str)
    {
      var kept := KeepOthers(lines, str);
      R.KeptAreFewer(ValuesOf(lines), str);
      var dropped := |lines| - |kept|;
      notes := [];
      if dropped != 0 {
        lines := kept;
        notes := [R.Dropped(dropped)];
      }
    }

    /** Credit notes carry negative value; `ok` is false where Python raises. */
    method CreditNoteSign() returns (ok: bool, notes: seq<R.Note>)
      requires NoSharing(lines)
      modifies this`totals, ItemsIn(lines)
      ensures ok <==> R.CreditSign(old(View())).Ok?
      ensures ok ==> Ok(R.Applied(View(), notes)) == R.CreditSign(old(View()))
    {
      ok, notes := true, [];
      if !R.IsCredit(View()) {
        return;
      }
      var changed := false;
      if totals.Some? {
        var flipped;
        flipped, changed := FlipFields(totals.value, R.SIGNED_TOTALS);
        totals := Some(flipped);
      }
      var all, more := FlipPrices(lines);
      ok := all;
      if ok && (changed || more) {
        notes := [R.Flipped];
      }
    }

    method DeriveTotalFromSubtotal() returns (notes: seq<R.Note>)
      modifies this`totals
      ensures R.Applied(View(), notes) == R.DeriveTotal(old(View()))
    {
      notes := [];
      if totals.Some? {
        var t := totals.value;
        if Get(t, "total") == Null && Get(t, "subtotal").Num? {
          totals := Some(t["total" := t["subtotal"]]);
          notes := [R.Derived(t["subtotal"].value)];
        }
      }
    }

    method ReconcileTotals() returns (notes: seq<R.Note>)
      modifies this`warning
      ensures R.Applied(View(), notes) == R.Reconcile(old(View()))
    {
      ghost var was := View();
      ghost var values := ValuesOf(lines);
      assert was.lines == values && (values != []) == (lines != []);
      var sum := SumPrices(lines);
      assert ValuesOf(lines) == values;
      var warns := FindWarnings(lines != [], R.IsCredit(View()), sum, totals.GetOr(map[]));
      notes := [];
      if warns != [] {
        warning := warning + warns;
        notes := [R.Reconciled(warns)];
        assert View() == was.(warning := was.warning + warns);
      }
    }

    method ApplyOne(name: string, str: Str) returns (ok: bool, notes: seq<R.Note>)
      requires NoSharing(lines)
      modifies this, ItemsIn(lines)
      ensures NoSharing(lines) && ItemsIn(lines) <= old(ItemsIn(lines))
      ensures ok <==> R.ApplyOp(old(View()), name, str).Ok?
      ensures ok ==> Ok(R.Applied(View(), notes)) == R.ApplyOp(old(View()), name, str)
    {
      ok, notes := true, [];
      if name == "drop_hs_summary" {
        notes := DropHsSummary(str);
      } else if name == "credit_note_sign" {
        ok, notes := CreditNoteSign();
      } else if name == "derive_total_from_subtotal" {
        notes := DeriveTotalFromSubtotal();
      } else if name == "reconcile_totals" {
        notes := ReconcileTotals();
      }
    }

    /** The default ops, then those of the supplier's configuration. */
    method ApplyRules(extra: seq<string>, str: Str) returns (ok: bool, notes: seq<R.Note>)
      requires NoSharing(lines)
      modifies this, ItemsIn(lines)
      ensures ok <==> R.ApplyRules(old(View()), extra, str).Ok?
      ensures ok ==> Ok(R.Applied(View(), notes)) == R.ApplyRules(old(View()), extra, str)
    {
      var names := R.DEFAULT_RULES + extra;
      ghost var was := View();
      ok, notes := true, [];
      for i := 0 to |names|
        invariant NoSharing(lines) && ItemsIn(lines) <= old(ItemsIn(lines))
        invariant R.ApplyOps(was, names[..i], str) == Ok(R.Applied(View(), notes))
      {
        var more;
        ok, more := ApplyOne(names[i], str);
        NextOp(was, names, i, str);
        if !ok {
          OpFailureStays(was, names, str, i + 1);
          return;
        }
        notes := notes + more;
      }
      assert names[..|names|] == names;
    }
  }

  lemma NextOp(r: R.Invoice, names: seq<string>, i: nat, str: Str)
    requires i < |names| && R.ApplyOps(r, names[..i], str).Ok?
    ensures var a := R.ApplyOps(r, names[..i], str).value;
      R.ApplyOps(r, names[..i + 1], str) ==
        match R.ApplyOp(a.invoice, names[i], str)
        case Err(e) => Err(e)
        case Ok(b) => Ok(R.Applied(b.invoice, a.notes + b.notes))
  {
    assert names[..i + 1][..i] == names[..i];
  }

  lemma {:induction false} OpFailureStays(r: R.Invoice, names: seq<string>, str: Str, n: nat)
    requires n <= |names| && R.ApplyOps(r, names[..n], str).Err?
    ensures R.ApplyOps(r, names, str).Err?
  {
    if n == |names| {
      assert names[..n] == names;
    } else {
      assert names[..|names| - 1][..n] == names[..n];
      OpFailureStays(r, names[..|names| - 1], str, n);
    }
  }

  method SumPrices(lines: seq<Line>) returns (sum: real)
    ensures sum == R.LineSum(ValuesOf(lines))
  {
    sum := 0.0;
    ghost var values := ValuesOf(lines);
    for i := 0 to |lines|
      invariant sum == R.LineSum(values[..i])
    {
      assert values[..i + 1][..i] == values[..i];
      if lines[i].Obj? && Get(lines[i].item.fields, "total_price").Num? {
        sum := sum + lines[i].item.fields["total_price"].value;
      }
    }
    assert values[..|lines|] == values;
  }

  method FindWarnings(itemised: bool, credit: bool, sum: real, t: Fields) returns (warns: seq<R.Warn>)
    ensures warns == R.WarningsFor(itemised, credit, sum, t)
  {
    var subtotal, total := Get(t, "subtotal"), Get(t, "total");
    warns := [];
    if itemised && total.Num? && !R.Off(sum, total.value) {
      return;
    }
    if itemised && subtotal.Num? && R.Off(sum, subtotal.value) {
      warns := warns + [R.ItemsOffSubtotal(sum, subtotal.value)];
    } else if itemised && total.Num? && !subtotal.Num? && R.Off(sum, total.value) {
      warns := warns + [R.ItemsOffTotal(sum, total.value)];
    }
    if !credit && subtotal.Num? && total.Num? {
      var explained := subtotal.value + R.Charges(t);
      if R.Off(explained, total.value) {
        warns := warns + [R.Unexplained(explained, total.value)];
      }
    }
  }

  /** The lines that are not bare customs codes. */
  method KeepOthers(lines: seq<Line>, str: Str) returns (kept: seq<Line>)
    requires NoSharing(lines)
    ensures ValuesOf(kept) == R.WithoutHs(ValuesOf(lines), str)
    ensures NoSharing(kept) && ItemsIn(kept) <= ItemsIn(lines)
  {
    kept := [];
    ghost var values := ValuesOf(lines);
    for i := 0 to |lines|
      invariant ValuesOf(kept) == R.WithoutHs(values[..i], str)
      invariant NoSharing(kept) && ItemsIn(kept) <= ItemsIn(lines[..i])
    {
      PrefixOfPage(values, lines, i);
      var text := "";
      if lines[i].Obj? {
        var d := Get(lines[i].item.fields, "description");
        text := if Truthy(d) then str(d) else "";
      }
      if !(lines[i].Obj? && R.BareCode(text)) {
        KeepOne(kept, lines, i);
        ghost var was := ValuesOf(kept);
        kept := kept + [lines[i]];
        assert ValuesOf(kept) == was + [values[i]];
      }
    }
    assert values[..|lines|] == values && lines[..|lines|] == lines;
  }

  /** Make the positive ones of these figures negative. */
  method FlipFields(was: Fields, keys: seq<string>) returns (f: Fields, changed: bool)
    requires forall a, b | 0 <= a < b < |keys| :: keys[a] != keys[b]
    ensures f == R.FlipAll(was, keys)
    ensures changed <==> f != was
  {
    f, changed := was, false;
    for i := 0 to |keys|
      invariant f == R.FlipAll(was, keys[..i])
      invariant changed <==> exists k | 0 <= k < i :: R.Positive(was, keys[k])
    {
      FlipNext(was, keys, i);
      if R.Positive(f, keys[i]) {
        f := f[keys[i] := Num(-f[keys[i]].value)];
        changed := true;
      }
    }
    assert keys[..|keys|] == keys;
    ChangedWhenPositive(was, keys);
  }

  /** Flip the prices of every line; `ok` is false at a line that is not an object. */
  method FlipPrices(lines: seq<Line>) returns (ok: bool, changed: bool)
    requires NoSharing(lines)
    modifies ItemsIn(lines)
    ensures ok <==> !R.HasAtom(old(ValuesOf(lines)))
    ensures ok ==> ValuesOf(lines) == R.FlipLines(old(ValuesOf(lines)))
    ensures ok ==> (changed <==> ValuesOf(lines) != old(ValuesOf(lines)))
  {
    ghost var values := ValuesOf(lines);
    ok, changed := true, false;
    for i := 0 to |lines|
      invariant |values| == |lines| && forall k | 0 <= k < i :: values[k].Dict?
      invariant forall k | 0 <= k < i :: ValueOf(lines[k]) == R.FlipElem(values[k])
      invariant forall k | i <= k < |lines| :: ValueOf(lines[k]) == values[k]
      invariant changed <==> exists k | 0 <= k < i :: R.FlipElem(values[k]) != values[k]
    {
      if lines[i].Other? {
        assert values[i].Atom?;
        return false, changed;
      }
      assert lines[i].item in ItemsIn(lines);
      var item := lines[i].item;
      var flipped, more := FlipFields(item.fields, R.SIGNED_PRICES);
      item.fields := flipped;
      changed := changed || more;
    }
  }

  lemma FlipNext(f: Fields, keys: seq<string>, i: nat)
    requires i < |keys| && forall a, b | 0 <= a < b < |keys| :: keys[a] != keys[b]
    ensures R.FlipAll(f, keys[..i + 1]) == R.Flip(R.FlipAll(f, keys[..i]), keys[i])
    ensures R.Positive(R.FlipAll(f, keys[..i]), keys[i]) == R.Positive(f, keys[i])
  {
    assert keys[..i + 1][..i] == keys[..i];
    R.FlipAllFields(f, keys[..i], keys[i]);
  }

  lemma ChangedWhenPositive(f: Fields, keys: seq<string>)
    ensures R.FlipAll(f, keys) != f <==> exists k | 0 <= k < |keys| :: R.Positive(f, keys[k])
  {
    if forall k | 0 <= k < |keys| :: !R.Positive(f, keys[k]) {
      R.FlipAllStable(f, keys);
    } else {
      var k :| 0 <= k < |keys| && R.Positive(f, keys[k]);
      R.FlipAllFields(f, keys, keys[k]);
    }
  }

  lemma KeepOne(kept: seq<Line>, lines: seq<Line>, i: nat)
    requires i < |lines| && NoSharing(lines) && NoSharing(kept) && ItemsIn(kept) <= ItemsIn(lines[..i])
    ensures NoSharing(kept + [lines[i]]) && ItemsIn(kept + [lines[i]]) <= ItemsIn(lines[..i + 1])
  {
    if lines[i].Obj? {
      TakenFromEarlier(kept, lines, i);
    } else {
      AppendOne(kept, lines[i]);
      PrefixItems(lines, i);
    }
  }

  lemma PrefixItems(lines: seq<Line>, i: nat)
    requires i < |lines|
    ensures ItemsIn(lines[..i]) <= ItemsIn(lines[..i + 1])
  {
    assert forall k | 0 <= k < i :: lines[..i][k] == lines[..i + 1][k];
  }
}
