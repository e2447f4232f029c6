/** `_merge_continuation` and the page fold, in place on the dictionaries they change
    (epiproc/ingest/pdf_vlm.py). */
module PageMerge {
  import opened Common
  import opened Continuation

  /** A line-item dictionary. */
  class Item {
    var fields: Fields

    constructor (fields: Fields)
      ensures this.fields == fields
    {
      this.fields := fields;
    }

    /** for k, v in ci.items(): fill gaps, and take non-null prices. */
    method Fill(c: Fields)
      modifies this
      ensures fields == MergeItem(old(fields), c)
    {
      var keys := c.Keys;
      ghost var done := {};
      while keys != {}
        invariant keys !! done && keys + done == c.Keys
        invariant fields == MergeItem(old(fields), Only(c, done))
        decreases keys
      {
        var k :| k in keys;
        if c[k] != Null && (k in PRICES || Get(fields, k) == Null) {
          fields := fields[k := c[k]];
        }
        FillOne(old(fields), c, done, k);
        keys, done := keys - {k}, done + {k};
      }
      assert Only(c, done) == c;
    }
  }

  ghost function Only(c: Fields, keys: set<string>): Fields {
    map k | k in c && k in keys :: c[k]
  }

  lemma FillOne(was: Fields, c: Fields, done: set<string>, k: string)
    requires k in c && k !in done
    ensures var f := MergeItem(was, Only(c, done));
      MergeItem(was, Only(c, done + {k})) == if Overwrites(k, Get(f, k), c[k]) then f[k := c[k]] else f
  {
    var f := MergeItem(was, Only(c, done));
    assert Get(f, k) == Get(was, k);
  }

  lemma NonNullOne(c: Fields, done: set<string>, k: string)
    requires k in c
    ensures var f := NonNull(Only(c, done));
      NonNull(Only(c, done + {k})) == if c[k] != Null then f[k := c[k]] else f
  {
  }

  /** An element of a line_items list. */
  datatype Line = Obj(item: Item) | Other(value: Val)

  function ItemsIn(lines: seq<Line>): set<Item> {
    set i | 0 <= i < |lines| && lines[i].Obj? :: lines[i].item
  }

  function ValueOf(line: Line): Elem
    reads if line.Obj? then {line.item} else {}
  {
    match line
    case Obj(item) => Dict(item.fields)
    case Other(v) => Atom(v)
  }

  function ValuesOf(lines: seq<Line>): seq<Elem>
    reads ItemsIn(lines)
  {
    seq(|lines|, i requires 0 <= i < |lines| reads ItemsIn(lines) => ValueOf(lines[i]))
  }

  /** A parsed page is a tree: no dictionary occurs twice. */
  predicate NoSharing(lines: seq<Line>) {
    forall i, j | 0 <= i < j < |lines| && lines[i].Obj? && lines[j].Obj? :: lines[i].item != lines[j].item
  }

  ghost predicate LastBelow(values: seq<Elem>, str: Str, n: nat, key: string, k: nat)
    requires k < n <= |values|
  {
    At(values[k], key, str) && forall i | k < i < n :: !At(values[i], key, str)
  }

  /** `byPos` is right about `key` on the first n lines: the last line at a position wins. */
  ghost predicate Indexed(byPos: map<string, Item>, lines: seq<Line>, values: seq<Elem>, str: Str, n: nat, key: string)
    requires n <= |lines| == |values|
  {
    if key in byPos then
      exists k {:trigger LastBelow(values, str, n, key, k)} | 0 <= k < n ::
        lines[k] == Obj(byPos[key]) && LastBelow(values, str, n, key, k)
    else forall i | 0 <= i < n :: !At(values[i], key, str)
  }

  ghost predicate Indexes(byPos: map<string, Item>, lines: seq<Line>, values: seq<Elem>, str: Str)
    requires |lines| == |values|
  {
    forall key :: Indexed(byPos, lines, values, str, |lines|, key)
  }

  method IndexPositions(lines: seq<Line>, str: Str) returns (byPos: map<string, Item>)
    ensures Indexes(byPos, lines, ValuesOf(lines), str)
  {
    byPos := map[];
    ghost var values := ValuesOf(lines);
    for i := 0 to |lines|
      invariant forall key :: Indexed(byPos, lines, values, str, i, key)
    {
      ghost var was := byPos;
      if lines[i].Obj? && Get(lines[i].item.fields, "position") != Null {
        byPos := byPos[str(Get(lines[i].item.fields, "position")) := lines[i].item];
      }
      ghost var n := i + 1;
      forall key ensures Indexed(byPos, lines, values, str, n, key) {
        assert Indexed(was, lines, values, str, i, key);
        if At(values[i], key, str) {
          assert LastBelow(values, str, n, key, i);
        } else if key in was {
          var k :| 0 <= k < i && lines[k] == Obj(was[key]) && LastBelow(values, str, i, key, k);
          assert LastBelow(values, str, n, key, k);
        }
      }
    }
  }

  lemma IndexFindsLast(byPos: map<string, Item>, lines: seq<Line>, values: seq<Elem>, str: Str, key: string)
    requires |lines| == |values| && Indexes(byPos, lines, values, str)
    ensures var k := LastAt(values, key, str);
      if key in byPos then k < |lines| && lines[k] == Obj(byPos[key]) else k == |lines|
  {
    assert Indexed(byPos, lines, values, str, |lines|, key);
    if key in byPos {
      var k :| 0 <= k < |lines| && lines[k] == Obj(byPos[key]) && LastBelow(values, str, |lines|, key, k);
      assert LastAt(values, key, str) == k;
    }
  }

  /** The index built before the loop stays right: merging never moves a line to another position. */
  lemma IndexStays(byPos: map<string, Item>, lines: seq<Line>, values: seq<Elem>, str: Str, k: nat, c: Fields)
    requires |lines| == |values| && Indexes(byPos, lines, values, str)
    requires k < |values| && values[k].Dict? && Get(values[k].fields, "position") != Null
    ensures Indexes(byPos, lines, values[k := Dict(MergeItem(values[k].fields, c))], str)
  {
    var later := values[k := Dict(MergeItem(values[k].fields, c))];
    MergeItemAbsorbs(values[k].fields, c);
    forall key ensures Indexed(byPos, lines, later, str, |lines|, key) {
      assert Indexed(byPos, lines, values, str, |lines|, key);
      assert forall i | 0 <= i < |values| :: At(values[i], key, str) == At(later[i], key, str);
      if key in byPos {
        var j :| 0 <= j < |lines| && lines[j] == Obj(byPos[key]) && LastBelow(values, str, |lines|, key, j);
        assert LastBelow(later, str, |lines|, key, j);
      }
    }
  }

  /** Merge one continuation line onto the line it matches, if there is one. */
  method MergeOne(existing: seq<Line>, byPos: map<string, Item>, c: Item, str: Str) returns (matched: bool)
    requires NoSharing(existing) && c !in ItemsIn(existing)
    requires Indexes(byPos, existing, ValuesOf(existing), str)
    modifies ItemsIn(existing)
    ensures Indexes(byPos, existing, ValuesOf(existing), str)
    ensures var values := old(ValuesOf(existing));
      var k := Target(values, old(c.fields), str);
      matched == (k < |values|)
      && ValuesOf(existing) == if matched then values[k := Dict(MergeItem(values[k].fields, old(c.fields)))] else values
  {
    ghost var values := ValuesOf(existing);
    matched := false;
    var pos := Get(c.fields, "position");
    if pos != Null {
      IndexFindsLast(byPos, existing, values, str, str(pos));
      if str(pos) in byPos {
        var e := byPos[str(pos)];
        ghost var k := LastAt(values, str(pos), str);
        assert existing[k] == Obj(e) && e in ItemsIn(existing) && values[k] == Dict(e.fields);
        if (Truthy(Get(c.fields, "article")) && Get(c.fields, "article") == Get(e.fields, "article"))
           || (Truthy(Get(c.fields, "description")) && Get(c.fields, "description") == Get(e.fields, "description")) {
          assert Target(values, c.fields, str) == k;
          IndexStays(byPos, existing, values, str, k, c.fields);
          e.Fill(c.fields);
          matched := true;
          assert forall i | 0 <= i < |existing| && i != k :: ValueOf(existing[i]) == values[i];
          assert ValuesOf(existing) == values[k := Dict(MergeItem(values[k].fields, c.fields))];
        }
      }
    }
  }

  /** Merge one element of the continuation, or append it; what is not an object is dropped. */
  method TakeLine(existing: seq<Line>, byPos: map<string, Item>, line: Line, added: seq<Line>, str: Str)
    returns (added': seq<Line>)
    requires NoSharing(existing) && ItemsIn(existing) !! ItemsIn(added)
    requires line.Obj? ==> line.item !in ItemsIn(existing)
    requires Indexes(byPos, existing, ValuesOf(existing), str)
    modifies ItemsIn(existing)
    ensures Indexes(byPos, existing, ValuesOf(existing), str)
    ensures Merge(ValuesOf(existing), ValuesOf(added'))
      == MergeLine(old(Merge(ValuesOf(existing), ValuesOf(added))), old(ValueOf(line)), str)
    ensures added' == added || (line.Obj? && added' == added + [line])
  {
    ghost var was := ValuesOf(added);
    added' := added;
    if line.Obj? {
      var matched := MergeOne(existing, byPos, line.item, str);
      assert ValuesOf(added) == was;
      if !matched {
        added' := added + [line];
        assert ValuesOf(added') == was + [ValueOf(line)];
      }
    }
  }

  /** The line-item part of the merge. */
  method MergeLinesInPlace(existing: seq<Line>, extra: seq<Line>, str: Str) returns (added: seq<Line>)
    requires NoSharing(existing + extra)
    modifies ItemsIn(existing)
    ensures Merge(ValuesOf(existing), ValuesOf(added)) == MergeLines(old(ValuesOf(existing)), old(ValuesOf(extra)), str)
    ensures NoSharing(existing + added) && ItemsIn(added) <= ItemsIn(extra)
  {
    ghost var values, more := ValuesOf(existing), ValuesOf(extra);
    SharingOfParts(existing, extra);
    var byPos := IndexPositions(existing, str);
    added := [];
    assert more[..0] == [];
    for j := 0 to |extra|
      invariant Indexes(byPos, existing, ValuesOf(existing), str)
      invariant ValuesOf(extra) == more
      invariant Merge(ValuesOf(existing), ValuesOf(added)) == MergeLines(values, more[..j], str)
      invariant NoSharing(added) && ItemsIn(added) <= ItemsIn(extra[..j])
    {
      PrefixOfPage(more, extra, j);
      ghost var before := added;
      added := TakeLine(existing, byPos, extra[j], added, str);
      if added != before {
        TakenFromEarlier(before, extra, j);
      }
    }
    assert more[..|extra|] == more && extra[..|extra|] == extra;
    SharingOfWhole(existing, added, extra);
  }

  lemma PrefixOfPage(more: seq<Elem>, extra: seq<Line>, j: nat)
    requires j < |extra| == |more|
    ensures more[..j + 1][..j] == more[..j]
    ensures ItemsIn(extra[..j]) <= ItemsIn(extra[..j + 1]) <= ItemsIn(extra)
    ensures extra[j].Obj? ==> extra[j].item in ItemsIn(extra)
  {
    assert forall i | 0 <= i < j :: extra[..j][i] == extra[..j + 1][i] == extra[i];
  }

  lemma TakenFromEarlier(added: seq<Line>, extra: seq<Line>, j: nat)
    requires j < |extra| && extra[j].Obj? && NoSharing(extra)
    requires NoSharing(added) && ItemsIn(added) <= ItemsIn(extra[..j])
    ensures NoSharing(added + [extra[j]]) && ItemsIn(added + [extra[j]]) <= ItemsIn(extra[..j + 1])
  {
    assert extra[..j + 1] == extra[..j] + [extra[j]];
    forall i | 0 <= i < |added| && added[i].Obj? ensures added[i].item != extra[j].item {
      assert added[i].item in ItemsIn(added);
      var k :| 0 <= k < j && extra[..j][k] == Obj(added[i].item);
    }
    forall item | item in ItemsIn(added + [extra[j]]) ensures item in ItemsIn(extra[..j + 1]) {
      if item in ItemsIn(added) {
        var k :| 0 <= k < j && extra[..j][k] == Obj(item);
        assert extra[..j + 1][k] == Obj(item);
      } else {
        assert extra[..j + 1][j] == Obj(item);
      }
    }
  }

  lemma SharingOfWhole(existing: seq<Line>, added: seq<Line>, extra: seq<Line>)
    requires NoSharing(existing) && NoSharing(added) && ItemsIn(existing) !! ItemsIn(extra)
    requires ItemsIn(added) <= ItemsIn(extra)
    ensures NoSharing(existing + added)
  {
    var all := existing + added;
    forall i, j | 0 <= i < j < |all| && all[i].Obj? && all[j].Obj? ensures all[i].item != all[j].item {
      assert i < |existing| ==> all[i].item in ItemsIn(existing);
      assert j >= |existing| ==> all[j].item in ItemsIn(added);
    }
  }

  lemma SharingOfParts(existing: seq<Line>, extra: seq<Line>)
    requires NoSharing(existing + extra)
    ensures NoSharing(existing) && NoSharing(extra) && ItemsIn(existing) !! ItemsIn(extra)
  {
    var all := existing + extra;
    assert forall i | 0 <= i < |existing| :: all[i] == existing[i];
    assert forall i | 0 <= i < |extra| :: all[|existing| + i] == extra[i];
  }

  /** An invoice record as parsed from a page. */
  class InvoiceDoc {
    var lines: seq<Line>
    var totals: Section
    var header: Fields

    function View(): Page
      reads this, ItemsIn(lines)
    {
      Page(ValuesOf(lines), totals, header)
    }

    constructor (page: Page)
      ensures NoSharing(lines) && fresh(ItemsIn(lines))
      ensures View() == page
    {
      var parsed := ParseLines(page.lines);
      lines, totals, header := parsed, page.totals, page.header;
    }

    /** for k, v in cs.items(): non-null totals overwrite. */
    method MergeTotalsInPlace(cont: Section) returns (ok: bool)
      modifies this`totals
      ensures ok <==> MergeTotals(old(totals), cont).Ok?
      ensures ok ==> totals == MergeTotals(old(totals), cont).value
    {
      if cont.NotObject? {
        return true;
      }
      if totals.Missing? {
        totals := Object(map[]);
      }
      ok := FillTotals(if cont.Object? then cont.fields else map[]);
    }

    method FillTotals(c: Fields) returns (ok: bool)
      requires !totals.Missing?
      modifies this`totals
      ensures ok <==> old(totals).Object? || NonNull(c) == map[]
      ensures totals == if old(totals).Object? then Object(old(totals).fields + NonNull(c)) else old(totals)
    {
      var keys := c.Keys;
      ghost var done := {};
      while keys != {}
        invariant keys !! done && keys + done == c.Keys
        invariant old(totals).Object? ==> totals == Object(old(totals).fields + NonNull(Only(c, done)))
        invariant !old(totals).Object? ==> totals == old(totals) && forall k | k in done :: c[k] == Null
        decreases keys
      {
        var k :| k in keys;
        if c[k] != Null {
          if !totals.Object? {
            assert k in NonNull(c);
            return false;
          }
          totals := Object(totals.fields[k := c[k]]);
        }
        NonNullOne(c, done, k);
        keys, done := keys - {k}, done + {k};
      }
      assert Only(c, done) == c;
      ok := true;
    }

    method MergeHeaderInPlace(cont: Fields)
      modifies this`header
      ensures header == MergeHeader(old(header), cont)
    {
      if Get(cont, "payment_terms") != Null {
        header := header["payment_terms" := cont["payment_terms"]];
      }
      if Get(cont, "notes") != Null {
        header := header["notes" := cont["notes"]];
      }
    }

    method MergeLineItems(extra: seq<Line>, str: Str)
      requires NoSharing(lines + extra)
      modifies this`lines, ItemsIn(lines)
      ensures ValuesOf(lines) == LinesAfter(old(ValuesOf(lines)), old(ValuesOf(extra)), str)
      ensures NoSharing(lines) && ItemsIn(lines) <= old(ItemsIn(lines)) + ItemsIn(extra)
    {
      var added := MergeLinesInPlace(lines, extra, str);
      ItemsOfBoth(lines, added);
      assert ValuesOf(lines + added) == ValuesOf(lines) + ValuesOf(added);
      lines := lines + added;
    }

    /** `_merge_continuation`; `ok` is false where Python raises. */
    method MergeContinuation(cont: InvoiceDoc, str: Str) returns (ok: bool)
      requires cont != this && NoSharing(lines + cont.lines)
      modifies this, ItemsIn(lines)
      ensures ok <==> old(MergePage(View(), cont.View(), str)).Ok?
      ensures ok ==> View() == old(MergePage(View(), cont.View(), str)).value
      ensures ok ==> NoSharing(lines) && ItemsIn(lines) <= old(ItemsIn(lines)) + old(ItemsIn(cont.lines))
    {
      MergeLineItems(cont.lines, str);
      ok := MergeTotalsInPlace(cont.totals);
      if ok {
        MergeHeaderInPlace(cont.header);
      }
    }
  }

  /** Parsing builds new dictionaries. */
  method ParseLines(elems: seq<Elem>) returns (lines: seq<Line>)
    ensures NoSharing(lines) && fresh(ItemsIn(lines)) && ValuesOf(lines) == elems
  {
    lines := [];
    for i := 0 to |elems|
      invariant NoSharing(lines) && fresh(ItemsIn(lines)) && ValuesOf(lines) == elems[..i]
    {
      ghost var was := ValuesOf(lines);
      var line := Other(Null);
      match elems[i] {
        case Dict(f) =>
          var item := new Item(f);
          line := Obj(item);
        case Atom(v) =>
          line := Other(v);
      }
      assert ValuesOf(lines) == was && ValueOf(line) == elems[i];
      AppendOne(lines, line);
      lines := lines + [line];
      assert ValuesOf(lines) == was + [ValueOf(line)] && elems[..i + 1] == elems[..i] + [elems[i]];
    }
    assert elems[..|elems|] == elems;
  }

  lemma AppendOne(lines: seq<Line>, line: Line)
    requires NoSharing(lines) && (line.Obj? ==> line.item !in ItemsIn(lines))
    ensures NoSharing(lines + [line])
    ensures ItemsIn(lines + [line]) == ItemsIn(lines) + if line.Obj? then {line.item} else {}
  {
    ItemsOfBoth(lines, [line]);
    assert ItemsIn([line]) == if line.Obj? then {line.item} else {} by {
      assert [line][0] == line;
    }
    forall i | 0 <= i < |lines| && lines[i].Obj? && line.Obj? ensures lines[i].item != line.item {
      assert lines[i].item in ItemsIn(lines);
    }
  }

  lemma ItemsOfBoth(a: seq<Line>, b: seq<Line>)
    ensures ItemsIn(a + b) == ItemsIn(a) + ItemsIn(b)
  {
    forall item | item in ItemsIn(a) + ItemsIn(b) ensures item in ItemsIn(a + b) {
      if item in ItemsIn(a) {
        var i :| 0 <= i < |a| && a[i] == Obj(item);
        assert (a + b)[i] == Obj(item);
      } else {
        var i :| 0 <= i < |b| && b[i] == Obj(item);
        assert (a + b)[|a| + i] == Obj(item);
      }
    }
  }

  lemma FreshPagesDoNotShare(a: seq<Line>, b: seq<Line>)
    requires NoSharing(a) && NoSharing(b) && ItemsIn(a) !! ItemsIn(b)
    ensures NoSharing(a + b)
  {
    SharingOfWhole(a, b, b);
  }

  /** The page fold of `extract_invoice`: the first page is the record, the others are merged into it. */
  method ExtractInvoice(pages: seq<Result<Page>>, str: Str) returns (r: Result<Page>)
    ensures r.Ok? <==> pages != [] && MergePages(pages, str).Ok?
    ensures r.Ok? ==> r == MergePages(pages, str)
  {
    if pages == [] {
      return Err("IndexError");
    }
    assert pages[..1] == [pages[0]];
    if pages[0].Err? {
      FailureStays(pages, str, 1);
      return pages[0];
    }
    var data := new InvoiceDoc(pages[0].value);
    assert MergePages(pages[..1], str) == Ok(data.View());
    for n := 1 to |pages|
      invariant fresh(data) && fresh(ItemsIn(data.lines)) && NoSharing(data.lines)
      invariant MergePages(pages[..n], str) == Ok(data.View())
    {
      OnePageMore(pages, str, n);
      var ok := MergeNext(data, pages[n], str);
      if !ok {
        FailureStays(pages, str, n + 1);
        return Err("page failed");
      }
    }
    assert pages[..|pages|] == pages;
    r := Ok(data.View());
  }

  /** Read the next page and merge it. */
  method MergeNext(data: InvoiceDoc, page: Result<Page>, str: Str) returns (ok: bool)
    requires NoSharing(data.lines)
    modifies data, ItemsIn(data.lines)
    ensures ok <==> page.Ok? && MergePage(old(data.View()), page.value, str).Ok?
    ensures ok ==> Ok(data.View()) == MergePage(old(data.View()), page.value, str)
    ensures ok ==> NoSharing(data.lines) && fresh(ItemsIn(data.lines) - old(ItemsIn(data.lines)))
  {
    if page.Err? {
      return false;
    }
    var cont := new InvoiceDoc(page.value);
    FreshPagesDoNotShare(data.lines, cont.lines);
    ok := data.MergeContinuation(cont, str);
  }

  lemma OnePageMore(pages: seq<Result<Page>>, str: Str, n: nat)
    requires 0 < n < |pages| && MergePages(pages[..n], str).Ok?
    ensures MergePages(pages[..n + 1], str) == if pages[n].Err? then Err(pages[n].message)
                                               else MergePage(MergePages(pages[..n], str).value, pages[n].value, str)
  {
    assert pages[..n + 1][..n] == pages[..n];
  }

  lemma {:induction false} FailureStays(pages: seq<Result<Page>>, str: Str, n: nat)
    requires 0 < n <= |pages| && MergePages(pages[..n], str).Err?
    ensures MergePages(pages, str).Err?
  {
    if n == |pages| {
      assert pages[..n] == pages;
    } else {
      assert pages[..|pages| - 1][..n] == pages[..n];
      FailureStays(pages[..|pages| - 1], str, n);
    }
  }
}
