/** Continuation-page merge on values (epiproc/ingest/pdf_vlm.py).

    `str` is Python's text form of a value; nothing is assumed of it. A missing key reads as null. */
module Continuation {
  import opened Common

  datatype Val = Null | Num(value: real) | Text(text: string)

  type Fields = map<string, Val>

  type Str = Val -> string

  /** A list element: an object, or anything else. */
  datatype Elem = Dict(fields: Fields) | Atom(value: Val)

  /** A totals section: no key, null or another empty value, some other value, or an object. */
  datatype Section = Missing | Empty | NotObject | Object(fields: Fields)

  datatype Page = Page(lines: seq<Elem>, totals: Section, header: Fields)

  const PRICES := {"unit_price", "total_price"}

  const HEADER := {"payment_terms", "notes"}

  function Get(f: Fields, k: string): Val {
    if k in f then f[k] else Null
  }

  predicate Truthy(v: Val) {
    match v
    case Null => false
    case Num(x) => x != 0.0
    case Text(s) => s != ""
  }

  // ---- One line ----

  predicate Overwrites(k: string, was: Val, v: Val) {
    v != Null && (k in PRICES || was == Null)
  }

  /** Prices of the continuation win; its other fields fill gaps. */
  function MergeItem(e: Fields, c: Fields): Fields {
    map k | k in e.Keys + c.Keys && (k in e || c[k] != Null) ::
      if k in c && Overwrites(k, Get(e, k), c[k]) then c[k] else Get(e, k)
  }

  predicate Matches(e: Fields, c: Fields) {
    || (Truthy(Get(c, "article")) && Get(c, "article") == Get(e, "article"))
    || (Truthy(Get(c, "description")) && Get(c, "description") == Get(e, "description"))
  }

  /** The element is an object whose position reads as `key`. */
  predicate At(e: Elem, key: string, str: Str) {
    e.Dict? && Get(e.fields, "position") != Null && str(Get(e.fields, "position")) == key
  }

  /** Index of the last line at a position, or |lines|. */
  function LastAt(lines: seq<Elem>, key: string, str: Str): (k: nat)
    ensures k <= |lines|
    ensures k < |lines| ==> At(lines[k], key, str) && forall i | k < i < |lines| :: !At(lines[i], key, str)
    ensures k == |lines| ==> forall i | 0 <= i < |lines| :: !At(lines[i], key, str)
  {
    LastAtFrom(lines, key, str, |lines|)
  }

  function LastAtFrom(lines: seq<Elem>, key: string, str: Str, n: nat): (k: nat)
    requires n <= |lines| && forall i | n <= i < |lines| :: !At(lines[i], key, str)
    ensures k <= |lines|
    ensures k < |lines| ==> At(lines[k], key, str) && forall i | k < i < |lines| :: !At(lines[i], key, str)
    ensures k == |lines| ==> forall i | 0 <= i < |lines| :: !At(lines[i], key, str)
  {
    if n == 0 then |lines|
    else if At(lines[n - 1], key, str) then n - 1
    else LastAtFrom(lines, key, str, n - 1)
  }

  /** The line a continuation line is merged onto, or |lines|. */
  function Target(lines: seq<Elem>, c: Fields, str: Str): (k: nat)
    ensures k <= |lines|
    ensures k < |lines| ==> lines[k].Dict?
  {
    if Get(c, "position") == Null then |lines|
    else
      var k := LastAt(lines, str(Get(c, "position")), str);
      if k < |lines| && Matches(lines[k].fields, c) then k else |lines|
  }

  // ---- A page ----

  /** Lines of the record so far, and lines to append. */
  datatype Merge = Merge(existing: seq<Elem>, added: seq<Elem>)

  function MergeLine(m: Merge, e: Elem, str: Str): Merge {
    if e.Atom? then m
    else
      var k := Target(m.existing, e.fields, str);
      if k < |m.existing| then m.(existing := m.existing[k := Dict(MergeItem(m.existing[k].fields, e.fields))])
      else m.(added := m.added + [e])
  }

  function MergeLines(existing: seq<Elem>, extra: seq<Elem>, str: Str): Merge {
    if extra == [] then Merge(existing, [])
    else MergeLine(MergeLines(existing, extra[..|extra| - 1], str), extra[|extra| - 1], str)
  }

  function LinesAfter(existing: seq<Elem>, extra: seq<Elem>, str: Str): seq<Elem> {
    MergeLines(existing, extra, str).existing + MergeLines(existing, extra, str).added
  }

  function NonNull(f: Fields): Fields {
    map k | k in f && f[k] != Null :: f[k]
  }

  /** Totals of the continuation overwrite; a record whose totals are not an object cannot take any. */
  function MergeTotals(was: Section, cont: Section): Result<Section> {
    if cont.NotObject? then Ok(was)
    else
      var given := if cont.Object? then NonNull(cont.fields) else map[];
      match was
      case Missing => Ok(Object(given))
      case Object(f) => Ok(Object(f + given))
      case _ => if given == map[] then Ok(was) else Err("TypeError")
  }

  function MergeHeader(was: Fields, cont: Fields): Fields {
    was + (map k | k in cont && k in HEADER && cont[k] != Null :: cont[k])
  }

  function MergePage(data: Page, cont: Page, str: Str): Result<Page> {
    match MergeTotals(data.totals, cont.totals)
    case Err(e) => Err(e)
    case Ok(totals) => Ok(Page(LinesAfter(data.lines, cont.lines, str), totals, MergeHeader(data.header, cont.header)))
  }

  /** The page fold: any page that cannot be read or merged fails the whole extraction. */
  function MergePages(pages: seq<Result<Page>>, str: Str): Result<Page>
    requires |pages| > 0
  {
    var n := |pages| - 1;
    if n == 0 then pages[0]
    else
      match MergePages(pages[..n], str)
      case Err(e) => Err(e)
      case Ok(data) =>
        match pages[n]
        case Err(e) => Err(e)
        case Ok(cont) => MergePage(data, cont, str)
  }

  // ---- Nothing read earlier is lost ----

  /** `later` has every non-null field of `earlier`, and every one but prices unchanged. */
  predicate Extends(earlier: Elem, later: Elem) {
    match earlier
    case Atom(_) => later == earlier
    case Dict(f) => later.Dict? && forall k | k in f && f[k] != Null ::
      Get(later.fields, k) != Null && (k !in {"unit_price", "total_price"} ==> Get(later.fields, k) == f[k])
  }

  predicate ExtendsAll(earlier: seq<Elem>, later: seq<Elem>) {
    |earlier| <= |later| && forall i | 0 <= i < |earlier| :: Extends(earlier[i], later[i])
  }

  lemma {:induction false} MergeLinesExtends(existing: seq<Elem>, extra: seq<Elem>, str: Str)
    ensures |MergeLines(existing, extra, str).existing| == |existing|
    ensures ExtendsAll(existing, MergeLines(existing, extra, str).existing)
  {
    if extra != [] {
      MergeLinesExtends(existing, extra[..|extra| - 1], str);
    }
  }

  /** Whatever the later pages say, every line read earlier keeps its place and all its non-null fields,
      only prices may take a later value, and no field becomes null. */
  lemma {:induction false} LinesAreKeptInOrder(pages: seq<Result<Page>>, str: Str, n: nat)
    requires 0 < n <= |pages| && MergePages(pages, str).Ok?
    ensures MergePages(pages[..n], str).Ok?
    ensures ExtendsAll(MergePages(pages[..n], str).value.lines, MergePages(pages, str).value.lines)
  {
    if n == |pages| {
      assert pages[..n] == pages;
    } else {
      var before := pages[..|pages| - 1];
      LinesAreKeptInOrder(before, str, n);
      assert before[..n] == pages[..n];
      var first, data := MergePages(pages[..n], str).value.lines, MergePages(before, str).value;
      var extra := pages[|pages| - 1].value.lines;
      MergeLinesExtends(data.lines, extra, str);
      forall i | 0 <= i < |first| ensures Extends(first[i], MergePages(pages, str).value.lines[i]) {
        assert Extends(data.lines[i], MergeLines(data.lines, extra, str).existing[i]);
        ExtendsTransitive(first[i], data.lines[i], MergeLines(data.lines, extra, str).existing[i]);
      }
    }
  }

  lemma ExtendsTransitive(a: Elem, b: Elem, c: Elem)
    requires Extends(a, b) && Extends(b, c)
    ensures Extends(a, c)
  {
  }

  /** The object lines of a page that find no line to merge onto when their turn comes. */
  function Unmatched(existing: seq<Elem>, extra: seq<Elem>, str: Str): seq<Elem> {
    if extra == [] then []
    else
      var n := |extra| - 1;
      var m := MergeLines(existing, extra[..n], str);
      Unmatched(existing, extra[..n], str) +
      if extra[n].Dict? && Target(m.existing, extra[n].fields, str) == |m.existing| then [extra[n]] else []
  }

  /** A page only adds its unmatched object lines, unaltered and in their order, after the lines there were. */
  lemma UnmatchedAreAppended(existing: seq<Elem>, extra: seq<Elem>, str: Str)
    ensures LinesAfter(existing, extra, str)
      == MergeLines(existing, extra, str).existing + Unmatched(existing, extra, str)
  {
    UnmatchedAreAdded(existing, extra, str);
  }

  lemma {:induction false} UnmatchedAreAdded(existing: seq<Elem>, extra: seq<Elem>, str: Str)
    ensures MergeLines(existing, extra, str).added == Unmatched(existing, extra, str)
  {
    if extra != [] {
      UnmatchedAreAdded(existing, extra[..|extra| - 1], str);
    }
  }

  /** A line goes onto the last one at its position, if they agree in a non-blank article or description. */
  lemma MergedOntoExactlyWhen(lines: seq<Elem>, c: Fields, str: Str, k: nat)
    requires k < |lines|
    ensures Target(lines, c, str) == k <==>
      && Get(c, "position") != Null && At(lines[k], str(Get(c, "position")), str)
      && (forall i | k < i < |lines| :: !At(lines[i], str(Get(c, "position")), str))
      && ((!Blank(Get(c, "article")) && Get(lines[k].fields, "article") == Get(c, "article"))
          || (!Blank(Get(c, "description")) && Get(lines[k].fields, "description") == Get(c, "description")))
  {
  }

  // ---- The header ----

  /** The last non-null value of a header field over the pages after the first, or else that of the first page. */
  function LastHeader(pages: seq<Result<Page>>, k: string): Val {
    if pages == [] then Null
    else
      var p := pages[|pages| - 1];
      if p.Ok? && (|pages| == 1 || Get(p.value.header, k) != Null) then Get(p.value.header, k)
      else LastHeader(pages[..|pages| - 1], k)
  }

  lemma HeaderAfterPage(was: Fields, cont: Fields, k: string)
    ensures Get(MergeHeader(was, cont), k)
      == if k in {"payment_terms", "notes"} && Get(cont, k) != Null then Get(cont, k) else Get(was, k)
  {
  }

  /** Payment terms and notes end as the last non-null value over the pages; no other header field leaves the first. */
  lemma {:induction false} HeaderEndsAsLastGiven(pages: seq<Result<Page>>, str: Str, k: string)
    requires |pages| > 0 && MergePages(pages, str).Ok?
    ensures pages[0].Ok?
    ensures Get(MergePages(pages, str).value.header, k)
      == if k in {"payment_terms", "notes"} then LastHeader(pages, k) else Get(pages[0].value.header, k)
  {
    var n := |pages| - 1;
    if n > 0 {
      HeaderEndsAsLastGiven(pages[..n], str, k);
      HeaderAfterPage(MergePages(pages[..n], str).value.header, pages[n].value.header, k);
    }
  }

  // ---- Totals ----

  /** The last non-null value of a totals field over the pages. */
  function LastGiven(pages: seq<Result<Page>>, k: string): Val {
    if pages == [] then Null
    else
      var p := pages[|pages| - 1];
      if p.Ok? && p.value.totals.Object? && Get(p.value.totals.fields, k) != Null then Get(p.value.totals.fields, k)
      else LastGiven(pages[..|pages| - 1], k)
  }

  function TotalsOf(p: Page): Fields {
    if p.totals.Object? then p.totals.fields else map[]
  }

  lemma NoneGiven(f: Fields, k: string)
    ensures NonNull(f) == map[] ==> Get(f, k) == Null
  {
    assert Get(f, k) != Null ==> k in NonNull(f);
  }

  lemma TotalsAfterPage(data: Page, cont: Page, str: Str, k: string)
    requires MergePage(data, cont, str).Ok?
    ensures Get(TotalsOf(MergePage(data, cont, str).value), k)
      == if cont.totals.Object? && Get(cont.totals.fields, k) != Null then Get(cont.totals.fields, k)
         else Get(TotalsOf(data), k)
  {
    if cont.totals.Object? {
      NoneGiven(cont.totals.fields, k);
    }
  }

  /** Each totals field ends as the last non-null value over the pages. */
  lemma {:induction false} TotalsEndAsLastGiven(pages: seq<Result<Page>>, str: Str, k: string)
    requires |pages| > 0 && MergePages(pages, str).Ok?
    ensures Get(TotalsOf(MergePages(pages, str).value), k) == LastGiven(pages, k)
  {
    var n := |pages| - 1;
    if n == 0 {
      assert pages[..0] == [];
      assert LastGiven(pages[..0], k) == Null;
    } else {
      TotalsEndAsLastGiven(pages[..n], str, k);
      TotalsAfterPage(MergePages(pages[..n], str).value, pages[n].value, str, k);
    }
  }

  // ---- Merging a page twice ----

  /** What Python takes for false. */
  predicate Blank(v: Val) {
    v == Null || v == Num(0.0) || v == Text("")
  }

  predicate Named(c: Fields) {
    !Blank(Get(c, "article")) || !Blank(Get(c, "description"))
  }

  /** A line that can be recognised again: it has a position, and an article or a description. */
  predicate Recognisable(e: Elem) {
    e.Dict? ==> Get(e.fields, "position") != Null && Named(e.fields)
  }

  predicate SamePlace(a: Elem, b: Elem, str: Str) {
    a.Dict? && b.Dict? && Get(a.fields, "position") != Null && At(b, str(Get(a.fields, "position")), str)
  }

  /** No two positions of a page read the same. */
  predicate DistinctPositions(extra: seq<Elem>, str: Str) {
    forall i, j {:trigger SamePlace(extra[i], extra[j], str)} |
      0 <= i < |extra| && 0 <= j < |extra| && i != j :: !SamePlace(extra[i], extra[j], str)
  }

  /** `lines` already holds all that line `e` says. */
  ghost predicate Absorbed(lines: seq<Elem>, e: Elem, str: Str) {
    e.Dict? ==>
      var k := Target(lines, e.fields, str);
      k < |lines| && MergeItem(lines[k].fields, e.fields) == lines[k].fields
  }

  lemma {:induction false} AbsorbedPageChangesNothing(lines: seq<Elem>, extra: seq<Elem>, str: Str)
    requires forall i | 0 <= i < |extra| :: Absorbed(lines, extra[i], str)
    ensures MergeLines(lines, extra, str) == Merge(lines, [])
  {
    if extra != [] {
      var n := |extra| - 1;
      assert forall i | 0 <= i < n :: extra[..n][i] == extra[i];
      AbsorbedPageChangesNothing(lines, extra[..n], str);
      assert Absorbed(lines, extra[n], str);
    }
  }

  lemma MergeItemAbsorbs(e: Fields, c: Fields)
    ensures MergeItem(MergeItem(e, c), c) == MergeItem(e, c)
    ensures Matches(e, c) ==> Matches(MergeItem(e, c), c)
    ensures Get(e, "position") != Null ==> Get(MergeItem(e, c), "position") == Get(e, "position")
  {
  }

  lemma LastAtAgrees(a: seq<Elem>, b: seq<Elem>, key: string, str: Str)
    requires |a| <= |b|
    requires forall i | 0 <= i < |a| :: At(a[i], key, str) == At(b[i], key, str)
    requires forall i | |a| <= i < |b| :: !At(b[i], key, str)
    ensures LastAt(a, key, str) < |a| ==> LastAt(b, key, str) == LastAt(a, key, str)
    ensures LastAt(a, key, str) == |a| ==> LastAt(b, key, str) == |b|
  {
    var i, j := LastAt(a, key, str), LastAt(b, key, str);
    assert i < |a| ==> At(b[i], key, str);
    assert j < |b| ==> j < |a| && At(a[j], key, str);
  }

  /** A line stays absorbed while lines at other positions change or are appended. */
  lemma AbsorbedStays(a: seq<Elem>, b: seq<Elem>, e: Elem, str: Str)
    requires Absorbed(a, e, str) && |a| <= |b| && e.Dict? && Get(e.fields, "position") != Null
    requires var key := str(Get(e.fields, "position"));
      && (forall i | 0 <= i < |a| :: a[i] == b[i] || (!At(a[i], key, str) && !At(b[i], key, str)))
      && (forall i | |a| <= i < |b| :: !At(b[i], key, str))
    ensures Absorbed(b, e, str)
  {
    LastAtAgrees(a, b, str(Get(e.fields, "position")), str);
  }

  /** The lines so far hold every line merged so far, and only lines of the page were appended. */
  ghost predicate Holding(m: Merge, extra: seq<Elem>, str: Str) {
    && (forall i | 0 <= i < |extra| :: Absorbed(m.existing + m.added, extra[i], str))
    && (forall j | 0 <= j < |m.added| :: m.added[j] in extra)
  }

  lemma MergedLineIsAbsorbed(m: Merge, before: seq<Elem>, e: Elem, str: Str)
    requires Holding(m, before, str) && Recognisable(e) && e.Dict?
    requires forall i | 0 <= i < |before| :: !SamePlace(e, before[i], str)
    ensures var m' := MergeLine(m, e, str);
      Absorbed(m'.existing + m'.added, e, str)
  {
    var m' := MergeLine(m, e, str);
    var lines := m'.existing + m'.added;
    var key := str(Get(e.fields, "position"));
    var k := Target(m.existing, e.fields, str);
    if k < |m.existing| {
      MergeItemAbsorbs(m.existing[k].fields, e.fields);
      forall i | k < i < |lines| ensures !At(lines[i], key, str) {
        if i >= |m.existing| {
          assert lines[i] == m.added[i - |m.existing|];
          assert !SamePlace(e, lines[i], str);
        }
      }
      assert At(lines[k], key, str);
      assert LastAt(lines, key, str) == k;
    } else {
      assert lines[|lines| - 1] == e && At(e, key, str);
      assert LastAt(lines, key, str) == |lines| - 1;
      assert MergeItem(e.fields, e.fields) == e.fields;
    }
  }

  lemma MergeLineKeepsAbsorbed(m: Merge, was: Elem, e: Elem, str: Str)
    requires Absorbed(m.existing + m.added, was, str) && Recognisable(was) && Recognisable(e)
    requires !SamePlace(was, e, str)
    ensures var m' := MergeLine(m, e, str);
      Absorbed(m'.existing + m'.added, was, str)
  {
    if was.Dict? && e.Dict? {
      var m' := MergeLine(m, e, str);
      var a, b := m.existing + m.added, m'.existing + m'.added;
      var key := str(Get(was.fields, "position"));
      var k := Target(m.existing, e.fields, str);
      if k < |m.existing| {
        MergeItemAbsorbs(m.existing[k].fields, e.fields);
        assert At(m.existing[k], str(Get(e.fields, "position")), str);
        assert !At(e, key, str);
        assert !At(a[k], key, str) && !At(b[k], key, str);
        assert forall i | 0 <= i < |a| && i != k :: a[i] == b[i];
      } else {
        assert b == a + [e];
        assert !At(e, key, str);
      }
      AbsorbedStays(a, b, was, str);
    }
  }

  predicate Alone(e: Elem, lines: seq<Elem>, str: Str) {
    forall i | 0 <= i < |lines| :: !SamePlace(e, lines[i], str) && !SamePlace(lines[i], e, str)
  }

  lemma MergeLineHolds(m: Merge, before: seq<Elem>, e: Elem, str: Str)
    requires Holding(m, before, str) && Alone(e, before, str)
    requires Recognisable(e) && forall i | 0 <= i < |before| :: Recognisable(before[i])
    ensures Holding(MergeLine(m, e, str), before + [e], str)
  {
    var m' := MergeLine(m, e, str);
    forall i | 0 <= i <= |before| ensures Absorbed(m'.existing + m'.added, (before + [e])[i], str) {
      if i < |before| {
        MergeLineKeepsAbsorbed(m, before[i], e, str);
      } else if e.Dict? {
        MergedLineIsAbsorbed(m, before, e, str);
      }
    }
    forall j | 0 <= j < |m'.added| ensures m'.added[j] in before + [e] {
      assert m'.added[j] == e || m'.added[j] == m.added[j];
    }
  }

  lemma {:induction false} PageIsHeld(existing: seq<Elem>, extra: seq<Elem>, str: Str)
    requires DistinctPositions(extra, str) && forall i | 0 <= i < |extra| :: Recognisable(extra[i])
    ensures Holding(MergeLines(existing, extra, str), extra, str)
  {
    if extra != [] {
      var n := |extra| - 1;
      var before, e := extra[..n], extra[n];
      forall i, j | 0 <= i < n && 0 <= j < n && i != j ensures !SamePlace(before[i], before[j], str) {
        assert !SamePlace(extra[i], extra[j], str);
      }
      PageIsHeld(existing, before, str);
      assert Alone(e, before, str) by {
        assert forall i | 0 <= i < n :: !SamePlace(extra[n], extra[i], str) && !SamePlace(extra[i], extra[n], str);
      }
      MergeLineHolds(MergeLines(existing, before, str), before, e, str);
      assert before + [e] == extra;
    }
  }

  /** What a line says is shown: its prices as they are, and a value wherever it has one. */
  predicate Shows(shown: Elem, e: Fields) {
    shown.Dict? && forall k | k in e && e[k] != Null ::
      Get(shown.fields, k) != Null && (k in {"unit_price", "total_price"} ==> Get(shown.fields, k) == e[k])
  }

  /** After the merge of a page whose lines can be told apart, the line at each position shows the prices this
      page gives for it, and every gap the page can fill is filled. */
  lemma PageFiguresAreShown(existing: seq<Elem>, extra: seq<Elem>, str: Str, i: nat)
    requires DistinctPositions(extra, str) && forall j | 0 <= j < |extra| :: Recognisable(extra[j])
    requires i < |extra| && extra[i].Dict?
    ensures var lines := LinesAfter(existing, extra, str);
      var k := LastAt(lines, str(Get(extra[i].fields, "position")), str);
      k < |lines| && Shows(lines[k], extra[i].fields)
  {
    PageIsHeld(existing, extra, str);
    var lines, e := LinesAfter(existing, extra, str), extra[i].fields;
    assert Absorbed(lines, extra[i], str);
    var k := Target(lines, e, str);
    assert MergeItem(lines[k].fields, e) == lines[k].fields;
    forall f | f in e && e[f] != Null
      ensures Get(lines[k].fields, f) != Null
      ensures f in {"unit_price", "total_price"} ==> Get(lines[k].fields, f) == e[f]
    {
      assert Get(MergeItem(lines[k].fields, e), f) == Get(lines[k].fields, f);
    }
  }

  /** A line without position, or without article and description, is appended every time. */
  lemma {:induction false} UnrecognisableIsAppended(lines: seq<Elem>, extra: seq<Elem>, str: Str, i: nat)
    requires i < |extra| && !Recognisable(extra[i])
    ensures MergeLines(lines, extra, str).added != []
  {
    var n := |extra| - 1;
    if i < n {
      UnrecognisableIsAppended(lines, extra[..n], str, i);
    }
  }

  lemma TotalsTwice(was: Section, cont: Section)
    requires MergeTotals(was, cont).Ok?
    ensures MergeTotals(MergeTotals(was, cont).value, cont) == MergeTotals(was, cont)
  {
    var once := MergeTotals(was, cont).value;
    if !cont.NotObject? && once.Object? {
      var given := if cont.Object? then NonNull(cont.fields) else map[];
      assert once.fields + given == once.fields;
    }
  }

  /** Merging a page twice equals merging it once, if and only if every line of it can be recognised again. */
  lemma MergingTwiceIsMergingOnce(data: Page, cont: Page, str: Str)
    requires DistinctPositions(cont.lines, str) && MergePage(data, cont, str).Ok?
    ensures var once := MergePage(data, cont, str).value;
      MergePage(once, cont, str) == Ok(once) <==> forall i | 0 <= i < |cont.lines| :: Recognisable(cont.lines[i])
  {
    var once := MergePage(data, cont, str).value;
    MergeLinesExtends(once.lines, cont.lines, str);
    assert MergeHeader(once.header, cont.header) == once.header;
    TotalsTwice(data.totals, cont.totals);
    if forall i | 0 <= i < |cont.lines| :: Recognisable(cont.lines[i]) {
      PageIsHeld(data.lines, cont.lines, str);
      AbsorbedPageChangesNothing(once.lines, cont.lines, str);
      assert once.lines + [] == once.lines;
    } else {
      var i :| 0 <= i < |cont.lines| && !Recognisable(cont.lines[i]);
      UnrecognisableIsAppended(once.lines, cont.lines, str, i);
    }
  }

  const ITEM_A: Fields := map["position" := Num(1.0), "article" := Text("A")]
  const ITEM_B: Fields := map["position" := Num(1.0), "article" := Text("B")]

  lemma TwoArticlesAtOnePosition(str: Str)
    ensures Recognisable(Dict(ITEM_A)) && Recognisable(Dict(ITEM_B))
    ensures Matches(ITEM_B, ITEM_B) && !Matches(ITEM_B, ITEM_A) && MergeItem(ITEM_B, ITEM_B) == ITEM_B
    ensures Target([], ITEM_A, str) == 0 && Target([], ITEM_B, str) == 0
    ensures Target([Dict(ITEM_A), Dict(ITEM_B)], ITEM_A, str) == 2
    ensures Target([Dict(ITEM_A), Dict(ITEM_B)], ITEM_B, str) == 1
  {
    assert Get(ITEM_A, "article") == Text("A") && Get(ITEM_B, "article") == Text("B");
    assert Get(ITEM_A, "description") == Null && Get(ITEM_B, "description") == Null;
    assert Get(ITEM_A, "position") == Num(1.0) && Get(ITEM_B, "position") == Num(1.0);
    assert LastAt([Dict(ITEM_A), Dict(ITEM_B)], str(Num(1.0)), str) == 1;
  }

  /** With a repeated position the page is appended again although every line of it can be recognised. */
  lemma RepeatedPositionIsAppendedAgain(str: Str)
    ensures var extra := [Dict(ITEM_A), Dict(ITEM_B)];
      && (forall i | 0 <= i < |extra| :: Recognisable(extra[i]))
      && LinesAfter([], extra, str) == extra
      && LinesAfter(extra, extra, str) == extra + [Dict(ITEM_A)]
  {
    TwoArticlesAtOnePosition(str);
    var extra := [Dict(ITEM_A), Dict(ITEM_B)];
    assert extra[..1] == [Dict(ITEM_A)] && [Dict(ITEM_A)][..0] == [];
    assert MergeLines([], [Dict(ITEM_A)], str) == Merge([], [Dict(ITEM_A)]);
    assert MergeLines([], extra, str) == Merge([], extra);
    assert MergeLines(extra, [Dict(ITEM_A)], str) == Merge(extra, [Dict(ITEM_A)]);
    assert extra[1 := Dict(ITEM_B)] == extra;
    assert MergeLines(extra, extra, str) == Merge(extra, [Dict(ITEM_A)]);
  }
}
