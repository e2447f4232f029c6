/** Which product each row of a batch touches, while earlier rows of the same batch rename
    products, replace their EANs and create new ones. */
module BatchTracking {
  import opened Common
  import opened CostingTables
  import opened OfferRows
  import opened OfferImport

  /** A row's key, with the two kinds of key kept apart. */
  datatype Key = EanKey(ean: string) | NameKey(name: string)

  function RowKey(row: OfferRow): Key {
    if RowEan(row).Some? then EanKey(RowEan(row).value) else NameKey(Strip(row.name))
  }

  // ---- Hypotheses on a batch ----

  predicate FirstOfKey(rows: seq<OfferRow>, i: nat)
    requires i < |rows|
  {
    Named(rows[i]) && forall j | 0 <= j < i && Named(rows[j]) :: RowKey(rows[j]) != RowKey(rows[i])
  }

  /** The row's name decides what it finds: it has no EAN, or it is the first with an EAN not stored yet. */
  predicate FoundByName(ps: seq<Product>, rows: seq<OfferRow>, i: nat)
    requires i < |rows|
  {
    Named(rows[i])
    && (RowEan(rows[i]).Some? ==> FirstOfKey(rows, i) && ByEan(ps, RowEan(rows[i]).value) == |ps|)
  }

  /** No row found by its name has the name of an earlier row with another key. */
  predicate NamesApart(ps: seq<Product>, rows: seq<OfferRow>) {
    forall j, i | 0 <= j < i < |rows| && Named(rows[j]) && FoundByName(ps, rows, i) ::
      Strip(rows[j].name) == Strip(rows[i].name) ==> RowKey(rows[j]) == RowKey(rows[i])
  }

  /** Rows with different keys do not match the same stored product. */
  predicate DistinctMatches(ps: seq<Product>, rows: seq<OfferRow>) {
    forall i, j | 0 <= i < j < |rows| && FirstOfKey(rows, i) && FirstOfKey(rows, j) ::
      Lookup(ps, rows[i]) == Lookup(ps, rows[j]) ==> Lookup(ps, rows[i]) == |ps|
  }

  // ---- Tracking ----

  /** The rows that touched a product: the first and the last so far. */
  datatype Touch = Untouched | Touched(first: nat, last: nat)

  /** The state of product `k`, given its state before the batch and the rows that touched it. */
  predicate TouchOk(ps0: seq<Product>, rows: seq<OfferRow>, i: nat, p: Product, k: nat, t: Touch)
    requires i <= |rows|
  {
    match t
    case Untouched => k < |ps0| && p == ps0[k]
    case Touched(first, last) =>
      && first <= last < i
      && FirstOfKey(rows, first) && Named(rows[last]) && RowKey(rows[last]) == RowKey(rows[first])
      && Lookup(ps0, rows[first]) == (if k < |ps0| then k else |ps0|)
      && p.name == Strip(rows[last].name)
      && p.ean == (if RowEan(rows[first]).Some? then RowEan(rows[first]) else if k < |ps0| then ps0[k].ean else None)
      && p.origin == (if k < |ps0| then ps0[k].origin else Auto)
      && (k < |ps0| ==> p.id == ps0[k].id)
  }

  /** Row `j` was written to product `k`. */
  predicate Owns(rows: seq<OfferRow>, j: nat, t: seq<Touch>, k: nat)
    requires j < |rows|
  {
    k < |t| && t[k].Touched? && t[k].first < |rows| && RowKey(rows[t[k].first]) == RowKey(rows[j])
  }

  /** Both rows that a touch names own the product. */
  predicate OwnedByItsRows(t: Touch, own: seq<nat>, k: nat) {
    t.Touched? ==> t.first < |own| && t.last < |own| && own[t.first] == k && own[t.last] == k
  }

  predicate Tracked(ps0: seq<Product>, rows: seq<OfferRow>, i: nat, ps: seq<Product>, t: seq<Touch>, own: seq<nat>)
  {
    && i <= |rows| && |t| == |ps| && |ps0| <= |ps| && |own| == i
    && (forall k | 0 <= k < |ps| :: TouchOk(ps0, rows, i, ps[k], k, t[k]))
    && (forall j | 0 <= j < i && Named(rows[j]) :: Owns(rows, j, t, own[j]))
    && (forall k | 0 <= k < |t| :: OwnedByItsRows(t[k], own, k))
  }

  lemma NoEanMeansByEanEnd(ps: seq<Product>, ean: string, k: nat)
    requires k <= |ps|
    requires forall i | 0 <= i < k :: ps[i].ean != Some(ean)
    requires k < |ps| ==> ps[k].ean == Some(ean)
    ensures ByEan(ps, ean) == k
  {
  }

  lemma NoNameMeansByNameEnd(ps: seq<Product>, name: string, k: nat)
    requires k <= |ps|
    requires forall i | 0 <= i < k :: ps[i].name != name
    requires k < |ps| ==> ps[k].name == name
    ensures ByName(ps, name) == k
  {
  }

  /** No earlier row of the batch has given its EAN or its name to a product that the first row
      of another key would otherwise find. */
  lemma OtherRowsLeaveNoTrace(ps0: seq<Product>, rows: seq<OfferRow>, i: nat, ps: seq<Product>, t: seq<Touch>,
                              own: seq<nat>, k: nat)
    requires Tracked(ps0, rows, i, ps, t, own)
    requires i < |rows| && FirstOfKey(rows, i) && NamesApart(ps0, rows)
    requires k < |ps|
    ensures t[k].Touched? && FoundByName(ps0, rows, i) ==> ps[k].name != Strip(rows[i].name)
    ensures RowEan(rows[i]).Some? && ps[k].ean == RowEan(rows[i]) ==> k < |ps0| && ps0[k].ean == RowEan(rows[i])
  {
    assert TouchOk(ps0, rows, i, ps[k], k, t[k]);
    if t[k].Touched? {
      assert RowKey(rows[t[k].first]) != RowKey(rows[i]);
    }
  }

  /** A product touched by an earlier row is not the match of the first row of another key. */
  lemma TouchedIsNotTheMatch(ps0: seq<Product>, rows: seq<OfferRow>, i: nat, ps: seq<Product>, t: seq<Touch>,
                             own: seq<nat>, k: nat)
    requires Tracked(ps0, rows, i, ps, t, own)
    requires i < |rows| && FirstOfKey(rows, i) && DistinctMatches(ps0, rows)
    requires k < |ps0|
    ensures t[k].Touched? ==> k != Lookup(ps0, rows[i])
    ensures t[k].Untouched? ==> ps[k] == ps0[k]
  {
    assert TouchOk(ps0, rows, i, ps[k], k, t[k]);
    if t[k].Touched? {
      MatchesDiffer(ps0, rows, t[k].first, i);
    }
  }

  lemma MatchesDiffer(ps0: seq<Product>, rows: seq<OfferRow>, f: nat, i: nat)
    requires f < i < |rows| && FirstOfKey(rows, f) && FirstOfKey(rows, i) && DistinctMatches(ps0, rows)
    ensures Lookup(ps0, rows[f]) < |ps0| ==> Lookup(ps0, rows[f]) != Lookup(ps0, rows[i])
  {
  }

  /** The first row of a key finds what it would have found before the batch, unchanged. */
  lemma FirstRowFindsTheSame(ps0: seq<Product>, rows: seq<OfferRow>, i: nat, ps: seq<Product>, t: seq<Touch>,
                             own: seq<nat>)
    requires Tracked(ps0, rows, i, ps, t, own)
    requires i < |rows| && FirstOfKey(rows, i) && NamesApart(ps0, rows) && DistinctMatches(ps0, rows)
    ensures var m := Lookup(ps0, rows[i]);
      if m < |ps0| then Lookup(ps, rows[i]) == m && t[m].Untouched? && ps[m] == ps0[m]
      else Lookup(ps, rows[i]) == |ps|
  {
    var row, m := rows[i], Lookup(ps0, rows[i]);
    var name, ean := Strip(row.name), RowEan(row);
    if m < |ps0| {
      TouchedIsNotTheMatch(ps0, rows, i, ps, t, own, m);
    }
    forall k | 0 <= k < |ps|
      ensures t[k].Touched? && FoundByName(ps0, rows, i) ==> ps[k].name != name
      ensures t[k].Untouched? ==> k < |ps0| && ps[k] == ps0[k]
      ensures ean.Some? && ps[k].ean == ean ==> k < |ps0| && ps0[k].ean == ean
    {
      OtherRowsLeaveNoTrace(ps0, rows, i, ps, t, own, k);
      assert TouchOk(ps0, rows, i, ps[k], k, t[k]);
    }
    if ean.Some? && ByEan(ps0, ean.value) < |ps0| {
      NoEanMeansByEanEnd(ps, ean.value, m);
    } else {
      if ean.Some? {
        NoEanMeansByEanEnd(ps, ean.value, |ps|);
      }
      NoNameMeansByNameEnd(ps, name, if m < |ps0| then m else |ps|);
    }
  }

  /** The product of a name key stays the first of that name. */
  lemma NamesakeIsLater(ps0: seq<Product>, rows: seq<OfferRow>, i: nat, ps: seq<Product>, t: seq<Touch>,
                        own: seq<nat>, k: nat, m: nat)
    requires Tracked(ps0, rows, i, ps, t, own)
    requires i < |rows| && Named(rows[i]) && RowEan(rows[i]).None? && NamesApart(ps0, rows)
    requires m < k < |ps| && t[k].Touched? && RowKey(rows[t[k].first]) == RowKey(rows[i])
    ensures ps[m].name != Strip(rows[i].name)
  {
    assert TouchOk(ps0, rows, i, ps[k], k, t[k]) && TouchOk(ps0, rows, i, ps[m], m, t[m]);
    if t[m].Touched? {
      OtherKeysOtherNames(ps0, rows, i, t[m].last, t[m].first, t[k].first);
    }
  }

  /** A row that last touched another product has another name than this row without an EAN. */
  lemma OtherKeysOtherNames(ps0: seq<Product>, rows: seq<OfferRow>, i: nat, last: nat, first: nat, mine: nat)
    requires i < |rows| && Named(rows[i]) && RowEan(rows[i]).None? && NamesApart(ps0, rows)
    requires first <= last < i && mine < i && FirstOfKey(rows, first) && FirstOfKey(rows, mine) && first != mine
    requires Named(rows[last]) && RowKey(rows[last]) == RowKey(rows[first]) && RowKey(rows[mine]) == RowKey(rows[i])
    ensures Strip(rows[last].name) != Strip(rows[i].name)
  {
    assert FoundByName(ps0, rows, i);
    assert RowKey(rows[first]) != RowKey(rows[mine]);
  }

  lemma FoundByItsEan(ps: seq<Product>, row: OfferRow, k: nat)
    requires EanUnique(ps) && k < |ps| && RowEan(row).Some? && ps[k].ean == RowEan(row)
    ensures Lookup(ps, row) == k
  {
    forall m | 0 <= m < k ensures ps[m].ean != RowEan(row) {
      assert ps[m].ean != ps[k].ean;
    }
    NoEanMeansByEanEnd(ps, RowEan(row).value, k);
  }

  /** The product that the earlier rows of the key were written to. */
  lemma OwnerOfKey(ps0: seq<Product>, rows: seq<OfferRow>, i: nat, ps: seq<Product>, t: seq<Touch>, own: seq<nat>)
    returns (k: nat)
    requires Tracked(ps0, rows, i, ps, t, own)
    requires i < |rows| && Named(rows[i]) && !FirstOfKey(rows, i)
    ensures k < |ps| && Owns(rows, i, t, k)
    ensures RowEan(rows[i]).Some? ==> ps[k].ean == RowEan(rows[i])
    ensures RowEan(rows[i]).None? ==> ps[k].name == Strip(rows[i].name)
  {
    var j :| 0 <= j < i && Named(rows[j]) && RowKey(rows[j]) == RowKey(rows[i]);
    k := own[j];
    assert Owns(rows, j, t, k);
    assert TouchOk(ps0, rows, i, ps[k], k, t[k]);
  }

  /** A row whose key was used before finds the product of that key. */
  lemma RepeatFindsTheSame(ps0: seq<Product>, rows: seq<OfferRow>, i: nat, ps: seq<Product>, t: seq<Touch>,
                           own: seq<nat>)
    requires Tracked(ps0, rows, i, ps, t, own)
    requires i < |rows| && Named(rows[i]) && !FirstOfKey(rows, i) && NamesApart(ps0, rows)
    requires EanUnique(ps)
    ensures Lookup(ps, rows[i]) < |ps| && Owns(rows, i, t, Lookup(ps, rows[i]))
  {
    var k := OwnerOfKey(ps0, rows, i, ps, t, own);
    if RowEan(rows[i]).Some? {
      FoundByItsEan(ps, rows[i], k);
    } else {
      forall m | 0 <= m < k ensures ps[m].name != Strip(rows[i].name) {
        NamesakeIsLater(ps0, rows, i, ps, t, own, k, m);
      }
      NoNameMeansByNameEnd(ps, Strip(rows[i].name), k);
    }
  }

  // ---- One row ----

  /** The products table after a named row. */
  function Upserted(ps: seq<Product>, next: nat, row: OfferRow, selling: Option<real>,
                    retail: Option<real>): seq<Product> {
    var k := Lookup(ps, row);
    if k < |ps| then ps[k := Updated(ps[k], Strip(row.name), RowEan(row), row.upt, selling, retail)]
    else ps + [Created(next, Strip(row.name), RowEan(row), row.upt, selling, retail)]
  }

  /** The updated tracking after row `i` wrote product `k`. */
  function Touching(t: seq<Touch>, k: nat, i: nat): seq<Touch> {
    if k >= |t| then t + [Touched(i, i)]
    else if t[k].Touched? then t[k := Touched(t[k].first, i)]
    else t[k := Touched(i, i)]
  }

  lemma TouchLasts(ps0: seq<Product>, rows: seq<OfferRow>, i: nat, p: Product, k: nat, t: Touch)
    requires i < |rows| && TouchOk(ps0, rows, i, p, k, t)
    ensures TouchOk(ps0, rows, i + 1, p, k, t)
  {
  }

  /** The products table with product `k` written, be it an old one or the next. */
  function WithProduct(ps: seq<Product>, k: nat, p: Product): seq<Product>
    requires k <= |ps|
  {
    if k < |ps| then ps[k := p] else ps + [p]
  }

  predicate Touchable(rows: seq<OfferRow>, i: nat, t: seq<Touch>, k: nat) {
    && i < |rows| && k <= |t|
    && (k < |t| && t[k].Touched? ==> t[k].first < |rows| && RowKey(rows[t[k].first]) == RowKey(rows[i]))
  }

  lemma OtherTouchesStay(ps0: seq<Product>, rows: seq<OfferRow>, i: nat, ps: seq<Product>, t: seq<Touch>,
                         k: nat, p: Product)
    requires i < |rows| && |t| == |ps| && k <= |ps|
    requires forall m | 0 <= m < |ps| :: TouchOk(ps0, rows, i, ps[m], m, t[m])
    requires TouchOk(ps0, rows, i + 1, p, k, Touching(t, k, i)[k])
    ensures var ps', t' := WithProduct(ps, k, p), Touching(t, k, i);
      |t'| == |ps'| && forall m | 0 <= m < |ps'| :: TouchOk(ps0, rows, i + 1, ps'[m], m, t'[m])
  {
    var ps', t' := WithProduct(ps, k, p), Touching(t, k, i);
    forall m | 0 <= m < |ps'| ensures TouchOk(ps0, rows, i + 1, ps'[m], m, t'[m]) {
      if m != k {
        TouchLasts(ps0, rows, i, ps[m], m, t[m]);
      }
    }
  }

  lemma OwnersStay(rows: seq<OfferRow>, i: nat, t: seq<Touch>, own: seq<nat>, k: nat)
    requires Touchable(rows, i, t, k) && |own| == i
    requires forall j | 0 <= j < i && Named(rows[j]) :: Owns(rows, j, t, own[j])
    ensures var t', own' := Touching(t, k, i), own + [k];
      forall j | 0 <= j < i + 1 && Named(rows[j]) :: Owns(rows, j, t', own'[j])
  {
    var t', own' := Touching(t, k, i), own + [k];
    forall j | 0 <= j < i + 1 && Named(rows[j]) ensures Owns(rows, j, t', own'[j]) {
      if j < i {
        assert Owns(rows, j, t, own[j]);
      }
    }
  }

  lemma TouchedRowsStay(t: seq<Touch>, own: seq<nat>, k: nat)
    requires k <= |t| && forall m | 0 <= m < |t| :: OwnedByItsRows(t[m], own, m)
    ensures var t', own' := Touching(t, k, |own|), own + [k];
      forall m | 0 <= m < |t'| :: OwnedByItsRows(t'[m], own', m)
  {
    var t', own' := Touching(t, k, |own|), own + [k];
    forall m | 0 <= m < |t'| ensures OwnedByItsRows(t'[m], own', m) {
      if m < |t| {
        assert OwnedByItsRows(t[m], own, m);
      }
    }
  }

  /** Writing product `k` leaves every other product, and every other owner, as it was. */
  lemma OthersStayTracked(ps0: seq<Product>, rows: seq<OfferRow>, i: nat, ps: seq<Product>, t: seq<Touch>,
                          own: seq<nat>, k: nat, p: Product)
    requires Tracked(ps0, rows, i, ps, t, own) && Touchable(rows, i, t, k)
    requires TouchOk(ps0, rows, i + 1, p, k, Touching(t, k, i)[k])
    ensures Tracked(ps0, rows, i + 1, WithProduct(ps, k, p), Touching(t, k, i), own + [k])
  {
    OtherTouchesStay(ps0, rows, i, ps, t, k, p);
    OwnersStay(rows, i, t, own, k);
    TouchedRowsStay(t, own, k);
  }

  lemma UpsertWritesOne(ps: seq<Product>, next: nat, row: OfferRow, selling: Option<real>, retail: Option<real>)
    ensures var k, ps' := Lookup(ps, row), Upserted(ps, next, row, selling, retail);
      k < |ps'| && ps' == WithProduct(ps, k, ps'[k])
  {
  }

  /** What the first row of a key writes. */
  lemma FirstTouchOk(ps0: seq<Product>, rows: seq<OfferRow>, i: nat, ps: seq<Product>, next: nat,
                     selling: Option<real>, retail: Option<real>)
    requires i < |rows| && FirstOfKey(rows, i) && |ps0| <= |ps|
    requires var m, k := Lookup(ps0, rows[i]), Lookup(ps, rows[i]);
      if m < |ps0| then k == m && ps[k] == ps0[k] else k == |ps|
    ensures var k, ps' := Lookup(ps, rows[i]), Upserted(ps, next, rows[i], selling, retail);
      k < |ps'| && TouchOk(ps0, rows, i + 1, ps'[k], k, Touched(i, i))
  {
  }

  lemma FirstRowTracked(ps0: seq<Product>, rows: seq<OfferRow>, i: nat, ps: seq<Product>, t: seq<Touch>,
                        own: seq<nat>, next: nat, selling: Option<real>, retail: Option<real>)
    requires Tracked(ps0, rows, i, ps, t, own)
    requires i < |rows| && FirstOfKey(rows, i) && NamesApart(ps0, rows) && DistinctMatches(ps0, rows)
    ensures var k := Lookup(ps, rows[i]);
      Tracked(ps0, rows, i + 1, Upserted(ps, next, rows[i], selling, retail), Touching(t, k, i), own + [k])
  {
    FirstRowFindsTheSame(ps0, rows, i, ps, t, own);
    var k := Lookup(ps, rows[i]);
    UpsertWritesOne(ps, next, rows[i], selling, retail);
    FirstTouchOk(ps0, rows, i, ps, next, selling, retail);
    OthersStayTracked(ps0, rows, i, ps, t, own, k, Upserted(ps, next, rows[i], selling, retail)[k]);
  }

  /** What a later row of the key writes. */
  lemma RepeatTouchOk(ps0: seq<Product>, rows: seq<OfferRow>, i: nat, ps: seq<Product>, k: nat, first: nat, last: nat,
                      next: nat, selling: Option<real>, retail: Option<real>)
    requires i < |rows| && Named(rows[i]) && k < |ps| && Lookup(ps, rows[i]) == k
    requires TouchOk(ps0, rows, i, ps[k], k, Touched(first, last)) && RowKey(rows[first]) == RowKey(rows[i])
    ensures TouchOk(ps0, rows, i + 1, Upserted(ps, next, rows[i], selling, retail)[k], k, Touched(first, i))
  {
  }

  lemma RepeatTracked(ps0: seq<Product>, rows: seq<OfferRow>, i: nat, ps: seq<Product>, t: seq<Touch>,
                      own: seq<nat>, next: nat, selling: Option<real>, retail: Option<real>)
    requires Tracked(ps0, rows, i, ps, t, own)
    requires i < |rows| && Named(rows[i]) && !FirstOfKey(rows, i) && NamesApart(ps0, rows)
    requires EanUnique(ps)
    ensures var k := Lookup(ps, rows[i]);
      Tracked(ps0, rows, i + 1, Upserted(ps, next, rows[i], selling, retail), Touching(t, k, i), own + [k])
  {
    RepeatFindsTheSame(ps0, rows, i, ps, t, own);
    var k := Lookup(ps, rows[i]);
    assert TouchOk(ps0, rows, i, ps[k], k, t[k]);
    UpsertWritesOne(ps, next, rows[i], selling, retail);
    RepeatTouchOk(ps0, rows, i, ps, k, t[k].first, t[k].last, next, selling, retail);
    OthersStayTracked(ps0, rows, i, ps, t, own, k, Upserted(ps, next, rows[i], selling, retail)[k]);
  }

  lemma UnnamedTracked(ps0: seq<Product>, rows: seq<OfferRow>, i: nat, ps: seq<Product>, t: seq<Touch>, own: seq<nat>)
    requires Tracked(ps0, rows, i, ps, t, own)
    requires i < |rows| && !Named(rows[i])
    ensures Tracked(ps0, rows, i + 1, ps, t, own + [0])
  {
    forall m | 0 <= m < |ps| ensures TouchOk(ps0, rows, i + 1, ps[m], m, t[m]) {
      TouchLasts(ps0, rows, i, ps[m], m, t[m]);
    }
    forall j | 0 <= j < i + 1 && Named(rows[j]) ensures Owns(rows, j, t, (own + [0])[j]) {
      assert Owns(rows, j, t, own[j]);
    }
    forall m | 0 <= m < |t| ensures OwnedByItsRows(t[m], own + [0], m) {
      assert OwnedByItsRows(t[m], own, m);
    }
  }

  // ---- The whole batch ----

  /** A row's EAN warnings never reach its prices. */
  lemma PricesIgnoreEanWarnings(row: OfferRow, eans: set<string>, seen: Seen, settings: Settings)
    ensures HandleRow(row, eans, seen, settings).costed == HandleRow(row, {}, seen, settings).costed
  {
  }

  /** What a row writes next to the product it sees. */
  function RowPrices(row: OfferRow, seen: Seen, settings: Settings): RowResult {
    HandleRow(row, {}, seen, settings)
  }

  lemma RowWritesUpserted(s: RunState, row: OfferRow, settings: Settings, batch: Batch)
    requires Named(row)
    ensures var r := RowPrices(row, SeenAt(s.db.products, Lookup(s.db.products, row)), settings);
      RealRow(s, row, settings, batch).db.products
      == Upserted(s.db.products, s.db.nextProduct, row, SellingOf(r), RetailOf(r))
  {
    var seen := SeenAt(s.db.products, Lookup(s.db.products, row));
    PricesIgnoreEanWarnings(row, s.eans, seen, settings);
    StripIdempotent(row.name);
  }

  lemma {:induction false} RealRowsKeepValid(s: RunState, rows: seq<OfferRow>, settings: Settings, batch: Batch)
    requires Valid(s.db) && HasOffer(s.db.offers, batch.id)
    ensures var s' := RealRows(s, rows, settings, batch);
      Valid(s'.db) && s'.db.offers == s.db.offers && s'.db.nextOffer == s.db.nextOffer
  {
    if rows != [] {
      var n := |rows| - 1;
      RealRowsKeepValid(s, rows[..n], settings, batch);
      var before := RealRows(s, rows[..n], settings, batch);
      if Named(rows[n]) {
        WriteRowKeepsValid(before.db, rows[n], RealResult(before, rows[n], settings), batch);
      }
    }
  }

  lemma TrackWrite(ps0: seq<Product>, rows: seq<OfferRow>, i: nat, ps: seq<Product>, t: seq<Touch>, own: seq<nat>,
                   next: nat, selling: Option<real>, retail: Option<real>)
    requires Tracked(ps0, rows, i, ps, t, own)
    requires i < |rows| && Named(rows[i]) && NamesApart(ps0, rows) && DistinctMatches(ps0, rows)
    requires EanUnique(ps)
    ensures var k := Lookup(ps, rows[i]);
      Tracked(ps0, rows, i + 1, Upserted(ps, next, rows[i], selling, retail), Touching(t, k, i), own + [k])
  {
    if FirstOfKey(rows, i) {
      FirstRowTracked(ps0, rows, i, ps, t, own, next, selling, retail);
    } else {
      RepeatTracked(ps0, rows, i, ps, t, own, next, selling, retail);
    }
  }

  function NextTouches(ps: seq<Product>, row: OfferRow, t: seq<Touch>, i: nat): seq<Touch> {
    if Named(row) then Touching(t, Lookup(ps, row), i) else t
  }

  function NextOwners(ps: seq<Product>, row: OfferRow, own: seq<nat>): seq<nat> {
    own + [if Named(row) then Lookup(ps, row) else 0]
  }

  lemma TrackRow(ps0: seq<Product>, rows: seq<OfferRow>, i: nat, s: RunState, t: seq<Touch>, own: seq<nat>,
                 settings: Settings, batch: Batch)
    requires Tracked(ps0, rows, i, s.db.products, t, own)
    requires i < |rows| && NamesApart(ps0, rows) && DistinctMatches(ps0, rows)
    requires EanUnique(s.db.products)
    ensures Tracked(ps0, rows, i + 1, RealRow(s, rows[i], settings, batch).db.products,
                    NextTouches(s.db.products, rows[i], t, i), NextOwners(s.db.products, rows[i], own))
  {
    var ps, row := s.db.products, rows[i];
    if Named(row) {
      RowWritesUpserted(s, row, settings, batch);
      var r := RowPrices(row, SeenAt(ps, Lookup(ps, row)), settings);
      TrackWrite(ps0, rows, i, ps, t, own, s.db.nextProduct, SellingOf(r), RetailOf(r));
    } else {
      UnnamedTracked(ps0, rows, i, ps, t, own);
    }
  }

  /** The tracking of a whole run. */
  function Touches(s: RunState, rows: seq<OfferRow>, settings: Settings, batch: Batch): seq<Touch> {
    if rows == [] then seq(|s.db.products|, _ => Untouched)
    else
      var n := |rows| - 1;
      NextTouches(RealRows(s, rows[..n], settings, batch).db.products, rows[n],
                  Touches(s, rows[..n], settings, batch), n)
  }

  function Owners(s: RunState, rows: seq<OfferRow>, settings: Settings, batch: Batch): seq<nat> {
    if rows == [] then []
    else
      var n := |rows| - 1;
      NextOwners(RealRows(s, rows[..n], settings, batch).db.products, rows[n], Owners(s, rows[..n], settings, batch))
  }

  /** A run over one row more. */
  lemma OneMoreRow(s: RunState, rows: seq<OfferRow>, n: nat, settings: Settings, batch: Batch)
    requires n < |rows|
    ensures var before := RealRows(s, rows[..n], settings, batch);
      var ps := before.db.products;
      && RealRows(s, rows[..n + 1], settings, batch) == RealRow(before, rows[n], settings, batch)
      && Touches(s, rows[..n + 1], settings, batch)
         == NextTouches(ps, rows[n], Touches(s, rows[..n], settings, batch), n)
      && Owners(s, rows[..n + 1], settings, batch) == NextOwners(ps, rows[n], Owners(s, rows[..n], settings, batch))
  {
    assert rows[..n + 1][..n] == rows[..n];
  }

  /** After any prefix of a batch, every product is untouched or was written only by rows of one
      key, starting from what that key matched before the batch. */
  lemma {:induction false} TrackBatch(s: RunState, rows: seq<OfferRow>, i: nat, settings: Settings, batch: Batch)
    requires Valid(s.db) && HasOffer(s.db.offers, batch.id)
    requires i <= |rows| && NamesApart(s.db.products, rows) && DistinctMatches(s.db.products, rows)
    ensures Tracked(s.db.products, rows, i, RealRows(s, rows[..i], settings, batch).db.products,
                    Touches(s, rows[..i], settings, batch), Owners(s, rows[..i], settings, batch))
  {
    if i > 0 {
      var n := i - 1;
      TrackBatch(s, rows, n, settings, batch);
      OneMoreRow(s, rows, n, settings, batch);
      var before := RealRows(s, rows[..n], settings, batch);
      RealRowsKeepValid(s, rows[..n], settings, batch);
      TrackRow(s.db.products, rows, n, before, Touches(s, rows[..n], settings, batch),
               Owners(s, rows[..n], settings, batch), settings, batch);
    }
  }
}
