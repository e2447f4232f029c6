/** A scan killed at any points, also between the two commits of a file, and then rerun, gives the same
    invoices and line items as one that was never interrupted, under a condition on the folder and the ledger. */
module CrashRestart {
  import opened Common
  import opened ScanSpec
  import opened ScanLaws

  /** Killed after `files` files; `midCommit` when the next one's invoice was already committed. */
  datatype Kill = Kill(files: nat, midCommit: bool)

  function KilledScan(s: State, pdfs: seq<Pdf>, world: World, kill: Kill): State {
    var k := if kill.files <= |pdfs| then kill.files else |pdfs|;
    var s1 := Scan(s, pdfs[..k], world).state;
    if kill.midCommit && k < |pdfs| then CommitOnly(s1, pdfs[k], world) else s1
  }

  /** Any number of killed scans, one after the other. */
  function KilledScans(s: State, pdfs: seq<Pdf>, world: World, kills: seq<Kill>): State {
    if kills == [] then s
    else KilledScan(KilledScans(s, pdfs, world, kills[..|kills| - 1]), pdfs, world, kills[|kills| - 1])
  }

  /** One complete scan after the kills leaves the same invoices and line items, in the same order, as
      a scan that was never interrupted. */
  predicate Converges(s0: State, pdfs: seq<Pdf>, world: World, kills: seq<Kill>) {
    Scan(KilledScans(s0, pdfs, world, kills), pdfs, world).state.docs == Scan(s0, pdfs, world).state.docs
  }

  // ---- Hypotheses ----

  predicate SameTarget(a: Pdf, b: Pdf) {
    SupplierHint(a) == SupplierHint(b) && a.name == b.name
  }

  /** A file in a supplier's folder has later copies under the same supplier and filename only. */
  predicate CopiesAgree(pdfs: seq<Pdf>) {
    forall i, j | 0 <= i < j < |pdfs| && pdfs[i].sha == pdfs[j].sha && SupplierHint(pdfs[i]).Some? ::
      SameTarget(pdfs[i], pdfs[j])
  }

  predicate IngestedAs(l: Ledger, path: string, sha: string) {
    path in l && l[path].sha == sha && l[path].result == Ingested
  }

  /** The ledger still has `a` as ingested with contents that it no longer has and `b` does. */
  predicate StaleCopy(l: Ledger, a: Pdf, b: Pdf) {
    IngestedAs(l, a.path, b.sha) && l[a.path].mtime != a.mtime
  }

  /** Scanned between `i` and `j`, `k` can be stored while `i` is down; on the rerun `i` is then dropped, as a
      namesake of `k` or as a copy of it, and with it the old ledger entry of `i` that held back `j`. */
  predicate Forgets(i: Pdf, k: Pdf, j: Pdf) {
    && k.sha != j.sha && i.sha != j.sha
    && if SupplierHint(i).Some? then
         && k.sha != i.sha && k.name == i.name && (SupplierHint(k).None? || SupplierHint(k) == SupplierHint(i))
         && !SameTarget(i, j)
       else
         k.sha == i.sha && CfgName(k) != CfgName(i) && !SameTarget(k, j)
  }

  /** No old ledger entry that holds back a later file can be forgotten before that file. */
  predicate NothingForgotten(pdfs: seq<Pdf>, l: Ledger) {
    forall i, k, j {:trigger Forgets(pdfs[i], pdfs[k], pdfs[j])} | 0 <= i < k < j < |pdfs| ::
      StaleCopy(l, pdfs[i], pdfs[j]) ==> !Forgets(pdfs[i], pdfs[k], pdfs[j])
  }

  predicate CrashSafe(s0: State, pdfs: seq<Pdf>) {
    DistinctPaths(pdfs) && Deduplicated(s0) && CopiesAgree(pdfs) && NothingForgotten(pdfs, s0.ledger)
  }

  // ---- The relation to an uninterrupted scan ----

  predicate SameEntry(l: Ledger, m: Ledger, path: string) {
    (path in l <==> path in m) && (path in l ==> l[path] == m[path])
  }

  /** Handling the file again cannot store anything. */
  predicate Harmless(l: Ledger, pdf: Pdf, world: World) {
    Settled(l, pdf) || world.extract(pdf.sha, CfgName(pdf)).Failed?
  }

  /** Every changed entry is that of a folder file, and of its present version. */
  predicate EntriesTraced(l: Ledger, l0: Ledger, pdfs: seq<Pdf>) {
    && (forall p | p in l && !SameEntry(l, l0, p) ::
          exists j :: 0 <= j < |pdfs| && pdfs[j].path == p && pdfs[j].mtime == l[p].mtime)
    && (forall p | p in l0 :: p in l)
  }

  /** Reading the file fails with a connectivity error. */
  predicate Unreachable(world: World, pdf: Pdf) {
    var r := world.extract(pdf.sha, CfgName(pdf));
    r.Failed? && Transient(r.error)
  }

  /** What the ledger `l` has as ingested, `u` has as ingested with the same bytes. */
  predicate Backed(l: Ledger, u: Ledger, path: string) {
    path in l && l[path].result == Ingested ==> IngestedAs(u, path, l[path].sha)
  }

  /** If `a`'s entry makes `b` a copy in `u`, it does so in `l`, or `b` is dropped by its name. */
  predicate MarkKept(l: Ledger, u: Ledger, docs: seq<Doc>, a: Pdf, b: Pdf) {
    IngestedAs(u, a.path, b.sha) ==> IngestedAs(l, a.path, b.sha) || NameTaken(docs, b)
  }

  function Uninterrupted(s0: State, pdfs: seq<Pdf>, world: World, m: nat): State
    requires m <= |pdfs|
  {
    Scan(s0, pdfs[..m], world).state
  }

  /** A state reached by killed scans that got through `m` files; when `ahead`, the next one is stored
      but not yet in the ledger. */
  predicate Reached(s0: State, pdfs: seq<Pdf>, world: World, s: State, m: nat, ahead: bool) {
    && m <= |pdfs| && (ahead ==> m < |pdfs|)
    && s.docs == Uninterrupted(s0, pdfs, world, if ahead then m + 1 else m).docs
    && EntriesTraced(s.ledger, s0.ledger, pdfs)
    && (forall j | 0 <= j < m :: Harmless(s.ledger, pdfs[j], world))
    && (forall j | m <= j < |pdfs| :: SameEntry(s.ledger, s0.ledger, pdfs[j].path))
    && (forall a | 0 <= a < m :: Backed(s.ledger, Uninterrupted(s0, pdfs, world, m).ledger, pdfs[a].path))
    && (forall a, b {:trigger pdfs[a], pdfs[b]} | 0 <= a < m <= b < |pdfs| ::
          MarkKept(s.ledger, Uninterrupted(s0, pdfs, world, m).ledger, s.docs, pdfs[a], pdfs[b]))
    && (ahead ==> ScanFile(Uninterrupted(s0, pdfs, world, m), pdfs[m], world).tally == TIngested)
  }

  /** What file `i` needs of the ledgers `l` and `u` to be dropped as a copy in both or in neither. */
  predicate Comparable(s0: State, pdfs: seq<Pdf>, l: Ledger, u: Ledger, docs: seq<Doc>, i: nat)
    requires i < |pdfs|
  {
    && EntriesTraced(l, s0.ledger, pdfs) && EntriesTraced(u, s0.ledger, pdfs)
    && (forall j | i <= j < |pdfs| ::
          SameEntry(l, s0.ledger, pdfs[j].path) && SameEntry(u, s0.ledger, pdfs[j].path))
    && (forall a | 0 <= a < i :: Backed(l, u, pdfs[a].path) && MarkKept(l, u, docs, pdfs[a], pdfs[i]))
  }

  lemma MarksAlike(s0: State, pdfs: seq<Pdf>, l: Ledger, u: Ledger, docs: seq<Doc>, i: nat, p: string)
    requires i < |pdfs| && Comparable(s0, pdfs, l, u, docs, i) && p != pdfs[i].path
    ensures IngestedAs(l, p, pdfs[i].sha) ==> IngestedAs(u, p, pdfs[i].sha)
    ensures IngestedAs(u, p, pdfs[i].sha) ==> IngestedAs(l, p, pdfs[i].sha) || NameTaken(docs, pdfs[i])
  {
    if a: nat :| a < |pdfs| && pdfs[a].path == p {
      if a < i {
        assert Backed(l, u, pdfs[a].path) && MarkKept(l, u, docs, pdfs[a], pdfs[i]);
      } else {
        assert SameEntry(l, s0.ledger, pdfs[a].path) && SameEntry(u, s0.ledger, pdfs[a].path);
      }
    } else {
      assert p in l ==> SameEntry(l, s0.ledger, p);
      assert p in u ==> SameEntry(u, s0.ledger, p);
    }
  }

  /** Dropped as a copy after the kills, then uninterrupted too; and conversely, or dropped by its name. */
  lemma SameBytesVerdict(s0: State, pdfs: seq<Pdf>, l: Ledger, u: Ledger, docs: seq<Doc>, i: nat)
    requires i < |pdfs| && Comparable(s0, pdfs, l, u, docs, i)
    ensures ShaIngested(l, pdfs[i].sha, pdfs[i].path) ==> ShaIngested(u, pdfs[i].sha, pdfs[i].path)
    ensures ShaIngested(u, pdfs[i].sha, pdfs[i].path)
      ==> ShaIngested(l, pdfs[i].sha, pdfs[i].path) || NameTaken(docs, pdfs[i])
  {
    if ShaIngested(l, pdfs[i].sha, pdfs[i].path) {
      var p :| p in l && p != pdfs[i].path && l[p].sha == pdfs[i].sha && l[p].result == Ingested;
      MarksAlike(s0, pdfs, l, u, docs, i, p);
    }
    if ShaIngested(u, pdfs[i].sha, pdfs[i].path) {
      var p :| p in u && p != pdfs[i].path && u[p].sha == pdfs[i].sha && u[p].result == Ingested;
      MarksAlike(s0, pdfs, l, u, docs, i, p);
    }
  }

  // ---- One file ----

  lemma OutcomeStep(s: State, pdf: Pdf, p: Processed)
    ensures var l, l' := s.ledger, RecordOutcome(s, pdf, p).state.ledger;
      l' == l || (pdf.path in l' && l' == l[pdf.path := l'[pdf.path]] && l'[pdf.path].mtime == pdf.mtime)
  {
  }

  lemma LedgerStep(s: State, pdf: Pdf, world: World)
    ensures var l, l' := s.ledger, ScanFile(s, pdf, world).state.ledger;
      l' == l || (pdf.path in l' && l' == l[pdf.path := l'[pdf.path]] && l'[pdf.path].mtime == pdf.mtime)
  {
    if !Settled(s.ledger, pdf) && !ShaIngested(s.ledger, pdf.sha, pdf.path) && !NameTaken(s.docs, pdf) {
      OutcomeStep(s, pdf, ProcessPdf(s.docs, pdf, world));
    }
  }

  lemma WriteStaysTraced(l: Ledger, l': Ledger, l0: Ledger, pdfs: seq<Pdf>, i: nat)
    requires i < |pdfs| && EntriesTraced(l, l0, pdfs) && pdfs[i].path in l'
    requires l' == l[pdfs[i].path := l'[pdfs[i].path]] && l'[pdfs[i].path].mtime == pdfs[i].mtime
    ensures EntriesTraced(l', l0, pdfs)
  {
    forall p | p in l' && !SameEntry(l', l0, p)
      ensures exists j :: 0 <= j < |pdfs| && pdfs[j].path == p && pdfs[j].mtime == l'[p].mtime
    {
      if p != pdfs[i].path {
        assert !SameEntry(l, l0, p);
      }
    }
  }

  lemma FileStaysTraced(s0: State, pdfs: seq<Pdf>, world: World, s: State, i: nat)
    requires i < |pdfs| && EntriesTraced(s.ledger, s0.ledger, pdfs)
    ensures EntriesTraced(ScanFile(s, pdfs[i], world).state.ledger, s0.ledger, pdfs)
  {
    var l, l' := s.ledger, ScanFile(s, pdfs[i], world).state.ledger;
    LedgerStep(s, pdfs[i], world);
    if l' != l {
      WriteStaysTraced(l, l', s0.ledger, pdfs, i);
    }
  }

  /** Redoing a harmless file stores nothing and leaves it harmless. */
  lemma RedoHarmless(s: State, pdf: Pdf, world: World)
    requires Harmless(s.ledger, pdf, world)
    ensures var step := ScanFile(s, pdf, world);
      step.state.docs == s.docs && step.tally != TIngested && Harmless(step.state.ledger, pdf, world)
  {
  }

  lemma PathNamesOneFile(pdfs: seq<Pdf>, i: nat, k: nat)
    requires DistinctPaths(pdfs) && i < |pdfs| && k < |pdfs|
    ensures pdfs[i].path == pdfs[k].path <==> i == k
  {
    if i < k {
      assert pdfs[i].path != pdfs[k].path;
    } else if k < i {
      assert pdfs[k].path != pdfs[i].path;
    }
  }

  lemma TracedEntry(pdfs: seq<Pdf>, l: Ledger, l0: Ledger, i: nat)
    requires DistinctPaths(pdfs) && i < |pdfs| && EntriesTraced(l, l0, pdfs) && pdfs[i].path in l
    ensures SameEntry(l, l0, pdfs[i].path) || l[pdfs[i].path].mtime == pdfs[i].mtime
  {
    if !SameEntry(l, l0, pdfs[i].path) {
      var k: nat :| k < |pdfs| && pdfs[k].path == pdfs[i].path && pdfs[k].mtime == l[pdfs[i].path].mtime;
      PathNamesOneFile(pdfs, i, k);
    }
  }

  lemma RedoWritesNoIngested(s: State, pdf: Pdf, world: World)
    requires Harmless(s.ledger, pdf, world)
    ensures var l' := ScanFile(s, pdf, world).state.ledger;
      l' == s.ledger || (!Settled(s.ledger, pdf) && pdf.path in l' && l'[pdf.path].result != Ingested)
  {
  }

  lemma {:induction false} OthersTwice(docs: seq<Doc>, supplier: string, filename: string)
    ensures Others(Others(docs, supplier, filename), supplier, filename) == Others(docs, supplier, filename)
  {
    if docs != [] {
      var n := |docs| - 1;
      OthersTwice(docs[..n], supplier, filename);
      var kept := Others(docs[..n], supplier, filename);
      assert (kept + [docs[n]])[..|kept|] == kept;
    }
  }

  /** Storing the same document twice in a row is storing it once. */
  lemma InsertTwice(docs: seq<Doc>, d: Doc)
    ensures InsertDoc(InsertDoc(docs, d), d) == InsertDoc(docs, d)
  {
    OthersTwice(docs, d.supplier, d.filename);
    var kept := Others(docs, d.supplier, d.filename);
    assert (kept + [d])[..|kept|] == kept;
  }

  /** Once stored, a document never makes itself a duplicate by number. */
  lemma StoredNumberIsOwn(docs: seq<Doc>, d: Doc)
    requires DocsApart(docs) && !NumberTaken(docs, d)
    ensures !NumberTaken(InsertDoc(docs, d), d)
  {
    InsertStaysApart(docs, d);
    var all := InsertDoc(docs, d);
    if HasNumber(d) {
      FirstNumberIsTheOnlyOne(all, d, |all| - 1);
    }
  }

  lemma StoredNameIsTaken(docs: seq<Doc>, d: Doc)
    ensures HasName(InsertDoc(docs, d), d.supplier, d.filename)
  {
    var all := InsertDoc(docs, d);
    assert all[|all| - 1] == d;
  }

  /** A filename once taken stays taken. */
  lemma NamesStayTaken(s: State, pdf: Pdf, world: World, b: Pdf)
    requires NameTaken(s.docs, b)
    ensures NameTaken(ScanFile(s, pdf, world).state.docs, b)
  {
    if ScanFile(s, pdf, world).tally == TIngested {
      var d := ProcessPdf(s.docs, pdf, world).doc;
      var supplier, all := SupplierHint(b).value, InsertDoc(s.docs, d);
      if d.supplier == supplier && d.filename == b.name {
        StoredNameIsTaken(s.docs, d);
      } else {
        OthersFilters(s.docs, d.supplier, d.filename);
        var i :| 0 <= i < |s.docs| && s.docs[i].supplier == supplier && s.docs[i].filename == b.name;
        assert s.docs[i] in all;
      }
    }
  }

  /** Redoing a file whose invoice was committed without its ledger entry leaves the invoices as they
      are: by filename when the supplier is known from the folder, by replacing the row otherwise. */
  lemma RedoAhead(u: State, s: State, pdf: Pdf, world: World)
    requires DocsApart(u.docs) && ScanFile(u, pdf, world).tally == TIngested
    requires s.docs == ScanFile(u, pdf, world).state.docs
    requires SameEntry(s.ledger, u.ledger, pdf.path)
    requires ShaIngested(s.ledger, pdf.sha, pdf.path) ==> ShaIngested(u.ledger, pdf.sha, pdf.path)
    ensures var a := ScanFile(s, pdf, world).state;
      && a.docs == s.docs && Harmless(a.ledger, pdf, world)
      && (SupplierHint(pdf).Some? ==>
            NameTaken(s.docs, pdf) && pdf.path in a.ledger && a.ledger[pdf.path].result == Duplicate)
      && (SupplierHint(pdf).None? ==> a.ledger == Ledgered(s.ledger, pdf, Ingested, "", 0))
  {
    var d := ProcessPdf(u.docs, pdf, world).doc;
    InsertTwice(u.docs, d);
    StoredNumberIsOwn(u.docs, d);
    StoredNameIsTaken(u.docs, d);
  }

  /** What the redone file's entry says, also of a later copy. */
  lemma RedoAheadMarks(u: State, s: State, pdf: Pdf, b: Pdf, world: World)
    requires DocsApart(u.docs) && ScanFile(u, pdf, world).tally == TIngested
    requires s.docs == ScanFile(u, pdf, world).state.docs
    requires SameEntry(s.ledger, u.ledger, pdf.path)
    requires ShaIngested(s.ledger, pdf.sha, pdf.path) ==> ShaIngested(u.ledger, pdf.sha, pdf.path)
    requires pdf.sha == b.sha && SupplierHint(pdf).Some? ==> SameTarget(pdf, b)
    ensures var a := ScanFile(s, pdf, world).state;
      MarkKept(a.ledger, ScanFile(u, pdf, world).state.ledger, a.docs, pdf, b)
  {
    RedoAhead(u, s, pdf, world);
  }

  lemma RedoAheadIsBacked(u: State, s: State, pdf: Pdf, world: World)
    requires DocsApart(u.docs) && ScanFile(u, pdf, world).tally == TIngested
    requires s.docs == ScanFile(u, pdf, world).state.docs
    requires SameEntry(s.ledger, u.ledger, pdf.path)
    requires ShaIngested(s.ledger, pdf.sha, pdf.path) ==> ShaIngested(u.ledger, pdf.sha, pdf.path)
    ensures Backed(ScanFile(s, pdf, world).state.ledger, ScanFile(u, pdf, world).state.ledger, pdf.path)
  {
    RedoAhead(u, s, pdf, world);
  }

  /** A file not reached before is handled as in the uninterrupted scan. */
  lemma FirstTimeAlike(u: State, s: State, pdf: Pdf, world: World)
    requires s.docs == u.docs && SameEntry(s.ledger, u.ledger, pdf.path)
    requires ShaIngested(s.ledger, pdf.sha, pdf.path) ==> ShaIngested(u.ledger, pdf.sha, pdf.path)
    requires ShaIngested(u.ledger, pdf.sha, pdf.path)
      ==> ShaIngested(s.ledger, pdf.sha, pdf.path) || NameTaken(u.docs, pdf)
    ensures var a, b := ScanFile(s, pdf, world), ScanFile(u, pdf, world);
      && a.state.docs == b.state.docs && a.tally == b.tally && Harmless(a.state.ledger, pdf, world)
  {
  }

  lemma OutcomeAlike(u: State, s: State, pdf: Pdf, p: Processed)
    requires SameEntry(s.ledger, u.ledger, pdf.path)
    ensures SameEntry(RecordOutcome(s, pdf, p).state.ledger, RecordOutcome(u, pdf, p).state.ledger, pdf.path)
  {
  }

  /** Its entry is that of the uninterrupted scan, or both say duplicate. */
  lemma FirstTimeMarks(u: State, s: State, pdf: Pdf, world: World, sha: string)
    requires s.docs == u.docs && SameEntry(s.ledger, u.ledger, pdf.path)
    requires ShaIngested(s.ledger, pdf.sha, pdf.path) ==> ShaIngested(u.ledger, pdf.sha, pdf.path)
    requires ShaIngested(u.ledger, pdf.sha, pdf.path)
      ==> ShaIngested(s.ledger, pdf.sha, pdf.path) || NameTaken(u.docs, pdf)
    ensures IngestedAs(ScanFile(s, pdf, world).state.ledger, pdf.path, sha)
      <==> IngestedAs(ScanFile(u, pdf, world).state.ledger, pdf.path, sha)
  {
    OutcomeAlike(u, s, pdf, ProcessPdf(u.docs, pdf, world));
  }

  lemma FirstTimeIsBacked(u: State, s: State, pdf: Pdf, world: World)
    requires s.docs == u.docs && SameEntry(s.ledger, u.ledger, pdf.path)
    requires ShaIngested(s.ledger, pdf.sha, pdf.path) ==> ShaIngested(u.ledger, pdf.sha, pdf.path)
    requires ShaIngested(u.ledger, pdf.sha, pdf.path)
      ==> ShaIngested(s.ledger, pdf.sha, pdf.path) || NameTaken(u.docs, pdf)
    ensures Backed(ScanFile(s, pdf, world).state.ledger, ScanFile(u, pdf, world).state.ledger, pdf.path)
  {
    var l := ScanFile(s, pdf, world).state.ledger;
    if pdf.path in l {
      FirstTimeMarks(u, s, pdf, world, l[pdf.path].sha);
    }
  }

  // ---- Following a killed scan along the uninterrupted one ----

  lemma ScanStep(s: State, pdfs: seq<Pdf>, n: nat, world: World)
    requires n < |pdfs|
    ensures Scan(s, pdfs[..n + 1], world).state == ScanFile(Scan(s, pdfs[..n], world).state, pdfs[n], world).state
  {
    assert pdfs[..n + 1][..n] == pdfs[..n];
  }

  lemma UninterruptedStep(s0: State, pdfs: seq<Pdf>, world: World, m: nat)
    requires m < |pdfs|
    ensures Uninterrupted(s0, pdfs, world, m + 1) == ScanFile(Uninterrupted(s0, pdfs, world, m), pdfs[m], world).state
  {
    ScanStep(s0, pdfs, m, world);
  }

  /** Facts common to the cases of a step. */
  predicate Ready(s0: State, pdfs: seq<Pdf>, world: World, s: State, m: nat, ahead: bool, i: nat) {
    CrashSafe(s0, pdfs) && Reached(s0, pdfs, world, s, m, ahead) && i < |pdfs| && i <= m
  }

  /** Handling file `i` leaves what is known of every other file as it was. */
  lemma OtherFilesAsBefore(s0: State, pdfs: seq<Pdf>, world: World, s: State, i: nat, j: nat)
    requires DistinctPaths(pdfs) && i < |pdfs| && j < |pdfs| && i != j
    ensures SameEntry(ScanFile(s, pdfs[i], world).state.ledger, s.ledger, pdfs[j].path)
  {
    assert pdfs[i].path != pdfs[j].path by {
      if i < j { assert pdfs[i].path != pdfs[j].path; } else { assert pdfs[j].path != pdfs[i].path; }
    }
    OtherFilesKeepTheirEntries(s, pdfs[i], world, pdfs[j].path);
  }

  lemma {:induction false} UninterruptedEntries(s0: State, pdfs: seq<Pdf>, world: World, m: nat)
    requires DistinctPaths(pdfs) && m <= |pdfs|
    ensures var l := Uninterrupted(s0, pdfs, world, m).ledger;
      && EntriesTraced(l, s0.ledger, pdfs)
      && forall j | m <= j < |pdfs| :: SameEntry(l, s0.ledger, pdfs[j].path)
  {
    if m > 0 {
      var n := m - 1;
      UninterruptedEntries(s0, pdfs, world, n);
      UninterruptedStep(s0, pdfs, world, n);
      var u := Uninterrupted(s0, pdfs, world, n);
      FileStaysTraced(s0, pdfs, world, u, n);
      forall j | m <= j < |pdfs| ensures SameEntry(Uninterrupted(s0, pdfs, world, m).ledger, s0.ledger, pdfs[j].path) {
        OtherFilesAsBefore(s0, pdfs, world, u, n, j);
      }
    } else {
      assert pdfs[..0] == [];
    }
  }

  lemma UninterruptedFacts(s0: State, pdfs: seq<Pdf>, world: World, m: nat)
    requires DistinctPaths(pdfs) && Deduplicated(s0) && m <= |pdfs|
    ensures var u := Uninterrupted(s0, pdfs, world, m);
      && DocsApart(u.docs)
      && EntriesTraced(u.ledger, s0.ledger, pdfs)
      && forall j | m <= j < |pdfs| :: SameEntry(u.ledger, s0.ledger, pdfs[j].path)
  {
    UninterruptedEntries(s0, pdfs, world, m);
    ScanStaysDeduplicated(s0, pdfs[..m], world);
  }

  lemma VerdictAtFrontier(s0: State, pdfs: seq<Pdf>, world: World, s: State, m: nat, ahead: bool)
    requires Ready(s0, pdfs, world, s, m, ahead, m)
    ensures var u, pdf := Uninterrupted(s0, pdfs, world, m), pdfs[m];
      && DocsApart(u.docs) && SameEntry(s.ledger, u.ledger, pdf.path)
      && (ShaIngested(s.ledger, pdf.sha, pdf.path) ==> ShaIngested(u.ledger, pdf.sha, pdf.path))
      && (ShaIngested(u.ledger, pdf.sha, pdf.path)
          ==> ShaIngested(s.ledger, pdf.sha, pdf.path) || NameTaken(s.docs, pdf))
  {
    UninterruptedFacts(s0, pdfs, world, m);
    var u := Uninterrupted(s0, pdfs, world, m);
    forall a | 0 <= a < m ensures MarkKept(s.ledger, u.ledger, s.docs, pdfs[a], pdfs[m]) {
    }
    SameBytesVerdict(s0, pdfs, s.ledger, u.ledger, s.docs, m);
    assert SameEntry(s.ledger, s0.ledger, pdfs[m].path) && SameEntry(u.ledger, s0.ledger, pdfs[m].path);
  }

  /** What handling the next file does to the documents, to the file itself and to its copies. */
  lemma FrontierStep(s0: State, pdfs: seq<Pdf>, world: World, s: State, m: nat, ahead: bool)
    requires Ready(s0, pdfs, world, s, m, ahead, m)
    ensures var step, u := ScanFile(s, pdfs[m], world).state, Uninterrupted(s0, pdfs, world, m + 1);
      && step.docs == u.docs && Harmless(step.ledger, pdfs[m], world)
      && Backed(step.ledger, u.ledger, pdfs[m].path)
  {
    VerdictAtFrontier(s0, pdfs, world, s, m, ahead);
    UninterruptedStep(s0, pdfs, world, m);
    var u := Uninterrupted(s0, pdfs, world, m);
    if ahead {
      RedoAhead(u, s, pdfs[m], world);
      RedoAheadIsBacked(u, s, pdfs[m], world);
    } else {
      FirstTimeAlike(u, s, pdfs[m], world);
      FirstTimeIsBacked(u, s, pdfs[m], world);
    }
  }

  lemma FrontierMarks(s0: State, pdfs: seq<Pdf>, world: World, s: State, m: nat, ahead: bool, b: nat)
    requires Ready(s0, pdfs, world, s, m, ahead, m) && m < b < |pdfs|
    ensures var step, u := ScanFile(s, pdfs[m], world).state, Uninterrupted(s0, pdfs, world, m + 1);
      MarkKept(step.ledger, u.ledger, step.docs, pdfs[m], pdfs[b])
  {
    VerdictAtFrontier(s0, pdfs, world, s, m, ahead);
    UninterruptedStep(s0, pdfs, world, m);
    var u := Uninterrupted(s0, pdfs, world, m);
    if ahead {
      RedoAheadMarks(u, s, pdfs[m], pdfs[b], world);
    } else {
      FirstTimeMarks(u, s, pdfs[m], world, pdfs[b].sha);
    }
  }

  /** What the entry of file `a` says, also of the copy `b`, survives a step on another file. */
  lemma MarkSurvives(s0: State, pdfs: seq<Pdf>, world: World, s: State, m: nat, ahead: bool, i: nat, a: nat, b: nat)
    requires Ready(s0, pdfs, world, s, m, ahead, i) && a < m <= b < |pdfs| && a != i
    ensures var step, m' := ScanFile(s, pdfs[i], world).state, if i == m then m + 1 else m;
      MarkKept(step.ledger, Uninterrupted(s0, pdfs, world, m').ledger, step.docs, pdfs[a], pdfs[b])
  {
    assert MarkKept(s.ledger, Uninterrupted(s0, pdfs, world, m).ledger, s.docs, pdfs[a], pdfs[b]);
    OtherFilesAsBefore(s0, pdfs, world, s, i, a);
    if i == m {
      UninterruptedStep(s0, pdfs, world, m);
      OtherFilesAsBefore(s0, pdfs, world, Uninterrupted(s0, pdfs, world, m), m, a);
    }
    if NameTaken(s.docs, pdfs[b]) {
      NamesStayTaken(s, pdfs[i], world, pdfs[b]);
    }
  }

  lemma BackingSurvives(s0: State, pdfs: seq<Pdf>, world: World, s: State, m: nat, ahead: bool, i: nat, a: nat)
    requires Ready(s0, pdfs, world, s, m, ahead, i) && a < m && a != i
    ensures var l, m' := ScanFile(s, pdfs[i], world).state.ledger, if i == m then m + 1 else m;
      Backed(l, Uninterrupted(s0, pdfs, world, m').ledger, pdfs[a].path)
  {
    assert Backed(s.ledger, Uninterrupted(s0, pdfs, world, m).ledger, pdfs[a].path);
    OtherFilesAsBefore(s0, pdfs, world, s, i, a);
    if i == m {
      UninterruptedStep(s0, pdfs, world, m);
      OtherFilesAsBefore(s0, pdfs, world, Uninterrupted(s0, pdfs, world, m), m, a);
    }
  }

  // ---- A mark lost on a redo is not missed ----

  lemma {:induction false} EntryStays(s0: State, pdfs: seq<Pdf>, world: World, i: nat, k: nat)
    requires DistinctPaths(pdfs) && i < k <= |pdfs|
    ensures SameEntry(Uninterrupted(s0, pdfs, world, k).ledger, Uninterrupted(s0, pdfs, world, i + 1).ledger,
                      pdfs[i].path)
  {
    if i + 1 < k {
      EntryStays(s0, pdfs, world, i, k - 1);
      UninterruptedStep(s0, pdfs, world, k - 1);
      OtherFilesAsBefore(s0, pdfs, world, Uninterrupted(s0, pdfs, world, k - 1), k - 1, i);
    }
  }

  /** A file that cannot be read leaves an ingested entry only by not being handled at all. */
  lemma UnreadableStep(u: State, pdf: Pdf, world: World, sha: string)
    requires !Settled(u.ledger, pdf) && world.extract(pdf.sha, CfgName(pdf)).Failed?
    requires IngestedAs(ScanFile(u, pdf, world).state.ledger, pdf.path, sha)
    ensures ScanFile(u, pdf, world).state == u
    ensures !ShaIngested(u.ledger, pdf.sha, pdf.path) && !NameTaken(u.docs, pdf)
  {
  }

  /** File `i` cannot be read, and still has its old entry after `m` files of the uninterrupted scan. */
  predicate Stale(s0: State, pdfs: seq<Pdf>, world: World, i: nat, m: nat, sha: string) {
    && DistinctPaths(pdfs) && Deduplicated(s0) && i < m <= |pdfs|
    && world.extract(pdfs[i].sha, CfgName(pdfs[i])).Failed? && !Settled(s0.ledger, pdfs[i])
    && IngestedAs(Uninterrupted(s0, pdfs, world, m).ledger, pdfs[i].path, sha)
  }

  lemma StaleFromTheStart(s0: State, pdfs: seq<Pdf>, world: World, i: nat, m: nat, sha: string)
    requires Stale(s0, pdfs, world, i, m, sha)
    ensures var u := Uninterrupted(s0, pdfs, world, i);
      && Uninterrupted(s0, pdfs, world, i + 1) == u && IngestedAs(s0.ledger, pdfs[i].path, sha)
      && !ShaIngested(u.ledger, pdfs[i].sha, pdfs[i].path) && !NameTaken(u.docs, pdfs[i])
  {
    var u := Uninterrupted(s0, pdfs, world, i);
    UninterruptedFacts(s0, pdfs, world, i);
    assert SameEntry(u.ledger, s0.ledger, pdfs[i].path);
    EntryStays(s0, pdfs, world, i, m);
    UninterruptedStep(s0, pdfs, world, i);
    UnreadableStep(u, pdfs[i], world, sha);
  }

  lemma StaleThroughout(s0: State, pdfs: seq<Pdf>, world: World, i: nat, m: nat, sha: string, k: nat)
    requires Stale(s0, pdfs, world, i, m, sha) && i <= k <= m
    ensures IngestedAs(Uninterrupted(s0, pdfs, world, k).ledger, pdfs[i].path, sha)
  {
    StaleFromTheStart(s0, pdfs, world, i, m, sha);
    EntryStays(s0, pdfs, world, i, m);
    if i < k {
      EntryStays(s0, pdfs, world, i, k);
    }
  }

  /** File `k` is stored by the uninterrupted scan. */
  predicate StoredAt(s0: State, pdfs: seq<Pdf>, world: World, k: nat) {
    k < |pdfs| && ScanFile(Uninterrupted(s0, pdfs, world, k), pdfs[k], world).tally == TIngested
  }

  /** The document that file `k` becomes. */
  function DocAt(s0: State, pdfs: seq<Pdf>, world: World, k: nat): Doc
    requires StoredAt(s0, pdfs, world, k)
  {
    ProcessPdf(Uninterrupted(s0, pdfs, world, k).docs, pdfs[k], world).doc
  }

  lemma NameOfInserted(docs: seq<Doc>, d: Doc, supplier: string, filename: string)
    requires HasName(InsertDoc(docs, d), supplier, filename)
    ensures HasName(docs, supplier, filename) || (d.supplier == supplier && d.filename == filename)
  {
    var kept := Others(docs, d.supplier, d.filename);
    OthersFilters(docs, d.supplier, d.filename);
    var i :| 0 <= i < |kept + [d]| && (kept + [d])[i].supplier == supplier && (kept + [d])[i].filename == filename;
    if i < |kept| {
      assert kept[i] in docs;
      var j :| 0 <= j < |docs| && docs[j] == kept[i];
    }
  }

  lemma NameArrivesByStep(s: State, pdf: Pdf, world: World, b: Pdf)
    requires !NameTaken(s.docs, b) && NameTaken(ScanFile(s, pdf, world).state.docs, b)
    ensures ScanFile(s, pdf, world).tally == TIngested
    ensures var d := ProcessPdf(s.docs, pdf, world).doc; SupplierHint(b) == Some(d.supplier) && d.filename == b.name
  {
    NameOfInserted(s.docs, ProcessPdf(s.docs, pdf, world).doc, SupplierHint(b).value, b.name);
  }

  /** A name that was free and is taken was taken by a stored file. */
  lemma {:induction false} NameArrives(s0: State, pdfs: seq<Pdf>, world: World, i: nat, m: nat, b: Pdf) returns (k: nat)
    requires i < m <= |pdfs|
    requires !NameTaken(Uninterrupted(s0, pdfs, world, i).docs, b)
    requires NameTaken(Uninterrupted(s0, pdfs, world, m).docs, b)
    ensures i <= k < m && StoredAt(s0, pdfs, world, k)
    ensures SupplierHint(b) == Some(DocAt(s0, pdfs, world, k).supplier) && pdfs[k].name == b.name
    decreases m - i
  {
    var next := i + 1;
    if next == m || NameTaken(Uninterrupted(s0, pdfs, world, next).docs, b) {
      k := i;
      StoredUnderTheName(s0, pdfs, world, k, b);
    } else {
      k := NameArrives(s0, pdfs, world, next, m, b);
    }
  }

  lemma StoredUnderTheName(s0: State, pdfs: seq<Pdf>, world: World, k: nat, b: Pdf)
    requires k < |pdfs|
    requires !NameTaken(Uninterrupted(s0, pdfs, world, k).docs, b)
    requires NameTaken(Uninterrupted(s0, pdfs, world, k + 1).docs, b)
    ensures StoredAt(s0, pdfs, world, k)
    ensures SupplierHint(b) == Some(DocAt(s0, pdfs, world, k).supplier) && pdfs[k].name == b.name
  {
    UninterruptedStep(s0, pdfs, world, k);
    NameArrivesByStep(Uninterrupted(s0, pdfs, world, k), pdfs[k], world, b);
    StoredDoc(Uninterrupted(s0, pdfs, world, k), pdfs[k], world);
  }

  lemma MarkArrivesByStep(s: State, pdf: Pdf, world: World, path: string, sha: string)
    requires !IngestedAs(s.ledger, path, sha) && IngestedAs(ScanFile(s, pdf, world).state.ledger, path, sha)
    ensures ScanFile(s, pdf, world).tally == TIngested && pdf.sha == sha
  {
    OutcomeMark(s, pdf, ProcessPdf(s.docs, pdf, world), path, sha);
  }

  lemma OutcomeMark(s: State, pdf: Pdf, p: Processed, path: string, sha: string)
    requires !IngestedAs(s.ledger, path, sha)
    ensures IngestedAs(RecordOutcome(s, pdf, p).state.ledger, path, sha) ==> p.Stored? && pdf.sha == sha
  {
  }

  lemma StoredWithTheBytes(s0: State, pdfs: seq<Pdf>, world: World, k: nat, path: string, sha: string)
    requires k < |pdfs|
    requires !IngestedAs(Uninterrupted(s0, pdfs, world, k).ledger, path, sha)
    requires IngestedAs(Uninterrupted(s0, pdfs, world, k + 1).ledger, path, sha)
    ensures StoredAt(s0, pdfs, world, k) && pdfs[k].sha == sha
  {
    UninterruptedStep(s0, pdfs, world, k);
    MarkArrivesByStep(Uninterrupted(s0, pdfs, world, k), pdfs[k], world, path, sha);
  }

  /** An ingested entry that was not there was written for a stored file. */
  lemma {:induction false} MarkArrives(s0: State, pdfs: seq<Pdf>, world: World, i: nat, m: nat, path: string,
                                       sha: string)
    returns (k: nat)
    requires i < m <= |pdfs|
    requires !IngestedAs(Uninterrupted(s0, pdfs, world, i).ledger, path, sha)
    requires IngestedAs(Uninterrupted(s0, pdfs, world, m).ledger, path, sha)
    ensures i <= k < m && StoredAt(s0, pdfs, world, k) && pdfs[k].sha == sha
    decreases m - i
  {
    var next := i + 1;
    if next == m || IngestedAs(Uninterrupted(s0, pdfs, world, next).ledger, path, sha) {
      k := i;
      StoredWithTheBytes(s0, pdfs, world, k, path, sha);
    } else {
      k := MarkArrives(s0, pdfs, world, next, m, path, sha);
    }
  }

  lemma StoredDoc(s: State, pdf: Pdf, world: World)
    requires ScanFile(s, pdf, world).tally == TIngested
    ensures world.extract(pdf.sha, CfgName(pdf)).Extracted? && !ShaIngested(s.ledger, pdf.sha, pdf.path)
    ensures var d := ProcessPdf(s.docs, pdf, world).doc;
      d.filename == pdf.name && (SupplierHint(pdf).Some? ==> SupplierHint(pdf) == Some(d.supplier))
  {
  }

  /** A stored file is no copy of what an old entry holds, and can be read. */
  lemma StoredBesideStale(s0: State, pdfs: seq<Pdf>, world: World, i: nat, m: nat, sha: string, k: nat)
    requires Stale(s0, pdfs, world, i, m, sha) && i <= k <= m && StoredAt(s0, pdfs, world, k)
    ensures i < k && pdfs[k].sha != sha && world.extract(pdfs[k].sha, CfgName(pdfs[k])).Extracted?
    ensures var d := DocAt(s0, pdfs, world, k);
      d.filename == pdfs[k].name && (SupplierHint(pdfs[k]).Some? ==> SupplierHint(pdfs[k]) == Some(d.supplier))
  {
    StoredDoc(Uninterrupted(s0, pdfs, world, k), pdfs[k], world);
    StaleThroughout(s0, pdfs, world, i, m, sha, k);
    if i < k {
      PathNamesOneFile(pdfs, i, k);
    }
  }

  /** Under one supplier's configuration the same bytes are not read once and failed once. */
  lemma ReadsDiffer(pdfs: seq<Pdf>, world: World, i: nat, k: nat)
    requires CopiesAgree(pdfs) && i < k < |pdfs| && SupplierHint(pdfs[i]).Some?
    requires world.extract(pdfs[i].sha, CfgName(pdfs[i])).Failed?
    requires world.extract(pdfs[k].sha, CfgName(pdfs[k])).Extracted?
    ensures pdfs[i].sha != pdfs[k].sha
  {
  }

  /** The file was dropped by a name that `k` took: the later copy is dropped by that name too. */
  lemma LostByName(s0: State, pdfs: seq<Pdf>, world: World, i: nat, m: nat, k: nat, b: nat)
    requires CrashSafe(s0, pdfs) && m <= b < |pdfs| && Stale(s0, pdfs, world, i, m, pdfs[b].sha)
    requires i <= k <= m && StoredAt(s0, pdfs, world, k) && pdfs[k].name == pdfs[i].name
    requires SupplierHint(pdfs[i]) == Some(DocAt(s0, pdfs, world, k).supplier)
    ensures SameTarget(pdfs[i], pdfs[b])
  {
    StoredBesideStale(s0, pdfs, world, i, m, pdfs[b].sha, k);
    StaleIsStaleCopy(s0, pdfs, world, i, m, b);
    ReadsDiffer(pdfs, world, i, k);
    NamesakeAgrees(s0, pdfs, i, k, b);
  }

  lemma NamesakeAgrees(s0: State, pdfs: seq<Pdf>, i: nat, k: nat, b: nat)
    requires CopiesAgree(pdfs) && NothingForgotten(pdfs, s0.ledger) && i < k < b < |pdfs|
    requires StaleCopy(s0.ledger, pdfs[i], pdfs[b]) && pdfs[k].sha != pdfs[b].sha
    requires SupplierHint(pdfs[i]).Some? && pdfs[k].sha != pdfs[i].sha && pdfs[k].name == pdfs[i].name
    requires SupplierHint(pdfs[k]).None? || SupplierHint(pdfs[k]) == SupplierHint(pdfs[i])
    ensures SameTarget(pdfs[i], pdfs[b])
  {
    assert !Forgets(pdfs[i], pdfs[k], pdfs[b]);
  }

  lemma CopyAgrees(s0: State, pdfs: seq<Pdf>, i: nat, k: nat, b: nat)
    requires NothingForgotten(pdfs, s0.ledger) && i < k < b < |pdfs|
    requires StaleCopy(s0.ledger, pdfs[i], pdfs[b]) && pdfs[k].sha != pdfs[b].sha
    requires SupplierHint(pdfs[i]).None? && pdfs[k].sha == pdfs[i].sha && CfgName(pdfs[k]) != CfgName(pdfs[i])
    ensures SameTarget(pdfs[k], pdfs[b])
  {
    assert !Forgets(pdfs[i], pdfs[k], pdfs[b]);
  }

  lemma StaleIsStaleCopy(s0: State, pdfs: seq<Pdf>, world: World, i: nat, m: nat, b: nat)
    requires b < |pdfs| && Stale(s0, pdfs, world, i, m, pdfs[b].sha)
    ensures StaleCopy(s0.ledger, pdfs[i], pdfs[b])
  {
    StaleFromTheStart(s0, pdfs, world, i, m, pdfs[b].sha);
  }

  /** The file was dropped as a copy of `k`: the later copy is dropped by the name of `k`. */
  lemma LostByBytes(s0: State, pdfs: seq<Pdf>, world: World, i: nat, m: nat, k: nat, b: nat)
    requires CrashSafe(s0, pdfs) && m <= b < |pdfs| && Stale(s0, pdfs, world, i, m, pdfs[b].sha)
    requires i <= k < m && StoredAt(s0, pdfs, world, k) && pdfs[k].sha == pdfs[i].sha
    ensures SameTarget(pdfs[k], pdfs[b])
    ensures SupplierHint(pdfs[k]) == Some(DocAt(s0, pdfs, world, k).supplier)
  {
    StoredBesideStale(s0, pdfs, world, i, m, pdfs[b].sha, k);
    StaleIsStaleCopy(s0, pdfs, world, i, m, b);
    if SupplierHint(pdfs[i]).Some? {
      ReadsDiffer(pdfs, world, i, k);
    }
    CopyAgrees(s0, pdfs, i, k, b);
  }

  lemma {:induction false} NamesStayTakenFrom(s0: State, pdfs: seq<Pdf>, world: World, k: nat, m: nat, b: Pdf)
    requires k <= m <= |pdfs| && NameTaken(Uninterrupted(s0, pdfs, world, k).docs, b)
    ensures NameTaken(Uninterrupted(s0, pdfs, world, m).docs, b)
    decreases m - k
  {
    if k < m {
      UninterruptedStep(s0, pdfs, world, k);
      NamesStayTaken(Uninterrupted(s0, pdfs, world, k), pdfs[k], world, b);
      NamesStayTakenFrom(s0, pdfs, world, k + 1, m, b);
    }
  }

  lemma StoredTakesItsName(s0: State, pdfs: seq<Pdf>, world: World, k: nat, b: Pdf)
    requires StoredAt(s0, pdfs, world, k)
    requires SupplierHint(b) == Some(DocAt(s0, pdfs, world, k).supplier) && pdfs[k].name == b.name
    ensures NameTaken(Uninterrupted(s0, pdfs, world, k + 1).docs, b)
  {
    UninterruptedStep(s0, pdfs, world, k);
    StoredNameIsTaken(Uninterrupted(s0, pdfs, world, k).docs, DocAt(s0, pdfs, world, k));
  }

  /** Whatever the killed ledger has as ingested, the uninterrupted one has too. */
  lemma IngestedIsBacked(s0: State, pdfs: seq<Pdf>, world: World, s: State, m: nat, ahead: bool, path: string)
    requires DistinctPaths(pdfs) && Deduplicated(s0) && Reached(s0, pdfs, world, s, m, ahead)
    ensures Backed(s.ledger, Uninterrupted(s0, pdfs, world, m).ledger, path)
  {
    UninterruptedFacts(s0, pdfs, world, m);
    var l, u := s.ledger, Uninterrupted(s0, pdfs, world, m).ledger;
    if a: nat :| a < |pdfs| && pdfs[a].path == path {
      if a < m {
        assert Backed(l, u, pdfs[a].path);
      } else {
        assert SameEntry(l, s0.ledger, pdfs[a].path) && SameEntry(u, s0.ledger, pdfs[a].path);
      }
    } else {
      assert path in l ==> SameEntry(l, s0.ledger, path);
      assert path in u ==> SameEntry(u, s0.ledger, path);
    }
  }

  lemma DroppedByName(s0: State, pdfs: seq<Pdf>, world: World, s: State, m: nat, ahead: bool, i: nat, b: nat)
    requires Ready(s0, pdfs, world, s, m, ahead, i) && i < m <= b < |pdfs|
    requires Stale(s0, pdfs, world, i, m, pdfs[b].sha) && NameTaken(s.docs, pdfs[i])
    ensures NameTaken(s.docs, pdfs[b])
  {
    StaleFromTheStart(s0, pdfs, world, i, m, pdfs[b].sha);
    var k := NameArrives(s0, pdfs, world, i, if ahead then m + 1 else m, pdfs[i]);
    LostByName(s0, pdfs, world, i, m, k, b);
  }

  /** The file whose bytes the rerun takes `i` to be a copy of. */
  lemma CopyArrives(s0: State, pdfs: seq<Pdf>, world: World, s: State, m: nat, ahead: bool, i: nat, sha: string)
    returns (k: nat)
    requires Ready(s0, pdfs, world, s, m, ahead, i) && Stale(s0, pdfs, world, i, m, sha)
    requires ShaIngested(s.ledger, pdfs[i].sha, pdfs[i].path)
    ensures i <= k < m && StoredAt(s0, pdfs, world, k) && pdfs[k].sha == pdfs[i].sha
  {
    var p :| p in s.ledger && p != pdfs[i].path && s.ledger[p].sha == pdfs[i].sha && s.ledger[p].result == Ingested;
    IngestedIsBacked(s0, pdfs, world, s, m, ahead, p);
    StaleFromTheStart(s0, pdfs, world, i, m, sha);
    k := MarkArrives(s0, pdfs, world, i, m, p, pdfs[i].sha);
  }

  lemma DroppedAsCopy(s0: State, pdfs: seq<Pdf>, world: World, s: State, m: nat, ahead: bool, i: nat, b: nat)
    requires Ready(s0, pdfs, world, s, m, ahead, i) && i < m <= b < |pdfs|
    requires Stale(s0, pdfs, world, i, m, pdfs[b].sha) && ShaIngested(s.ledger, pdfs[i].sha, pdfs[i].path)
    ensures NameTaken(s.docs, pdfs[b])
  {
    var k := CopyArrives(s0, pdfs, world, s, m, ahead, i, pdfs[b].sha);
    LostByBytes(s0, pdfs, world, i, m, k, b);
    StoredTakesItsName(s0, pdfs, world, k, pdfs[b]);
    NamesStayTakenFrom(s0, pdfs, world, k + 1, if ahead then m + 1 else m, pdfs[b]);
  }

  lemma UnreadableAndFree(s: State, pdf: Pdf, world: World)
    requires world.extract(pdf.sha, CfgName(pdf)).Failed? && !ShaIngested(s.ledger, pdf.sha, pdf.path)
    requires !Settled(s.ledger, pdf) && !NameTaken(s.docs, pdf)
    ensures ScanFile(s, pdf, world).state.ledger == s.ledger || !Unreachable(world, pdf)
  {
  }

  lemma OnlyUnreachableStays(s0: State, pdfs: seq<Pdf>, world: World, i: nat, m: nat, sha: string)
    requires Stale(s0, pdfs, world, i, m, sha)
    ensures Unreachable(world, pdfs[i])
  {
    StaleFromTheStart(s0, pdfs, world, i, m, sha);
    UninterruptedFacts(s0, pdfs, world, i);
    UninterruptedStep(s0, pdfs, world, i);
    UnreadableIsUnreachable(Uninterrupted(s0, pdfs, world, i), pdfs[i], world);
  }

  lemma UnreadableIsUnreachable(u: State, pdf: Pdf, world: World)
    requires !Settled(u.ledger, pdf) && world.extract(pdf.sha, CfgName(pdf)).Failed?
    requires !ShaIngested(u.ledger, pdf.sha, pdf.path) && !NameTaken(u.docs, pdf)
    requires pdf.path in u.ledger && u.ledger[pdf.path].result == Ingested && ScanFile(u, pdf, world).state == u
    ensures Unreachable(world, pdf)
  {
  }

  /** A step on an earlier file loses no mark that a later copy would miss. */
  lemma LostMark(s0: State, pdfs: seq<Pdf>, world: World, s: State, m: nat, ahead: bool, i: nat, b: nat)
    requires Ready(s0, pdfs, world, s, m, ahead, i) && i < m <= b < |pdfs|
    ensures var step := ScanFile(s, pdfs[i], world).state;
      MarkKept(step.ledger, Uninterrupted(s0, pdfs, world, m).ledger, step.docs, pdfs[i], pdfs[b])
  {
    var u := Uninterrupted(s0, pdfs, world, m).ledger;
    RedoHarmless(s, pdfs[i], world);
    RedoWritesNoIngested(s, pdfs[i], world);
    assert MarkKept(s.ledger, u, s.docs, pdfs[i], pdfs[b]);
    if IngestedAs(u, pdfs[i].path, pdfs[b].sha) && IngestedAs(s.ledger, pdfs[i].path, pdfs[b].sha)
       && !Settled(s.ledger, pdfs[i]) {
      TracedEntry(pdfs, s.ledger, s0.ledger, i);
      assert Stale(s0, pdfs, world, i, m, pdfs[b].sha);
      OnlyUnreachableStays(s0, pdfs, world, i, m, pdfs[b].sha);
      if NameTaken(s.docs, pdfs[i]) {
        DroppedByName(s0, pdfs, world, s, m, ahead, i, b);
      } else if ShaIngested(s.ledger, pdfs[i].sha, pdfs[i].path) {
        DroppedAsCopy(s0, pdfs, world, s, m, ahead, i, b);
      } else {
        UnreadableAndFree(s, pdfs[i], world);
      }
    }
  }

  lemma RedoIsBacked(s0: State, pdfs: seq<Pdf>, world: World, s: State, m: nat, ahead: bool, i: nat)
    requires Ready(s0, pdfs, world, s, m, ahead, i) && i < m
    ensures Backed(ScanFile(s, pdfs[i], world).state.ledger, Uninterrupted(s0, pdfs, world, m).ledger, pdfs[i].path)
  {
    RedoWritesNoIngested(s, pdfs[i], world);
    assert Backed(s.ledger, Uninterrupted(s0, pdfs, world, m).ledger, pdfs[i].path);
  }

  // ---- Steps, kills and runs ----

  lemma MarkAfterStep(s0: State, pdfs: seq<Pdf>, world: World, s: State, m: nat, ahead: bool, i: nat, a: nat, b: nat)
    requires Ready(s0, pdfs, world, s, m, ahead, i)
    requires var m' := if i == m then m + 1 else m; a < m' <= b < |pdfs|
    ensures var step, m' := ScanFile(s, pdfs[i], world).state, if i == m then m + 1 else m;
      MarkKept(step.ledger, Uninterrupted(s0, pdfs, world, m').ledger, step.docs, pdfs[a], pdfs[b])
  {
    if a != i {
      MarkSurvives(s0, pdfs, world, s, m, ahead, i, a, b);
    } else if i < m {
      LostMark(s0, pdfs, world, s, m, ahead, i, b);
    } else {
      FrontierMarks(s0, pdfs, world, s, m, ahead, b);
    }
  }

  lemma BackingAfterStep(s0: State, pdfs: seq<Pdf>, world: World, s: State, m: nat, ahead: bool, i: nat, a: nat)
    requires Ready(s0, pdfs, world, s, m, ahead, i) && a < if i == m then m + 1 else m
    ensures var l, m' := ScanFile(s, pdfs[i], world).state.ledger, if i == m then m + 1 else m;
      Backed(l, Uninterrupted(s0, pdfs, world, m').ledger, pdfs[a].path)
  {
    if a != i {
      BackingSurvives(s0, pdfs, world, s, m, ahead, i, a);
    } else if i < m {
      RedoIsBacked(s0, pdfs, world, s, m, ahead, i);
    } else {
      FrontierStep(s0, pdfs, world, s, m, ahead);
    }
  }

  lemma HarmlessByEntry(l: Ledger, l': Ledger, pdf: Pdf, world: World)
    requires SameEntry(l', l, pdf.path) && Harmless(l, pdf, world)
    ensures Harmless(l', pdf, world)
  {
  }

  /** The parts of `Reached` about entries, for the state `step` after a step on file `i`. */
  lemma EntriesAfterStep(s0: State, pdfs: seq<Pdf>, world: World, l: Ledger, l': Ledger, i: nat, m: nat, m': nat)
    requires m <= m' <= |pdfs| && (m' == m || (m' == m + 1 && i == m)) && i < m'
    requires forall j | 0 <= j < |pdfs| && j != i :: SameEntry(l', l, pdfs[j].path)
    requires forall j | 0 <= j < m :: Harmless(l, pdfs[j], world)
    requires forall j | m <= j < |pdfs| :: SameEntry(l, s0.ledger, pdfs[j].path)
    requires Harmless(l', pdfs[i], world)
    ensures forall j | 0 <= j < m' :: Harmless(l', pdfs[j], world)
    ensures forall j | m' <= j < |pdfs| :: SameEntry(l', s0.ledger, pdfs[j].path)
  {
    forall j | 0 <= j < m' ensures Harmless(l', pdfs[j], world) {
      if j != i {
        HarmlessByEntry(l, l', pdfs[j], world);
      }
    }
  }

  /** A step on the next file goes one further. */
  lemma FrontierReached(s0: State, pdfs: seq<Pdf>, world: World, s: State, m: nat, ahead: bool)
    requires Ready(s0, pdfs, world, s, m, ahead, m)
    ensures Reached(s0, pdfs, world, ScanFile(s, pdfs[m], world).state, m + 1, false)
  {
    var step := ScanFile(s, pdfs[m], world).state;
    FrontierStep(s0, pdfs, world, s, m, ahead);
    FileStaysTraced(s0, pdfs, world, s, m);
    forall j | 0 <= j < |pdfs| && j != m ensures SameEntry(step.ledger, s.ledger, pdfs[j].path) {
      OtherFilesAsBefore(s0, pdfs, world, s, m, j);
    }
    EntriesAfterStep(s0, pdfs, world, s.ledger, step.ledger, m, m, m + 1);
    forall a | 0 <= a < m + 1
      ensures Backed(step.ledger, Uninterrupted(s0, pdfs, world, m + 1).ledger, pdfs[a].path)
    {
      BackingAfterStep(s0, pdfs, world, s, m, ahead, m, a);
    }
    forall a, b | 0 <= a < m + 1 <= b < |pdfs|
      ensures MarkKept(step.ledger, Uninterrupted(s0, pdfs, world, m + 1).ledger, step.docs, pdfs[a], pdfs[b])
    {
      MarkAfterStep(s0, pdfs, world, s, m, ahead, m, a, b);
    }
  }

  /** A step on an earlier file stays. */
  lemma RedoReached(s0: State, pdfs: seq<Pdf>, world: World, s: State, m: nat, ahead: bool, i: nat)
    requires Ready(s0, pdfs, world, s, m, ahead, i) && i < m
    ensures Reached(s0, pdfs, world, ScanFile(s, pdfs[i], world).state, m, ahead)
  {
    var step := ScanFile(s, pdfs[i], world).state;
    RedoHarmless(s, pdfs[i], world);
    FileStaysTraced(s0, pdfs, world, s, i);
    forall j | 0 <= j < |pdfs| && j != i ensures SameEntry(step.ledger, s.ledger, pdfs[j].path) {
      OtherFilesAsBefore(s0, pdfs, world, s, i, j);
    }
    EntriesAfterStep(s0, pdfs, world, s.ledger, step.ledger, i, m, m);
    forall a | 0 <= a < m ensures Backed(step.ledger, Uninterrupted(s0, pdfs, world, m).ledger, pdfs[a].path) {
      BackingAfterStep(s0, pdfs, world, s, m, ahead, i, a);
    }
    forall a, b | 0 <= a < m <= b < |pdfs|
      ensures MarkKept(step.ledger, Uninterrupted(s0, pdfs, world, m).ledger, step.docs, pdfs[a], pdfs[b])
    {
      MarkAfterStep(s0, pdfs, world, s, m, ahead, i, a, b);
    }
  }

  lemma StepReached(s0: State, pdfs: seq<Pdf>, world: World, s: State, m: nat, ahead: bool, i: nat)
    requires Ready(s0, pdfs, world, s, m, ahead, i)
    ensures Reached(s0, pdfs, world, ScanFile(s, pdfs[i], world).state, if i == m then m + 1 else m, ahead && i < m)
  {
    if i == m {
      FrontierReached(s0, pdfs, world, s, m, ahead);
    } else {
      RedoReached(s0, pdfs, world, s, m, ahead, i);
    }
  }

  /** A kill between the commits of file `i` stores it, or changes nothing. */
  lemma CommitReached(s0: State, pdfs: seq<Pdf>, world: World, s: State, m: nat, ahead: bool, i: nat)
    returns (ahead': bool)
    requires Ready(s0, pdfs, world, s, m, ahead, i)
    ensures Reached(s0, pdfs, world, CommitOnly(s, pdfs[i], world), m, ahead')
  {
    ahead' := ahead;
    if i == m {
      FrontierStep(s0, pdfs, world, s, m, ahead);
      if !ahead && ScanFile(s, pdfs[i], world).tally == TIngested {
        ahead' := true;
        VerdictAtFrontier(s0, pdfs, world, s, m, ahead);
        var u := Uninterrupted(s0, pdfs, world, m);
        FirstTimeAlike(u, s, pdfs[m], world);
        CommitKeepsMarks(s0, pdfs, world, s, m);
      }
    } else {
      RedoHarmless(s, pdfs[i], world);
    }
  }

  lemma CommitKeepsMarks(s0: State, pdfs: seq<Pdf>, world: World, s: State, m: nat)
    requires Reached(s0, pdfs, world, s, m, false) && m < |pdfs|
    ensures var docs := ScanFile(s, pdfs[m], world).state.docs;
      forall a, b {:trigger pdfs[a], pdfs[b]} | 0 <= a < m <= b < |pdfs| ::
        MarkKept(s.ledger, Uninterrupted(s0, pdfs, world, m).ledger, docs, pdfs[a], pdfs[b])
  {
    var u, docs := Uninterrupted(s0, pdfs, world, m).ledger, ScanFile(s, pdfs[m], world).state.docs;
    forall a, b | 0 <= a < m <= b < |pdfs| ensures MarkKept(s.ledger, u, docs, pdfs[a], pdfs[b]) {
      assert MarkKept(s.ledger, u, s.docs, pdfs[a], pdfs[b]);
      if NameTaken(s.docs, pdfs[b]) {
        NamesStayTaken(s, pdfs[m], world, pdfs[b]);
      }
    }
  }

  lemma {:induction false} ScanReached(s0: State, pdfs: seq<Pdf>, world: World, s: State, m: nat, ahead: bool, k: nat)
    requires CrashSafe(s0, pdfs) && Reached(s0, pdfs, world, s, m, ahead)
    requires k <= |pdfs|
    ensures Reached(s0, pdfs, world, Scan(s, pdfs[..k], world).state, if k > m then k else m, ahead && k <= m)
  {
    if k == 0 {
      assert Scan(s, pdfs[..0], world).state == s;
    } else {
      var n := k - 1;
      ScanReached(s0, pdfs, world, s, m, ahead, n);
      ScanStep(s, pdfs, n, world);
      var before := Scan(s, pdfs[..n], world).state;
      var m1, ahead1 := if n > m then n else m, ahead && n <= m;
      StepReached(s0, pdfs, world, before, m1, ahead1, n);
      var m2, ahead2 := if n == m1 then m1 + 1 else m1, ahead1 && n < m1;
      assert Reached(s0, pdfs, world, Scan(s, pdfs[..k], world).state, m2, ahead2);
      assert m2 == (if k > m then k else m) && ahead2 == (ahead && k <= m);
    }
  }

  lemma KillReached(s0: State, pdfs: seq<Pdf>, world: World, s: State, m: nat, ahead: bool, kill: Kill)
    returns (m': nat, ahead': bool)
    requires CrashSafe(s0, pdfs) && Reached(s0, pdfs, world, s, m, ahead)
    ensures Reached(s0, pdfs, world, KilledScan(s, pdfs, world, kill), m', ahead')
  {
    var k := if kill.files <= |pdfs| then kill.files else |pdfs|;
    ScanReached(s0, pdfs, world, s, m, ahead, k);
    m', ahead' := if k > m then k else m, ahead && k <= m;
    if kill.midCommit && k < |pdfs| {
      ahead' := CommitReached(s0, pdfs, world, Scan(s, pdfs[..k], world).state, m', ahead', k);
    }
  }

  lemma {:induction false} KillsReached(s0: State, pdfs: seq<Pdf>, world: World, kills: seq<Kill>)
    returns (m: nat, ahead: bool)
    requires CrashSafe(s0, pdfs)
    ensures Reached(s0, pdfs, world, KilledScans(s0, pdfs, world, kills), m, ahead)
  {
    if kills == [] {
      m, ahead := 0, false;
    } else {
      var n := |kills| - 1;
      m, ahead := KillsReached(s0, pdfs, world, kills[..n]);
      m, ahead := KillReached(s0, pdfs, world, KilledScans(s0, pdfs, world, kills[..n]), m, ahead, kills[n]);
    }
  }

  /** MAIN RESULT. However often and wherever scans are killed, also between the invoice commit and
      the ledger commit of a file, one complete scan then leaves the same invoices and line items, in
      the same order, as a scan that was never interrupted. */
  lemma CrashRestartConverges(s0: State, pdfs: seq<Pdf>, world: World, kills: seq<Kill>)
    requires CrashSafe(s0, pdfs)
    ensures Converges(s0, pdfs, world, kills)
  {
    var m, ahead := KillsReached(s0, pdfs, world, kills);
    ScanReached(s0, pdfs, world, KilledScans(s0, pdfs, world, kills), m, ahead, |pdfs|);
    assert pdfs[..|pdfs|] == pdfs;
  }
}
