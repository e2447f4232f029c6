/** Where killed scans diverge from an uninterrupted one: the conditions of `CrashRestart` are exact. */
module CrashDivergence {
  import opened Common
  import opened ScanSpec
  import opened ScanLaws
  import opened CrashRestart
  import Slug

  // ---- Scans in which few files are active ----

  /** Every file outside `active` was dropped before. */
  function Background(pdfs: seq<Pdf>, active: set<nat>): Ledger {
    if pdfs == [] then map[]
    else
      var n := |pdfs| - 1;
      var l := Background(pdfs[..n], active);
      if n in active then l else l[pdfs[n].path := Entry(pdfs[n].mtime, "", Duplicate, "", 0)]
  }

  /** All files outside `active` are skipped. */
  predicate Idle(pdfs: seq<Pdf>, active: set<nat>, l: Ledger) {
    forall k: nat | k < |pdfs| && k !in active :: Settled(l, pdfs[k])
  }

  predicate InactiveFile(pdfs: seq<Pdf>, active: set<nat>, path: string) {
    exists k: nat :: k < |pdfs| && k !in active && pdfs[k].path == path
  }

  lemma {:induction false} BackgroundOfFolder(pdfs: seq<Pdf>, active: set<nat>, path: string)
    requires path in Background(pdfs, active)
    ensures Background(pdfs, active)[path].result == Duplicate && InactiveFile(pdfs, active, path)
  {
    var n := |pdfs| - 1;
    var l := Background(pdfs[..n], active);
    if path in l {
      BackgroundOfFolder(pdfs[..n], active, path);
      var k: nat :| k < n && k !in active && pdfs[..n][k].path == path;
      assert pdfs[k].path == path;
    } else {
      assert n !in active && pdfs[n].path == path;
    }
  }

  lemma {:induction false} BackgroundIsIdle(pdfs: seq<Pdf>, active: set<nat>)
    requires DistinctPaths(pdfs)
    ensures Idle(pdfs, active, Background(pdfs, active))
  {
    if pdfs != [] {
      var n := |pdfs| - 1;
      BackgroundIsIdle(pdfs[..n], active);
      forall k: nat | k < |pdfs| && k !in active ensures Settled(Background(pdfs, active), pdfs[k]) {
        if k < n {
          assert Settled(Background(pdfs[..n], active), pdfs[..n][k]);
        }
      }
    }
  }

  lemma ActiveIsNotInactive(pdfs: seq<Pdf>, active: set<nat>, a: nat)
    requires DistinctPaths(pdfs) && a < |pdfs| && a in active
    ensures !InactiveFile(pdfs, active, pdfs[a].path)
  {
    forall k: nat | k < |pdfs| && k !in active ensures pdfs[k].path != pdfs[a].path {
      PathNamesOneFile(pdfs, a, k);
    }
  }

  lemma BackgroundFacts(pdfs: seq<Pdf>, active: set<nat>)
    requires DistinctPaths(pdfs)
    ensures var l := Background(pdfs, active);
      && Idle(pdfs, active, l)
      && (forall p | p in l :: l[p].result == Duplicate)
      && (forall k: nat | k < |pdfs| && k in active :: pdfs[k].path !in l)
  {
    BackgroundIsIdle(pdfs, active);
    var l := Background(pdfs, active);
    forall p | p in l ensures l[p].result == Duplicate {
      BackgroundOfFolder(pdfs, active, p);
    }
    forall a: nat | a < |pdfs| && a in active ensures pdfs[a].path !in l {
      ActiveIsNotInactive(pdfs, active, a);
      if pdfs[a].path in l {
        BackgroundOfFolder(pdfs, active, pdfs[a].path);
      }
    }
  }

  lemma StaysIdle(pdfs: seq<Pdf>, active: set<nat>, s: State, i: nat, world: World)
    requires DistinctPaths(pdfs) && Idle(pdfs, active, s.ledger) && i in active && i < |pdfs|
    ensures Idle(pdfs, active, ScanFile(s, pdfs[i], world).state.ledger)
  {
    forall k: nat | k < |pdfs| && k !in active ensures Settled(ScanFile(s, pdfs[i], world).state.ledger, pdfs[k]) {
      OtherFilesAsBefore(s, pdfs, world, s, i, k);
    }
  }

  lemma SettledIsSkipped(s: State, pdf: Pdf, world: World)
    requires Settled(s.ledger, pdf)
    ensures ScanFile(s, pdf, world).state == s
  {
  }

  lemma SkipOne(s: State, pdfs: seq<Pdf>, active: set<nat>, world: World, n: nat)
    requires n < |pdfs| && n !in active && Idle(pdfs, active, Scan(s, pdfs[..n], world).state.ledger)
    ensures Scan(s, pdfs[..n + 1], world).state == Scan(s, pdfs[..n], world).state
  {
    ScanStep(s, pdfs, n, world);
    SettledIsSkipped(Scan(s, pdfs[..n], world).state, pdfs[n], world);
  }

  lemma {:induction false} SkipIdle(s: State, pdfs: seq<Pdf>, active: set<nat>, world: World, i: nat, n: nat)
    requires i <= n <= |pdfs| && Idle(pdfs, active, Scan(s, pdfs[..i], world).state.ledger)
    requires forall k: nat | i <= k < n :: k !in active
    ensures Scan(s, pdfs[..n], world).state == Scan(s, pdfs[..i], world).state
    decreases n - i
  {
    if i < n {
      SkipOne(s, pdfs, active, world, i);
      SkipIdle(s, pdfs, active, world, i + 1, n);
    }
  }

  /** From one active file to just before the next. */
  lemma ActiveStep(s: State, pdfs: seq<Pdf>, active: set<nat>, world: World, i: nat, n: nat)
    requires DistinctPaths(pdfs) && i < n <= |pdfs| && i in active
    requires Idle(pdfs, active, Scan(s, pdfs[..i], world).state.ledger)
    requires forall k: nat | i < k < n :: k !in active
    ensures Scan(s, pdfs[..n], world).state == ScanFile(Scan(s, pdfs[..i], world).state, pdfs[i], world).state
    ensures Idle(pdfs, active, Scan(s, pdfs[..n], world).state.ledger)
  {
    ScanStep(s, pdfs, i, world);
    StaysIdle(pdfs, active, Scan(s, pdfs[..i], world).state, i, world);
    SkipIdle(s, pdfs, active, world, i + 1, n);
  }

  /** A scan over an idle background handles the active files only. */
  lemma ScanTwo(s: State, pdfs: seq<Pdf>, active: set<nat>, world: World, i: nat, j: nat, n: nat)
    requires DistinctPaths(pdfs) && Idle(pdfs, active, s.ledger) && i < j < n <= |pdfs| && i in active && j in active
    requires forall k: nat | k < n && k in active :: k == i || k == j
    ensures Scan(s, pdfs[..i], world).state == s
    ensures Scan(s, pdfs[..n], world).state == ScanFile(ScanFile(s, pdfs[i], world).state, pdfs[j], world).state
    ensures Idle(pdfs, active, Scan(s, pdfs[..n], world).state.ledger)
  {
    assert pdfs[..0] == [];
    SkipIdle(s, pdfs, active, world, 0, i);
    ActiveStep(s, pdfs, active, world, i, j);
    ActiveStep(s, pdfs, active, world, j, n);
  }

  lemma ScanThree(s: State, pdfs: seq<Pdf>, active: set<nat>, world: World, i: nat, k: nat, j: nat)
    requires DistinctPaths(pdfs) && Idle(pdfs, active, s.ledger) && i < k < j < |pdfs| && active == {i, k, j}
    ensures Scan(s, pdfs, world).state
      == ScanFile(ScanFile(ScanFile(s, pdfs[i], world).state, pdfs[k], world).state, pdfs[j], world).state
  {
    ScanTwo(s, pdfs, active, world, i, k, j);
    ActiveStep(s, pdfs, active, world, j, |pdfs|);
    assert pdfs[..|pdfs|] == pdfs;
  }

  /** Neither a number nor a seller to be recognised by. */
  predicate Anonymous(record: Record) {
    record.invoiceNumber == None && Slug.SlugOf(record.sellerName) == None
  }

  /** Reading these bytes under this configuration meets a connectivity error, any other reading gives `record`;
      every configuration names the same supplier. */
  function Reading(record: Record, down: Option<(string, string)>, supplier: string): World {
    World((sha, cfg) => if down == Some((sha, cfg)) then Failed("timeout") else Extracted(record, []), _ => supplier)
  }

  lemma TimeoutIsTransient()
    ensures Transient("timeout")
  {
    assert Strip("timeout") == "timeout";
    assert Lower("timeout") == "timeout";
  }

  lemma DownIsUnreachable(record: Record, supplier: string, pdf: Pdf)
    ensures Unreachable(Reading(record, Some((pdf.sha, CfgName(pdf))), supplier), pdf)
  {
    TimeoutIsTransient();
  }

  lemma StoresAnonymous(s: State, pdf: Pdf, record: Record, world: World)
    requires !Settled(s.ledger, pdf) && !ShaIngested(s.ledger, pdf.sha, pdf.path) && !NameTaken(s.docs, pdf)
    requires world.extract(pdf.sha, CfgName(pdf)) == Extracted(record, []) && record.invoiceNumber == None
    ensures var docs := InsertDoc(s.docs, DocOf(pdf, record, [], world));
      ScanFile(s, pdf, world) == Step(State(docs, Ledgered(s.ledger, pdf, Ingested, "", 0)), TIngested)
  {
  }

  const NAMESAKE := "filename already present in invoices"

  lemma DropsNamesake(s: State, pdf: Pdf, world: World)
    requires !Settled(s.ledger, pdf) && !ShaIngested(s.ledger, pdf.sha, pdf.path) && NameTaken(s.docs, pdf)
    ensures ScanFile(s, pdf, world).state == s.(ledger := Ledgered(s.ledger, pdf, Duplicate, NAMESAKE, 0))
  {
  }

  const COPY := "same content as an already-ingested file"

  lemma DropsCopy(s: State, pdf: Pdf, world: World, p: string)
    requires !Settled(s.ledger, pdf) && IngestedAs(s.ledger, p, pdf.sha) && p != pdf.path
    ensures ScanFile(s, pdf, world).state == s.(ledger := Ledgered(s.ledger, pdf, Duplicate, COPY, 0))
  {
  }

  lemma SkipsUnreachable(s: State, pdf: Pdf, world: World)
    requires !Settled(s.ledger, pdf) && !ShaIngested(s.ledger, pdf.sha, pdf.path) && !NameTaken(s.docs, pdf)
    requires Unreachable(world, pdf)
    ensures ScanFile(s, pdf, world).state == s
  {
  }

  lemma NameOfOne(d: Doc, b: Pdf)
    ensures NameTaken([d], b) <==> SupplierHint(b) == Some(d.supplier) && b.name == d.filename
  {
    assert [d][0] == d;
  }

  lemma InsertBeside(d: Doc, e: Doc)
    requires d.supplier != e.supplier || d.filename != e.filename
    ensures InsertDoc([d], e) == [d, e]
  {
    assert [d][..0] == [];
    assert Others([d], e.supplier, e.filename) == [] + [d];
  }

  /** A file of another target than `a` is stored beside `a`'s document. */
  lemma StoredBeside(s: State, a: Pdf, d: Doc, b: Pdf, record: Record)
    requires SupplierHint(a) == Some(d.supplier) && a.name == d.filename && s.docs == [d]
    requires !SameTarget(a, b) && !Settled(s.ledger, b) && !ShaIngested(s.ledger, b.sha, b.path) && Anonymous(record)
    ensures |ScanFile(s, b, Reading(record, None, d.supplier + "'")).state.docs| == 2
  {
    var world := Reading(record, None, d.supplier + "'");
    var e := DocOf(b, record, [], world);
    NameOfOne(d, b);
    StoresAnonymous(s, b, record, world);
    assert |d.supplier + "'"| != |d.supplier|;
    InsertBeside(d, e);
  }

  /** A file that can be read is stored in an empty database. */
  lemma FirstIsStored(l: Ledger, a: Pdf, record: Record, world: World)
    requires !Settled(l, a) && !ShaIngested(l, a.sha, a.path) && record.invoiceNumber == None
    requires world.extract(a.sha, CfgName(a)) == Extracted(record, [])
    ensures var d := DocOf(a, record, [], world);
      ScanFile(State([], l), a, world) == Step(State([d], Ledgered(l, a, Ingested, "", 0)), TIngested)
  {
    StoresAnonymous(State([], l), a, record, world);
    assert InsertDoc([], DocOf(a, record, [], world)) == [DocOf(a, record, [], world)];
  }

  lemma KilledOnce(s: State, pdfs: seq<Pdf>, world: World, kill: Kill)
    requires kill.files <= |pdfs|
    ensures var t := Scan(s, pdfs[..kill.files], world).state;
      KilledScans(s, pdfs, world, [kill])
        == if kill.midCommit && kill.files < |pdfs| then CommitOnly(t, pdfs[kill.files], world) else t
  {
    assert [kill][..0] == [];
  }

  // ---- Copies must agree ----

  lemma KilledAfterTwo(s: State, pdfs: seq<Pdf>, active: set<nat>, world: World, i: nat, k: nat)
    requires DistinctPaths(pdfs) && Idle(pdfs, active, s.ledger) && i < k < |pdfs| && i in active && k in active
    requires forall x: nat | x < k && x in active :: x == i
    ensures var t := ScanFile(ScanFile(s, pdfs[i], world).state, pdfs[k], world).state;
      KilledScans(s, pdfs, world, [Kill(k + 1, false)]) == t && Idle(pdfs, active, t.ledger)
  {
    var n := k + 1;
    ScanTwo(s, pdfs, active, world, i, k, n);
    KilledBetweenFiles(s, pdfs, world, n);
  }

  lemma KilledBetweenFiles(s: State, pdfs: seq<Pdf>, world: World, n: nat)
    requires n <= |pdfs|
    ensures KilledScans(s, pdfs, world, [Kill(n, false)]) == Scan(s, pdfs[..n], world).state
  {
    KilledOnce(s, pdfs, world, Kill(n, false));
  }

  /** Two files of equal bytes, the first in a supplier's folder, under different suppliers or filenames. */
  predicate StrayCopy(pdfs: seq<Pdf>, i: nat, j: nat) {
    && DistinctPaths(pdfs) && i < j < |pdfs| && pdfs[i].sha == pdfs[j].sha
    && SupplierHint(pdfs[i]).Some? && !SameTarget(pdfs[i], pdfs[j])
  }

  function CopyWorld(pdfs: seq<Pdf>, i: nat, record: Record): World
    requires i < |pdfs| && SupplierHint(pdfs[i]).Some?
  {
    Reading(record, None, SupplierHint(pdfs[i]).value + "'")
  }

  /** Uninterrupted, the second is dropped as a copy. */
  lemma StrayCopyIsDropped(pdfs: seq<Pdf>, i: nat, j: nat, record: Record)
    requires StrayCopy(pdfs, i, j) && Anonymous(record)
    ensures |Scan(State([], Background(pdfs, {i, j})), pdfs, CopyWorld(pdfs, i, record)).state.docs| == 1
  {
    var l, world := Background(pdfs, {i, j}), CopyWorld(pdfs, i, record);
    BackgroundFacts(pdfs, {i, j});
    ScanTwo(State([], l), pdfs, {i, j}, world, i, j, |pdfs|);
    assert pdfs[..|pdfs|] == pdfs;
    FirstIsStored(l, pdfs[i], record, world);
    var s := ScanFile(State([], l), pdfs[i], world).state;
    PathNamesOneFile(pdfs, i, j);
    DropsCopy(s, pdfs[j], world, pdfs[i].path);
  }

  /** Killed between the commits of the first, only its invoice is there. */
  lemma KilledBetweenCommits(pdfs: seq<Pdf>, i: nat, j: nat, record: Record)
    requires StrayCopy(pdfs, i, j) && Anonymous(record)
    ensures var l, world := Background(pdfs, {i, j}), CopyWorld(pdfs, i, record);
      KilledScans(State([], l), pdfs, world, [Kill(i, true)]) == State([DocOf(pdfs[i], record, [], world)], l)
  {
    var l, world := Background(pdfs, {i, j}), CopyWorld(pdfs, i, record);
    BackgroundFacts(pdfs, {i, j});
    ScanTwo(State([], l), pdfs, {i, j}, world, i, j, |pdfs|);
    FirstIsStored(l, pdfs[i], record, world);
    KilledOnce(State([], l), pdfs, world, Kill(i, true));
  }

  /** The rerun then drops the first by its filename; no ledger row holds its hash as ingested, and the
      second is stored too. */
  lemma StrayCopyIsStored(pdfs: seq<Pdf>, i: nat, j: nat, record: Record, d: Doc)
    requires StrayCopy(pdfs, i, j) && Anonymous(record)
    requires SupplierHint(pdfs[i]) == Some(d.supplier) && d.filename == pdfs[i].name
    ensures |Scan(State([d], Background(pdfs, {i, j})), pdfs, CopyWorld(pdfs, i, record)).state.docs| == 2
  {
    var l, world := Background(pdfs, {i, j}), CopyWorld(pdfs, i, record);
    BackgroundFacts(pdfs, {i, j});
    ScanTwo(State([d], l), pdfs, {i, j}, world, i, j, |pdfs|);
    assert pdfs[..|pdfs|] == pdfs;
    NameOfOne(d, pdfs[i]);
    DropsNamesake(State([d], l), pdfs[i], world);
    PathNamesOneFile(pdfs, i, j);
    StoredBeside(ScanFile(State([d], l), pdfs[i], world).state, pdfs[i], d, pdfs[j], record);
  }

  /** Whatever else the folder holds, two such files diverge from some state: one invoice
      uninterrupted, two after a kill between the commits of the first. */
  lemma StrayCopyDiverges(pdfs: seq<Pdf>, i: nat, j: nat, record: Record)
    requires StrayCopy(pdfs, i, j) && Anonymous(record)
    ensures var s0, world := State([], Background(pdfs, {i, j})), CopyWorld(pdfs, i, record);
      && Deduplicated(s0)
      && |Scan(s0, pdfs, world).state.docs| == 1
      && |Scan(KilledScans(s0, pdfs, world, [Kill(i, true)]), pdfs, world).state.docs| == 2
  {
    var world := CopyWorld(pdfs, i, record);
    BackgroundFacts(pdfs, {i, j});
    StrayCopyIsDropped(pdfs, i, j, record);
    KilledBetweenCommits(pdfs, i, j, record);
    StrayCopyIsStored(pdfs, i, j, record, DocOf(pdfs[i], record, [], world));
  }

  // ---- No old contents may be forgotten ----

  /** Three files in this order, of which the second can make the rerun forget what the first held before. */
  predicate Forgetful(pdfs: seq<Pdf>, i: nat, k: nat, j: nat) {
    DistinctPaths(pdfs) && i < k < j < |pdfs| && Forgets(pdfs[i], pdfs[k], pdfs[j])
  }

  /** File `i` was ingested with the contents that `j` has. */
  function StaleLedger(pdfs: seq<Pdf>, i: nat, k: nat, j: nat): Ledger
    requires i < |pdfs| && j < |pdfs|
  {
    Background(pdfs, {i, k, j})[pdfs[i].path := Entry(pdfs[i].mtime + 1, pdfs[j].sha, Ingested, "", 0)]
  }

  /** File `i` is down. Suppliers that the folder does not tell are that of `i`. */
  function OutageWorld(i: Pdf, record: Record): World {
    Reading(record, Some((i.sha, CfgName(i))), SupplierHint(i).GetOr("unknown"))
  }

  lemma StaleLedgerFacts(pdfs: seq<Pdf>, i: nat, k: nat, j: nat)
    requires Forgetful(pdfs, i, k, j)
    ensures var l := StaleLedger(pdfs, i, k, j);
      && Idle(pdfs, {i, k, j}, l) && IngestedAs(l, pdfs[i].path, pdfs[j].sha) && !Settled(l, pdfs[i])
      && (forall p | p in l && l[p].result == Ingested :: p == pdfs[i].path)
      && pdfs[k].path !in l && pdfs[j].path !in l
      && pdfs[i].path != pdfs[k].path && pdfs[i].path != pdfs[j].path && pdfs[k].path != pdfs[j].path
  {
    var active := {i, k, j};
    BackgroundFacts(pdfs, active);
    PathNamesOneFile(pdfs, i, k);
    PathNamesOneFile(pdfs, i, j);
    PathNamesOneFile(pdfs, k, j);
    var b, l := Background(pdfs, active), StaleLedger(pdfs, i, k, j);
    forall x: nat | x < |pdfs| && x !in active ensures Settled(l, pdfs[x]) {
      PathNamesOneFile(pdfs, i, x);
      assert Settled(b, pdfs[x]);
    }
  }

  lemma HintIsNotEmpty(pdf: Pdf)
    ensures SupplierHint(pdf) != Some("")
  {
    assert Lower("") == "";
  }

  /** What is read of the other two, and the name the second takes. */
  lemma ForgetsReads(i: Pdf, k: Pdf, j: Pdf, record: Record)
    requires Forgets(i, k, j) && Anonymous(record)
    ensures var world := OutageWorld(i, record);
      && world.extract(k.sha, CfgName(k)) == Extracted(record, [])
      && world.extract(j.sha, CfgName(j)) == Extracted(record, [])
      && var d := DocOf(k, record, [], world);
         && d.filename == k.name
         && (SupplierHint(i).Some? ==> Some(d.supplier) == SupplierHint(i))
         && (SupplierHint(i).None? ==> Some(d.supplier) == SupplierHint(k))
  {
    HintIsNotEmpty(i);
  }

  /** After the outage, with the second file stored; also when killed there. */
  function AfterOutage(pdfs: seq<Pdf>, i: nat, k: nat, j: nat, record: Record): State
    requires i < |pdfs| && j < |pdfs| && k < |pdfs|
  {
    State([DocOf(pdfs[k], record, [], OutageWorld(pdfs[i], record))],
          Ledgered(StaleLedger(pdfs, i, k, j), pdfs[k], Ingested, "", 0))
  }

  lemma OutageThenStored(pdfs: seq<Pdf>, i: nat, k: nat, j: nat, record: Record)
    requires Forgetful(pdfs, i, k, j) && Anonymous(record)
    ensures var s0, world := State([], StaleLedger(pdfs, i, k, j)), OutageWorld(pdfs[i], record);
      ScanFile(ScanFile(s0, pdfs[i], world).state, pdfs[k], world).state == AfterOutage(pdfs, i, k, j, record)
  {
    var l, world := StaleLedger(pdfs, i, k, j), OutageWorld(pdfs[i], record);
    StaleLedgerFacts(pdfs, i, k, j);
    DownIsUnreachable(record, SupplierHint(pdfs[i]).GetOr("unknown"), pdfs[i]);
    SkipsUnreachable(State([], l), pdfs[i], world);
    ForgetsReads(pdfs[i], pdfs[k], pdfs[j], record);
    FirstIsStored(l, pdfs[k], record, world);
  }

  /** Uninterrupted, the third file is a copy of what the old entry holds. */
  lemma OldContentsAreDropped(pdfs: seq<Pdf>, i: nat, k: nat, j: nat, record: Record)
    requires Forgetful(pdfs, i, k, j) && Anonymous(record)
    ensures Scan(State([], StaleLedger(pdfs, i, k, j)), pdfs, OutageWorld(pdfs[i], record)).state.docs
      == AfterOutage(pdfs, i, k, j, record).docs
  {
    var l, world := StaleLedger(pdfs, i, k, j), OutageWorld(pdfs[i], record);
    StaleLedgerFacts(pdfs, i, k, j);
    ScanThree(State([], l), pdfs, {i, k, j}, world, i, k, j);
    OutageThenStored(pdfs, i, k, j, record);
    DropsCopy(AfterOutage(pdfs, i, k, j, record), pdfs[j], world, pdfs[i].path);
  }

  lemma KilledAfterOutage(pdfs: seq<Pdf>, i: nat, k: nat, j: nat, record: Record)
    requires Forgetful(pdfs, i, k, j) && Anonymous(record)
    ensures KilledScans(State([], StaleLedger(pdfs, i, k, j)), pdfs, OutageWorld(pdfs[i], record), [Kill(k + 1, false)])
      == AfterOutage(pdfs, i, k, j, record)
    ensures Idle(pdfs, {i, k, j}, AfterOutage(pdfs, i, k, j, record).ledger)
  {
    var l, world := StaleLedger(pdfs, i, k, j), OutageWorld(pdfs[i], record);
    StaleLedgerFacts(pdfs, i, k, j);
    KilledAfterTwo(State([], l), pdfs, {i, k, j}, world, i, k);
    OutageThenStored(pdfs, i, k, j, record);
  }

  /** On the restart the first file is dropped, which overwrites its old entry. */
  lemma OldEntryIsOverwritten(pdfs: seq<Pdf>, i: nat, k: nat, j: nat, record: Record) returns (message: string)
    requires Forgetful(pdfs, i, k, j) && Anonymous(record)
    ensures var s := AfterOutage(pdfs, i, k, j, record);
      ScanFile(s, pdfs[i], OutageWorld(pdfs[i], record)).state
        == s.(ledger := Ledgered(s.ledger, pdfs[i], Duplicate, message, 0))
  {
    var s, world := AfterOutage(pdfs, i, k, j, record), OutageWorld(pdfs[i], record);
    StaleLedgerFacts(pdfs, i, k, j);
    ForgetsReads(pdfs[i], pdfs[k], pdfs[j], record);
    if SupplierHint(pdfs[i]).Some? {
      message := NAMESAKE;
      NameOfOne(s.docs[0], pdfs[i]);
      DropsNamesake(s, pdfs[i], world);
    } else {
      message := COPY;
      DropsCopy(s, pdfs[i], world, pdfs[k].path);
    }
  }

  lemma StoredLast(s: State, pdf: Pdf, record: Record, world: World)
    requires !Settled(s.ledger, pdf) && !ShaIngested(s.ledger, pdf.sha, pdf.path) && !NameTaken(s.docs, pdf)
    requires world.extract(pdf.sha, CfgName(pdf)) == Extracted(record, []) && record.invoiceNumber == None
    ensures var docs := ScanFile(s, pdf, world).state.docs; docs != [] && docs[|docs| - 1].path == pdf.path
  {
    StoresAnonymous(s, pdf, record, world);
  }

  /** With the old entry gone the third file is stored. */
  lemma OldContentsAreStored(pdfs: seq<Pdf>, i: nat, k: nat, j: nat, record: Record)
    requires Forgetful(pdfs, i, k, j) && Anonymous(record)
    requires Idle(pdfs, {i, k, j}, AfterOutage(pdfs, i, k, j, record).ledger)
    ensures var docs := Scan(AfterOutage(pdfs, i, k, j, record), pdfs, OutageWorld(pdfs[i], record)).state.docs;
      docs != [] && docs[|docs| - 1].path == pdfs[j].path
  {
    var s, world := AfterOutage(pdfs, i, k, j, record), OutageWorld(pdfs[i], record);
    ScanThree(s, pdfs, {i, k, j}, world, i, k, j);
    var message := OldEntryIsOverwritten(pdfs, i, k, j, record);
    SecondIsSkippedThirdStored(pdfs, i, k, j, record, message);
  }

  lemma SecondIsSkippedThirdStored(pdfs: seq<Pdf>, i: nat, k: nat, j: nat, record: Record, message: string)
    requires Forgetful(pdfs, i, k, j) && Anonymous(record)
    ensures var s, world := AfterOutage(pdfs, i, k, j, record), OutageWorld(pdfs[i], record);
      var s1 := s.(ledger := Ledgered(s.ledger, pdfs[i], Duplicate, message, 0));
      && ScanFile(s1, pdfs[k], world).state == s1
      && var docs := ScanFile(s1, pdfs[j], world).state.docs;
         docs != [] && docs[|docs| - 1].path == pdfs[j].path
  {
    var s, world := AfterOutage(pdfs, i, k, j, record), OutageWorld(pdfs[i], record);
    var s1 := s.(ledger := Ledgered(s.ledger, pdfs[i], Duplicate, message, 0));
    StaleLedgerFacts(pdfs, i, k, j);
    SettledIsSkipped(s1, pdfs[k], world);
    ForgetsReads(pdfs[i], pdfs[k], pdfs[j], record);
    NameOfOne(s.docs[0], pdfs[j]);
    StoredLast(s1, pdfs[j], record, world);
  }

  /** Whatever else the folder holds, three such files diverge from some state: after a kill the last invoice is
      that of the third file, uninterrupted that of the second. */
  lemma ForgetfulDiverges(pdfs: seq<Pdf>, i: nat, k: nat, j: nat, record: Record)
    requires Forgetful(pdfs, i, k, j) && Anonymous(record)
    ensures var s0, world := State([], StaleLedger(pdfs, i, k, j)), OutageWorld(pdfs[i], record);
      && Deduplicated(s0)
      && !Converges(s0, pdfs, world, [Kill(k + 1, false)])
  {
    StaleLedgerFacts(pdfs, i, k, j);
    OldContentsAreDropped(pdfs, i, k, j, record);
    KilledAfterOutage(pdfs, i, k, j, record);
    OldContentsAreStored(pdfs, i, k, j, record);
  }

  // ---- The exact condition on a folder ----

  /** No file can make the rerun forget what an earlier one held before. */
  predicate NoneForgets(pdfs: seq<Pdf>) {
    forall i: nat, k: nat, j: nat {:trigger Forgets(pdfs[i], pdfs[k], pdfs[j])} | i < k < j < |pdfs| ::
      !Forgets(pdfs[i], pdfs[k], pdfs[j])
  }

  lemma UnsafeFolderDiverges(pdfs: seq<Pdf>) returns (s0: State, world: World, kills: seq<Kill>)
    requires DistinctPaths(pdfs) && !(CopiesAgree(pdfs) && NoneForgets(pdfs))
    ensures Deduplicated(s0) && !Converges(s0, pdfs, world, kills)
  {
    var record := Record(None, None, None, [], "");
    if !CopiesAgree(pdfs) {
      var i: nat, j: nat :| i < j < |pdfs| && pdfs[i].sha == pdfs[j].sha && SupplierHint(pdfs[i]).Some?
        && !SameTarget(pdfs[i], pdfs[j]);
      StrayCopyDiverges(pdfs, i, j, record);
      s0, world, kills := State([], Background(pdfs, {i, j})), CopyWorld(pdfs, i, record), [Kill(i, true)];
    } else {
      var i: nat, k: nat, j: nat :| i < k < j < |pdfs| && Forgets(pdfs[i], pdfs[k], pdfs[j]);
      ForgetfulDiverges(pdfs, i, k, j, record);
      s0, world, kills := State([], StaleLedger(pdfs, i, k, j)), OutageWorld(pdfs[i], record), [Kill(k + 1, false)];
    }
  }

  /** MAIN RESULT. A folder is safe against kills, from every deduplicated state and whatever can be read of its
      files, if and only if its copies agree and none of its files can make the rerun forget another's contents. */
  lemma FolderIsSafeExactlyWhen(pdfs: seq<Pdf>)
    requires DistinctPaths(pdfs)
    ensures CopiesAgree(pdfs) && NoneForgets(pdfs)
      <==> (forall s0, world, kills | Deduplicated(s0) :: Converges(s0, pdfs, world, kills))
  {
    if CopiesAgree(pdfs) && NoneForgets(pdfs) {
      forall s0, world, kills | Deduplicated(s0) ensures Converges(s0, pdfs, world, kills) {
        CrashRestartConverges(s0, pdfs, world, kills);
      }
    } else {
      var s0, world, kills := UnsafeFolderDiverges(pdfs);
    }
  }
}
