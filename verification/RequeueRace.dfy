/** The requeue as the code writes it (epiproc/worker.py): a SELECT, then an UPDATE by id alone. What other processes
    do in between decides whether the queue's safety properties survive. */
module RequeueRace {
  import opened Common
  import opened JobQueue

  /** A row that was read is reclaimed when the worker writes. */
  predicate ReadAbandoned(rows: seq<Job>, t: State, me: nat, i: nat) {
    i < |rows| && Abandoned(rows[i], Live(t), me)
  }

  /** The rows read before, tested for liveness and written at `t`. */
  function SplitRequeue(rows: seq<Job>, t: State, me: nat): seq<Job> {
    seq(|t.jobs|, i requires 0 <= i < |t.jobs| =>
      if ReadAbandoned(rows, t, me, i) then Requeued(t.jobs[i]) else t.jobs[i])
  }

  /** The worker has written and polls. */
  function Written(t: State, rows: seq<Job>, me: nat): State {
    t.(jobs := SplitRequeue(rows, t, me), workers := t.workers[me := Polling])
  }

  // ---- One write ----

  /** A live worker executes a job that the requeue reclaims. */
  predicate Interrupts(t: State, rows: seq<Job>, me: nat) {
    exists pid | pid in t.workers :: t.workers[pid].Executing? && ReadAbandoned(rows, t, me, t.workers[pid].id)
  }

  /** A write keeps the queue safe exactly when it interrupts nobody. */
  lemma WriteKeepsSafe(t: State, rows: seq<Job>, me: nat)
    requires Safe(t) && Enabled(t, Connect(me))
    ensures Safe(Written(t, rows, me)) <==> !Interrupts(t, rows, me)
  {
    var u := Written(t, rows, me);
    forall i | 0 <= i < |u.jobs| ensures WellFormedJob(u.jobs[i]) {
      assert WellFormedJob(t.jobs[i]);
    }
    forall w | w in t.workers && t.workers[w].Executing?
      ensures w != me && Holds(t, w)
      ensures Holds(u, w) <==> !ReadAbandoned(rows, t, me, t.workers[w].id)
    {
    }
    if w :| w in t.workers && t.workers[w].Executing? && ReadAbandoned(rows, t, me, t.workers[w].id) {
      assert w in u.workers && u.workers[w].Executing? && !Holds(u, w);
    }
  }

  /** A job is executed twice. */
  ghost predicate TwoExecute(s: State) {
    exists id, v, w :: Executes(s, v, id) && Executes(s, w, id) && v != w
  }

  /** Over every run at most one live worker executes a job. */
  ghost predicate OneAtATime(s: State) {
    forall labels :: !TwoExecute(Run(s, labels))
  }

  lemma InterruptedRunsTwice(t: State, rows: seq<Job>, me: nat, w: nat)
    requires Safe(t) && Enabled(t, Connect(me))
    requires w in t.workers && t.workers[w].Executing? && ReadAbandoned(rows, t, me, t.workers[w].id)
    ensures !OneAtATime(Written(t, rows, me))
  {
    var u, id := Written(t, rows, me), t.workers[w].id;
    assert Holds(t, w);
    var l := Claim(me, id, true);
    RunOne(u, l);
    var e := Run(u, [l]);
    assert Executes(e, w, id) && Executes(e, me, id) && w != me;
    assert TwoExecute(e);
  }

  /** At most one worker executes a job, over every run after a write, if and only if the write interrupts nobody. */
  lemma WriteIsSafeExactlyWhenItInterruptsNobody(t: State, rows: seq<Job>, me: nat)
    requires Safe(t) && Enabled(t, Connect(me))
    ensures OneAtATime(Written(t, rows, me)) <==> !Interrupts(t, rows, me)
  {
    WriteKeepsSafe(t, rows, me);
    var u := Written(t, rows, me);
    if Interrupts(t, rows, me) {
      var w :| w in t.workers && t.workers[w].Executing? && ReadAbandoned(rows, t, me, t.workers[w].id);
      InterruptedRunsTwice(t, rows, me, w);
    } else {
      forall labels ensures !TwoExecute(Run(u, labels)) {
        AtMostOneExecutes(u, labels);
      }
    }
  }

  /** No ended job changes. */
  predicate EndedStay(s: State, t: State) {
    forall i | 0 <= i < |s.jobs| && Terminal(s.jobs[i]) :: i < |t.jobs| && t.jobs[i] == s.jobs[i]
  }

  /** A row that the requeue reclaims has ended. */
  predicate Revives(t: State, rows: seq<Job>, me: nat) {
    exists i: nat :: i < |t.jobs| && Terminal(t.jobs[i]) && ReadAbandoned(rows, t, me, i)
  }

  /** Ended jobs survive a write exactly when no row read as abandoned has ended. */
  lemma WriteKeepsEnded(t: State, rows: seq<Job>, me: nat)
    ensures EndedStay(t, Written(t, rows, me)) <==> !Revives(t, rows, me)
  {
    var u := Written(t, rows, me);
    if i: nat :| i < |t.jobs| && Terminal(t.jobs[i]) && ReadAbandoned(rows, t, me, i) {
      assert u.jobs[i] != t.jobs[i];
    }
  }

  // ---- Runs of the split protocol ----

  /** The queue, and the rows that workers have read for a requeue they have not written yet. */
  datatype Race = Race(now: State, pending: map<nat, seq<Job>>)

  datatype RaceLabel = Other(l: Label) | Read(pid: nat) | Write(pid: nat)

  /** A step of one worker ends its requeue unwritten. */
  function StillRead(pending: map<nat, seq<Job>>, l: Label): map<nat, seq<Job>> {
    if l.Exit? || l.ConnectWithoutRequeue? then pending - {l.pid} else pending
  }

  predicate Writes(r: Race, l: RaceLabel) {
    l.Write? && l.pid in r.pending && Enabled(r.now, Connect(l.pid))
  }

  /** The protocol with the requeue in two steps instead of the atomic one. */
  function RaceNext(r: Race, l: RaceLabel): Race {
    match l
    case Other(l) => if l.Connect? then r else Race(Next(r.now, l), StillRead(r.pending, l))
    case Read(pid) => if Enabled(r.now, Connect(pid)) then r.(pending := r.pending[pid := r.now.jobs]) else r
    case Write(pid) =>
      if Writes(r, l) then Race(Written(r.now, r.pending[pid], pid), r.pending - {pid}) else r
  }

  function RaceRun(r: Race, labels: seq<RaceLabel>): Race {
    if labels == [] then r else RaceNext(RaceRun(r, labels[..|labels| - 1]), labels[|labels| - 1])
  }

  /** Rows are held only by live workers between reading and writing: booting, or reconnecting. */
  predicate HeldWhileDown(r: Race) {
    forall pid | pid in r.pending :: pid in r.now.workers && r.now.workers[pid] in {Booting, Disconnected}
  }

  lemma RaceStepHoldsWhileDown(r: Race, l: RaceLabel)
    requires HeldWhileDown(r)
    ensures HeldWhileDown(RaceNext(r, l))
  {
  }

  /** Over every run no worker keeps rows it read beyond its requeue: a claim, an exit and a new process under the same
      pid find none. */
  lemma {:induction false} RowsAreHeldWhileDown(r: Race, labels: seq<RaceLabel>)
    requires HeldWhileDown(r)
    ensures HeldWhileDown(RaceRun(r, labels))
  {
    if labels != [] {
      RowsAreHeldWhileDown(r, labels[..|labels| - 1]);
      RaceStepHoldsWhileDown(RaceRun(r, labels[..|labels| - 1]), labels[|labels| - 1]);
    }
  }

  predicate InterruptsNobody(r: Race, l: RaceLabel) {
    Writes(r, l) ==> !Interrupts(r.now, r.pending[l.pid], l.pid)
  }

  predicate RevivesNone(r: Race, l: RaceLabel) {
    Writes(r, l) ==> !Revives(r.now, r.pending[l.pid], l.pid)
  }

  lemma RaceStep(r: Race, l: RaceLabel)
    requires Safe(r.now)
    ensures Safe(RaceNext(r, l).now) <==> InterruptsNobody(r, l)
  {
    if Writes(r, l) {
      WriteKeepsSafe(r.now, r.pending[l.pid], l.pid);
    } else if l.Other? {
      StepKeepsSafe(r.now, l.l);
    }
  }

  /** Safe after each of the first n steps. */
  ghost predicate SafeUpTo(r: Race, labels: seq<RaceLabel>, n: nat)
    requires n <= |labels|
  {
    forall k | 0 <= k <= n :: Safe(RaceRun(r, labels[..k]).now)
  }

  predicate CleanUpTo(r: Race, labels: seq<RaceLabel>, n: nat)
    requires n <= |labels|
  {
    forall k | 0 <= k < n :: InterruptsNobody(RaceRun(r, labels[..k]), labels[k])
  }

  lemma RaceRunStep(r: Race, labels: seq<RaceLabel>, n: nat)
    requires n < |labels|
    ensures RaceRun(r, labels[..n + 1]) == RaceNext(RaceRun(r, labels[..n]), labels[n])
  {
    assert labels[..n + 1][..n] == labels[..n];
  }

  lemma OneMoreRaceStep(r: Race, labels: seq<RaceLabel>, m: nat)
    requires m < |labels|
    ensures SafeUpTo(r, labels, m + 1)
      <==> SafeUpTo(r, labels, m) && InterruptsNobody(RaceRun(r, labels[..m]), labels[m])
  {
    RaceRunStep(r, labels, m);
    if Safe(RaceRun(r, labels[..m]).now) {
      RaceStep(RaceRun(r, labels[..m]), labels[m]);
    }
  }

  /** MAIN RESULT. Over every run of the split protocol the queue stays safe throughout if and only if no write
      interrupts a live worker; and then at most one worker executes a job. */
  lemma {:induction false} RaceIsSafeExactlyWhenNoWriteInterrupts(r: Race, labels: seq<RaceLabel>, n: nat)
    requires Safe(r.now) && n <= |labels|
    ensures SafeUpTo(r, labels, n) <==> CleanUpTo(r, labels, n)
    ensures CleanUpTo(r, labels, n) ==> !TwoExecute(RaceRun(r, labels[..n]).now)
  {
    if n == 0 {
      assert labels[..0] == [];
    } else {
      RaceIsSafeExactlyWhenNoWriteInterrupts(r, labels, n - 1);
      OneMoreRaceStep(r, labels, n - 1);
    }
    if SafeUpTo(r, labels, n) {
      SafeMeansOne(RaceRun(r, labels[..n]).now);
    }
  }

  lemma SafeMeansOne(s: State)
    requires Safe(s)
    ensures !TwoExecute(s)
  {
    AtMostOneExecutes(s, []);
  }

  lemma RaceStepKeepsEnded(r: Race, l: RaceLabel)
    ensures EndedStay(r.now, RaceNext(r, l).now) <==> RevivesNone(r, l)
  {
    if Writes(r, l) {
      WriteKeepsEnded(r.now, r.pending[l.pid], l.pid);
    } else if l.Other? && !l.l.Connect? {
      forall i: nat | i < |r.now.jobs| && Terminal(r.now.jobs[i])
        ensures i < |Next(r.now, l.l).jobs| && Next(r.now, l.l).jobs[i] == r.now.jobs[i]
      {
        StepKeepsTerminal(r.now, l.l, i);
      }
    }
  }

  lemma EndedStayOn(s: State, t: State, u: State)
    requires EndedStay(s, t) && EndedStay(t, u)
    ensures EndedStay(s, u)
  {
  }

  /** MAIN RESULT. Over every run of the split protocol each step leaves the ended jobs alone if and only if no write
      revives one; and then a job that has ended stays as it is to the end of the run. */
  lemma {:induction false} EndedIsFinalExactlyWhenNoWriteRevives(r: Race, labels: seq<RaceLabel>)
    ensures (forall k | 0 <= k < |labels| ::
              EndedStay(RaceRun(r, labels[..k]).now, RaceNext(RaceRun(r, labels[..k]), labels[k]).now))
      <==> (forall k | 0 <= k < |labels| :: RevivesNone(RaceRun(r, labels[..k]), labels[k]))
    ensures (forall k | 0 <= k < |labels| :: RevivesNone(RaceRun(r, labels[..k]), labels[k]))
      ==> EndedStay(r.now, RaceRun(r, labels).now)
  {
    forall k | 0 <= k < |labels|
      ensures EndedStay(RaceRun(r, labels[..k]).now, RaceNext(RaceRun(r, labels[..k]), labels[k]).now)
        <==> RevivesNone(RaceRun(r, labels[..k]), labels[k])
    {
      RaceStepKeepsEnded(RaceRun(r, labels[..k]), labels[k]);
    }
    if labels != [] && forall k | 0 <= k < |labels| :: RevivesNone(RaceRun(r, labels[..k]), labels[k]) {
      var n := |labels| - 1;
      forall k | 0 <= k < n ensures RevivesNone(RaceRun(r, labels[..n][..k]), labels[..n][k]) {
        assert labels[..n][..k] == labels[..k];
      }
      EndedIsFinalExactlyWhenNoWriteRevives(r, labels[..n]);
      EndedStayOn(r.now, RaceRun(r, labels[..n]).now, RaceRun(r, labels).now);
    }
  }

  // ---- When the two statements amount to one ----

  /** What the web process and unrelated processes do. */
  predicate FromOutside(l: Label, me: nat) {
    l.Create? || l.Cancel? || l.StartOther? || (l.Exit? && l.pid != me)
  }

  /** Outside steps change a job only by cancelling it. */
  ghost predicate OnlyCancelled(s: State, t: State, labels: seq<Label>) {
    && t.workers == s.workers && |s.jobs| <= |t.jobs|
    && (forall i | 0 <= i < |s.jobs| ::
          t.jobs[i] == if Cancel(i) in labels then CancelledIn(s.jobs, i)[i] else s.jobs[i])
    && (forall i | |s.jobs| <= i < |t.jobs| :: t.jobs[i].status != Running)
  }

  lemma OutsideStepOnlyCancels(s: State, t: State, before: seq<Label>, l: Label, me: nat)
    requires s.workers.Keys == {me} && OnlyCancelled(s, t, before) && FromOutside(l, me)
    ensures OnlyCancelled(s, Next(t, l), before + [l])
  {
    assert forall i :: Cancel(i) in before + [l] <==> Cancel(i) in before || l == Cancel(i);
    if l.Exit? {
      assert t.workers - {l.pid} == t.workers;
    }
  }

  lemma {:induction false} OutsideOnlyCancels(s: State, labels: seq<Label>, me: nat)
    requires s.workers.Keys == {me} && forall k | 0 <= k < |labels| :: FromOutside(labels[k], me)
    ensures OnlyCancelled(s, Run(s, labels), labels)
  {
    if labels != [] {
      var before, l := labels[..|labels| - 1], labels[|labels| - 1];
      assert labels == before + [l];
      OutsideOnlyCancels(s, before, me);
      OutsideStepOnlyCancels(s, Run(s, before), before, l, me);
    }
  }

  /** With one worker, the two statements amount to the atomic requeue if and only if no job that the
      requeue reclaims was cancelled between them. */
  lemma SplitRequeueIsAtomicExactlyWhenNothingItReclaimsIsCancelled(s: State, labels: seq<Label>, me: nat)
    requires s.workers.Keys == {me} && forall k | 0 <= k < |labels| :: FromOutside(labels[k], me)
    ensures var t := Run(s, labels);
      SplitRequeue(s.jobs, t, me) == RequeuedIn(t.jobs, Live(t), me)
      <==> (forall i | 0 <= i < |s.jobs| && Abandoned(s.jobs[i], Live(t), me) :: Cancel(i) !in labels)
  {
    OutsideOnlyCancels(s, labels, me);
    var t := Run(s, labels);
    var split, atomic := SplitRequeue(s.jobs, t, me), RequeuedIn(t.jobs, Live(t), me);
    forall i | 0 <= i < |t.jobs|
      ensures split[i] == atomic[i] <==> !(i < |s.jobs| && Abandoned(s.jobs[i], Live(t), me) && Cancel(i) in labels)
    {
    }
    if forall i | 0 <= i < |s.jobs| && Abandoned(s.jobs[i], Live(t), me) :: Cancel(i) !in labels {
      assert split == atomic;
    }
  }

  /** Between the two statements the row read as abandoned has ended or is run by a live process, or a row that
      was not has become abandoned. */
  predicate Misjudged(s: State, t: State, me: nat, i: nat)
    requires i < |t.jobs|
  {
    if i < |s.jobs| && Abandoned(s.jobs[i], Live(t), me) then
      t.jobs[i].status != Queued && !Abandoned(t.jobs[i], Live(t), me)
    else Abandoned(t.jobs[i], Live(t), me)
  }

  /** With any workers and whatever they do in between, the two statements amount to the atomic requeue if and
      only if no job is misjudged. */
  lemma SplitRequeueIsAtomicExactlyWhenNothingIsMisjudged(s: State, labels: seq<Label>, me: nat)
    requires Safe(s)
    ensures var t := Run(s, labels);
      SplitRequeue(s.jobs, t, me) == RequeuedIn(t.jobs, Live(t), me)
      <==> (forall i: nat | i < |t.jobs| :: !Misjudged(s, t, me, i))
  {
    AtMostOneExecutes(s, labels);
    var t := Run(s, labels);
    var split, atomic := SplitRequeue(s.jobs, t, me), RequeuedIn(t.jobs, Live(t), me);
    forall i: nat | i < |t.jobs| ensures split[i] == atomic[i] <==> !Misjudged(s, t, me, i) {
      assert WellFormedJob(t.jobs[i]);
    }
    if forall i: nat | i < |t.jobs| :: !Misjudged(s, t, me, i) {
      assert split == atomic;
    }
  }

  /** Cancels and closing writes that the job met. */
  function Endings(labels: seq<Label>, s: State, id: nat): nat {
    if labels == [] then 0
    else
      var before := labels[..|labels| - 1];
      var l := labels[|labels| - 1];
      Endings(before, s, id) + if l == Cancel(id) || (l.Close? && Executes(Run(s, before), l.pid, id)) then 1 else 0
  }

  /** A job runs only as it did, or because it was claimed. */
  lemma {:induction false} UnclaimedRunsAsBefore(s: State, labels: seq<Label>, id: nat)
    requires Claims(labels, s, id) == 0
    ensures var t := Run(s, labels);
      id < |t.jobs| && t.jobs[id].status == Running ==> id < |s.jobs| && s.jobs[id] == t.jobs[id]
  {
    if labels != [] {
      UnclaimedRunsAsBefore(s, labels[..|labels| - 1], id);
    }
  }

  lemma {:induction false} UnendedStaysOpen(s: State, labels: seq<Label>, id: nat)
    requires Endings(labels, s, id) == 0 && id < |s.jobs| && !Terminal(s.jobs[id])
    ensures id < |Run(s, labels).jobs| && !Terminal(Run(s, labels).jobs[id])
  {
    if labels != [] {
      UnendedStaysOpen(s, labels[..|labels| - 1], id);
    }
  }

  /** So it is when between the statements no job that either form reclaims is claimed, cancelled or closed;
      another worker may have requeued it. */
  lemma UndisturbedSplitRequeueIsAtomic(s: State, labels: seq<Label>, me: nat)
    requires Safe(s)
    requires forall i: nat | i < |s.jobs| && Abandoned(s.jobs[i], Live(Run(s, labels)), me) ::
      Claims(labels, s, i) == 0 && Endings(labels, s, i) == 0
    requires forall i: nat | i < |Run(s, labels).jobs| && Abandoned(Run(s, labels).jobs[i], Live(Run(s, labels)), me) ::
      Claims(labels, s, i) == 0
    ensures SplitRequeue(s.jobs, Run(s, labels), me) == RequeuedIn(Run(s, labels).jobs, Live(Run(s, labels)), me)
  {
    var t := Run(s, labels);
    forall i: nat | i < |t.jobs| ensures !Misjudged(s, t, me, i) {
      if i < |s.jobs| && Abandoned(s.jobs[i], Live(t), me) {
        UnendedStaysOpen(s, labels, i);
        UnclaimedRunsAsBefore(s, labels, i);
      } else if Abandoned(t.jobs[i], Live(t), me) {
        UnclaimedRunsAsBefore(s, labels, i);
      }
    }
    SplitRequeueIsAtomicExactlyWhenNothingIsMisjudged(s, labels, me);
  }

  /** A cancel that falls between the two statements is undone: the job is queued again. */
  lemma CancelDuringRequeueIsLost()
    ensures var s := State([Job("process", Running, Some(9), "")], map[1 := Disconnected], {});
      var t := Run(s, [Cancel(0)]);
      t.jobs[0].status == Cancelled && SplitRequeue(s.jobs, t, 1)[0].status == Queued
  {
    var s := State([Job("process", Running, Some(9), "")], map[1 := Disconnected], {});
    var labels := [Cancel(0)];
    assert labels[..0] == [];
    assert Run(s, labels) == Next(s, Cancel(0));
  }

  /** Two workers that requeue at once can both come to run the job of a dead third. */
  lemma TwoRequeuersRunOneJobTwice()
    ensures var s := State([Job("process", Running, Some(9), "")], map[1 := Booting, 2 := Booting], {});
      var t := Next(Next(s, Connect(2)), Claim(2, 0, true));
      var u := t.(jobs := SplitRequeue(s.jobs, t, 1), workers := t.workers[1 := Polling]);
      var e := Next(u, Claim(1, 0, true));
      Safe(s) && Executes(e, 1, 0) && Executes(e, 2, 0)
  {
    var s := State([Job("process", Running, Some(9), "")], map[1 := Booting, 2 := Booting], {});
    var s1 := Next(s, Connect(2));
    assert s1 == State([Job("process", Queued, None, "")], map[1 := Booting, 2 := Polling], {});
    var t := Next(s1, Claim(2, 0, true));
    assert t == State([Job("process", Running, Some(2), "")], map[1 := Booting, 2 := Executing(0)], {});
    assert SplitRequeue(s.jobs, t, 1) == [Job("process", Queued, None, "")];
  }
}
