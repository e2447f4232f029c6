/** The job queue: the jobs table and the workers that poll it (epiproc/worker.py, epiproc/db/jobs.py).

    Rows are kept in creation order, so a job's id is its index. A process id is unique among live
    processes and may be reused once its process is gone. */
module JobQueue {
  import opened Common

  datatype Status = Queued | Running | Done | Error | Cancelled

  datatype Job = Job(jobType: string, status: Status, pid: Option<nat>, error: string)

  predicate Terminal(job: Job) {
    job.status in {Done, Error, Cancelled}
  }

  // ---- The statements on the table ----

  function Created(jobs: seq<Job>, jobType: string): seq<Job> {
    jobs + [Job(jobType, Queued, None, "")]
  }

  function CancelledIn(jobs: seq<Job>, id: nat): seq<Job> {
    if id < |jobs| && jobs[id].status in {Queued, Running} then jobs[id := jobs[id].(status := Cancelled)] else jobs
  }

  function ClaimedIn(jobs: seq<Job>, id: nat, pid: nat): seq<Job>
    requires id < |jobs|
  {
    jobs[id := jobs[id].(status := Running, pid := Some(pid))]
  }

  /** How a job ran: `error` is empty exactly on success. */
  datatype Outcome = Succeeded | Failed(error: string)

  /** The closing write, guarded by status = 'running'. */
  function ClosedIn(jobs: seq<Job>, id: nat, outcome: Outcome): seq<Job>
    requires id < |jobs|
  {
    if jobs[id].status != Running then jobs
    else
      match outcome
      case Succeeded => jobs[id := jobs[id].(status := Done)]
      case Failed(error) =>
        jobs[id := jobs[id].(status := Error, error := if |error| <= 1000 then error else error[..1000])]
  }

  /** Running, but under a process that is gone or under the requeuer itself. */
  predicate Abandoned(job: Job, live: set<nat>, me: nat) {
    job.status == Running &&
    !(job.pid.Some? && job.pid.value != 0 && job.pid.value != me && job.pid.value in live)
  }

  function Requeued(job: Job): Job {
    job.(status := Queued, pid := None)
  }

  function RequeuedIn(jobs: seq<Job>, live: set<nat>, me: nat): seq<Job> {
    seq(|jobs|, i requires 0 <= i < |jobs| => if Abandoned(jobs[i], live, me) then Requeued(jobs[i]) else jobs[i])
  }

  // ---- The protocol ----

  /** What a live worker is doing. */
  datatype Phase = Booting | Polling | Executing(id: nat) | Disconnected

  datatype State = State(jobs: seq<Job>, workers: map<nat, Phase>, others: set<nat>)

  function Live(s: State): set<nat> {
    s.workers.Keys + s.others
  }

  datatype Label =
    | Create(jobType: string)
    | Cancel(id: nat)
    | StartWorker(pid: nat)
    | StartOther(pid: nat)
    | Exit(pid: nat)
    | Connect(pid: nat)
    | ConnectWithoutRequeue(pid: nat)
    | LoseConnection(pid: nat)
    | Claim(pid: nat, id: nat, heard: bool)
    | Close(pid: nat, outcome: Outcome, heard: bool)

  /** Guards. `heard` is false when the server commits but the connection drops before the worker learns of it. */
  predicate Enabled(s: State, l: Label) {
    match l
    case Create(_) => true
    case Cancel(_) => true
    case StartWorker(pid) => pid != 0 && pid !in Live(s)
    case StartOther(pid) => pid != 0 && pid !in Live(s)
    case Exit(pid) => pid in Live(s)
    case Connect(pid) => pid in s.workers && s.workers[pid] in {Booting, Disconnected}
    case ConnectWithoutRequeue(pid) => pid in s.workers && s.workers[pid] == Disconnected
    case LoseConnection(pid) => pid in s.workers && (s.workers[pid] == Polling || s.workers[pid].Executing?)
    case Claim(pid, id, _) =>
      pid in s.workers && s.workers[pid] == Polling && id < |s.jobs| && s.jobs[id].status == Queued
    case Close(pid, _, _) => pid in s.workers && s.workers[pid].Executing? && s.workers[pid].id < |s.jobs|
  }

  /** One atomic step; a label that is not enabled changes nothing. */
  function Next(s: State, l: Label): State {
    if !Enabled(s, l) then s
    else
      match l
      case Create(jobType) => s.(jobs := Created(s.jobs, jobType))
      case Cancel(id) => s.(jobs := CancelledIn(s.jobs, id))
      case StartWorker(pid) => s.(workers := s.workers[pid := Booting])
      case StartOther(pid) => s.(others := s.others + {pid})
      case Exit(pid) => s.(workers := s.workers - {pid}, others := s.others - {pid})
      case Connect(pid) => s.(jobs := RequeuedIn(s.jobs, Live(s), pid), workers := s.workers[pid := Polling])
      case ConnectWithoutRequeue(pid) => s.(workers := s.workers[pid := Polling])
      case LoseConnection(pid) => s.(workers := s.workers[pid := Disconnected])
      case Claim(pid, id, heard) =>
        s.(jobs := ClaimedIn(s.jobs, id, pid),
           workers := s.workers[pid := if heard then Executing(id) else Disconnected])
      case Close(pid, outcome, heard) =>
        s.(jobs := ClosedIn(s.jobs, s.workers[pid].id, outcome),
           workers := s.workers[pid := if heard then Polling else Disconnected])
  }

  function Run(s: State, labels: seq<Label>): State {
    if labels == [] then s else Next(Run(s, labels[..|labels| - 1]), labels[|labels| - 1])
  }

  // ---- Safety ----

  predicate Executes(s: State, pid: nat, id: nat) {
    pid in s.workers && s.workers[pid] == Executing(id)
  }

  /** An executing worker's job carries its pid and is still running, or was cancelled meanwhile. */
  predicate Holds(s: State, pid: nat)
    requires pid in s.workers && s.workers[pid].Executing?
  {
    && s.workers[pid].id < |s.jobs|
    && s.jobs[s.workers[pid].id].pid == Some(pid)
    && s.jobs[s.workers[pid].id].status in {Running, Cancelled}
  }

  predicate WellFormedJob(job: Job) {
    (job.status == Queued ==> job.pid == None) && (job.status == Running ==> job.pid.Some? && job.pid.value != 0)
  }

  ghost predicate Safe(s: State)
  {
    && (forall i | 0 <= i < |s.jobs| :: WellFormedJob(s.jobs[i]))
    && (forall pid | pid in s.workers :: pid != 0)
    && (forall pid | pid in s.workers && s.workers[pid].Executing? :: Holds(s, pid))
  }

  lemma ConnectKeepsSafe(s: State, pid: nat)
    requires Safe(s) && Enabled(s, Connect(pid))
    ensures Safe(Next(s, Connect(pid)))
  {
    var s' := Next(s, Connect(pid));
    forall w | w in s'.workers && s'.workers[w].Executing? ensures Holds(s', w) {
      assert w != pid && w in s.workers && Holds(s, w);
      assert !Abandoned(s.jobs[s.workers[w].id], Live(s), pid);
    }
  }

  lemma StepKeepsSafe(s: State, l: Label)
    requires Safe(s)
    ensures Safe(Next(s, l))
  {
    if Enabled(s, l) {
      if l.Connect? {
        ConnectKeepsSafe(s, l.pid);
      } else {
        var s' := Next(s, l);
        forall w | w in s'.workers && s'.workers[w].Executing? ensures Holds(s', w) {
          if w in s.workers && s.workers[w].Executing? {
            assert Holds(s, w);
          }
        }
      }
    }
  }

  /** In every interleaving of workers, crashes, lost connections, cancels and restarts, at most one live
      worker executes a given job, and that job is running under its pid or was cancelled. */
  lemma {:induction false} AtMostOneExecutes(s: State, labels: seq<Label>)
    requires Safe(s)
    ensures Safe(Run(s, labels))
    ensures forall id, v, w | Executes(Run(s, labels), v, id) && Executes(Run(s, labels), w, id) :: v == w
  {
    if labels != [] {
      AtMostOneExecutes(s, labels[..|labels| - 1]);
      StepKeepsSafe(Run(s, labels[..|labels| - 1]), labels[|labels| - 1]);
    }
    var e := Run(s, labels);
    forall id, v, w | Executes(e, v, id) && Executes(e, w, id) ensures v == w {
      assert Holds(e, v) && Holds(e, w);
    }
  }

  /** done and error are written only by the worker that runs the job, under its own pid. */
  lemma OnlyTheRunnerCloses(s: State, l: Label, id: nat)
    requires Safe(s) && id < |s.jobs|
    requires s.jobs[id].status !in {Done, Error} && Next(s, l).jobs[id].status in {Done, Error}
    ensures l.Close? && Executes(s, l.pid, id) && s.jobs[id].pid == Some(l.pid)
    ensures Next(s, l).jobs[id].status == if l.outcome.Succeeded? then Done else Error
  {
    assert Enabled(s, l);
    if l.Close? {
      assert Holds(s, l.pid);
    }
  }

  lemma StepKeepsTerminal(s: State, l: Label, id: nat)
    requires id < |s.jobs| && Terminal(s.jobs[id])
    ensures id < |Next(s, l).jobs| && Next(s, l).jobs[id] == s.jobs[id]
  {
  }

  /** No step of any run removes a job, and done, error and cancelled are never left. */
  lemma {:induction false} TerminalIsFinal(s: State, labels: seq<Label>, id: nat)
    requires id < |s.jobs|
    ensures id < |Run(s, labels).jobs|
    ensures Terminal(s.jobs[id]) ==> Run(s, labels).jobs[id] == s.jobs[id]
  {
    if labels != [] {
      var before := labels[..|labels| - 1];
      TerminalIsFinal(s, before, id);
      if Terminal(s.jobs[id]) {
        StepKeepsTerminal(Run(s, before), labels[|labels| - 1], id);
      }
    }
  }

  /** After a requeue every running job belongs to a live process other than the requeuer, and no job is lost:
      what was abandoned is queued again, everything else is as before. */
  lemma RequeueReclaimsTheAbandoned(s: State, pid: nat)
    requires Safe(s) && Enabled(s, Connect(pid))
    ensures var s' := Next(s, Connect(pid));
      && |s'.jobs| == |s.jobs|
      && (forall i | 0 <= i < |s.jobs| && s'.jobs[i].status == Running ::
            s'.jobs[i].pid.Some? && s'.jobs[i].pid.value in Live(s') && s'.jobs[i].pid.value != pid)
      && (forall i | 0 <= i < |s.jobs| ::
            if s.jobs[i].status == Running && s.jobs[i].pid.value !in Live(s) - {pid}
            then s'.jobs[i] == Requeued(s.jobs[i]) else s'.jobs[i] == s.jobs[i])
  {
    var s' := Next(s, Connect(pid));
    assert Live(s') == Live(s);
    forall i | 0 <= i < |s.jobs|
      ensures s'.jobs[i] == if Abandoned(s.jobs[i], Live(s), pid) then Requeued(s.jobs[i]) else s.jobs[i]
      ensures WellFormedJob(s.jobs[i])
    {
    }
  }

  // ---- How often a job runs ----

  function Claims(labels: seq<Label>, s: State, id: nat): nat {
    if labels == [] then 0
    else
      var before := labels[..|labels| - 1];
      var l := labels[|labels| - 1];
      Claims(before, s, id) + if l.Claim? && l.id == id && Enabled(Run(s, before), l) then 1 else 0
  }

  /** Requeues that met the job abandoned. */
  function Reclaims(labels: seq<Label>, s: State, id: nat): nat {
    if labels == [] then 0
    else
      var before := labels[..|labels| - 1];
      var l := labels[|labels| - 1];
      var t := Run(s, before);
      Reclaims(before, s, id) +
      if l.Connect? && Enabled(t, l) && id < |t.jobs| && Abandoned(t.jobs[id], Live(t), l.pid) then 1 else 0
  }

  function Taken(s: State, id: nat): nat {
    if id < |s.jobs| && s.jobs[id].status != Queued then 1 else 0
  }

  predicate Balanced(t: State, id: nat, claims: nat, reclaims: nat) {
    && reclaims <= claims <= reclaims + Taken(t, id)
    && (id < |t.jobs| && t.jobs[id].status in {Running, Done, Error} ==> claims == reclaims + 1)
  }

  lemma StepKeepsBalance(t: State, l: Label, id: nat, claims: nat, reclaims: nat)
    requires Balanced(t, id, claims, reclaims)
    ensures Balanced(Next(t, l), id,
      claims + if l.Claim? && l.id == id && Enabled(t, l) then 1 else 0,
      reclaims + if l.Connect? && Enabled(t, l) && id < |t.jobs| && Abandoned(t.jobs[id], Live(t), l.pid) then 1 else 0)
  {
  }

  /** A job is claimed once, and once more for each time it was found abandoned: it is never run twice without
      a crash or a lost connection in between. A job that is running has been claimed exactly that often. */
  lemma {:induction false} ClaimsFollowReclaims(s: State, labels: seq<Label>, id: nat)
    requires Taken(s, id) == 0
    ensures Reclaims(labels, s, id) <= Claims(labels, s, id) <= Reclaims(labels, s, id) + Taken(Run(s, labels), id)
    ensures var e := Run(s, labels);
      id < |e.jobs| && e.jobs[id].status in {Running, Done, Error}
      ==> Claims(labels, s, id) == Reclaims(labels, s, id) + 1
  {
    if labels != [] {
      var before, l := labels[..|labels| - 1], labels[|labels| - 1];
      ClaimsFollowReclaims(s, before, id);
      StepKeepsBalance(Run(s, before), l, id, Claims(before, s, id), Reclaims(before, s, id));
    }
  }

  // ---- The table and the worker as objects ----

  /** First queued job that no other claimer has locked, or |jobs|. */
  function Oldest(jobs: seq<Job>, locked: set<nat>): (k: nat)
    ensures k <= |jobs|
    ensures k < |jobs| ==> k !in locked && jobs[k].status == Queued
    ensures forall i | 0 <= i < k && i !in locked :: jobs[i].status != Queued
  {
    OldestFrom(jobs, locked, 0)
  }

  function OldestFrom(jobs: seq<Job>, locked: set<nat>, start: nat): (k: nat)
    requires start <= |jobs|
    ensures start <= k <= |jobs|
    ensures k < |jobs| ==> k !in locked && jobs[k].status == Queued
    ensures forall i | start <= i < k && i !in locked :: jobs[i].status != Queued
    decreases |jobs| - start
  {
    if start == |jobs| || (start !in locked && jobs[start].status == Queued) then start
    else OldestFrom(jobs, locked, start + 1)
  }

  class JobTable {
    var jobs: seq<Job>

    constructor ()
      ensures jobs == []
    {
      jobs := [];
    }

    method CreateJob(jobType: string) returns (id: nat)
      modifies this
      ensures id == |old(jobs)| && jobs == Created(old(jobs), jobType)
    {
      id := |jobs|;
      jobs := jobs + [Job(jobType, Queued, None, "")];
    }

    method CancelJob(id: nat) returns (cancelled: bool)
      modifies this
      ensures jobs == CancelledIn(old(jobs), id)
      ensures cancelled <==> id < |old(jobs)| && !Terminal(old(jobs)[id])
    {
      cancelled := id < |jobs| && (jobs[id].status == Queued || jobs[id].status == Running);
      if cancelled {
        jobs := jobs[id := jobs[id].(status := Cancelled)];
      }
    }

    /** ORDER BY created_at LIMIT 1 FOR UPDATE SKIP LOCKED, then the claim. */
    method ClaimOldest(pid: nat, locked: set<nat>) returns (job: Option<nat>)
      modifies this
      ensures job.None? <==> Oldest(old(jobs), locked) == |old(jobs)|
      ensures job.None? ==> jobs == old(jobs)
      ensures job.Some? ==> job.value == Oldest(old(jobs), locked) && jobs == ClaimedIn(old(jobs), job.value, pid)
    {
      for i := 0 to |jobs|
        invariant jobs == old(jobs)
        invariant forall k | 0 <= k < i && k !in locked :: jobs[k].status != Queued
      {
        if i !in locked && jobs[i].status == Queued {
          assert Oldest(jobs, locked) == i;
          jobs := jobs[i := jobs[i].(status := Running, pid := Some(pid))];
          return Some(i);
        }
      }
      job := None;
    }

    method CloseJob(id: nat, outcome: Outcome)
      requires id < |jobs|
      modifies this
      ensures jobs == ClosedIn(old(jobs), id, outcome)
    {
      if jobs[id].status == Running {
        match outcome
        case Succeeded => jobs := jobs[id := jobs[id].(status := Done)];
        case Failed(error) =>
          var message := if |error| <= 1000 then error else error[..1000];
          jobs := jobs[id := jobs[id].(status := Error, error := message)];
      }
    }

    method RequeueAbandoned(live: set<nat>, me: nat)
      modifies this
      ensures jobs == RequeuedIn(old(jobs), live, me)
    {
      for i := 0 to |jobs|
        invariant |jobs| == |old(jobs)|
        invariant jobs[..i] == RequeuedIn(old(jobs), live, me)[..i]
        invariant jobs[i..] == old(jobs)[i..]
      {
        if jobs[i].status == Running {
          var pid := jobs[i].pid;
          var alive := false;
          if pid.Some? && pid.value != 0 && pid.value != me {
            alive := pid.value in live;
          }
          if !alive {
            jobs := jobs[i := jobs[i].(status := Queued, pid := None)];
          }
        }
      }
    }
  }

  /** How a database call of the worker goes: `Dropped(true)` commits on the server first. */
  datatype Call = Answered | Dropped(committed: bool)

  datatype Reconnection = Up | UpWithoutRequeue | StillDown

  /** What one cycle of the worker meets. `result` is None when running the job loses the database. */
  datatype Cycle = Cycle(
    now: int, locked: set<nat>, claim: Call, result: Option<Outcome>, close: Call, reconnect: Reconnection)

  function ClaimLabels(jobs: seq<Job>, pid: nat, cycle: Cycle): seq<Label> {
    var id := Oldest(jobs, cycle.locked);
    if cycle.claim == Dropped(false) || (id == |jobs| && cycle.claim.Dropped?) then [LoseConnection(pid)]
    else if id == |jobs| then []
    else [Claim(pid, id, cycle.claim.Answered?)]
  }

  function CloseLabels(pid: nat, cycle: Cycle): seq<Label> {
    if cycle.result.None? || cycle.close == Dropped(false) then [LoseConnection(pid)]
    else [Close(pid, cycle.result.value, cycle.close.Answered?)]
  }

  function RecoverLabels(pid: nat, cycle: Cycle): seq<Label> {
    match cycle.reconnect
    case Up => [Connect(pid)]
    case UpWithoutRequeue => [ConnectWithoutRequeue(pid)]
    case StillDown => []
  }

  /** The steps one cycle takes: claim, run and close, and recover once the connection is gone. */
  function CycleLabels(jobs: seq<Job>, phase: Phase, pid: nat, cycle: Cycle): seq<Label> {
    var claim := if phase == Polling then ClaimLabels(jobs, pid, cycle) else [];
    var claimed := |claim| == 1 && claim[0].Claim? && claim[0].heard;
    var close := if claimed then CloseLabels(pid, cycle) else [];
    var down := phase == Disconnected || (claimed && close[0] != Close(pid, cycle.result.GetOr(Succeeded), true))
                || (claim != [] && !claimed);
    claim + close + if down then RecoverLabels(pid, cycle) else []
  }

  class Worker {
    const pid: nat
    const scanInterval: int
    var phase: Phase
    var lastScan: int

    constructor (pid: nat, scanInterval: int)
      ensures this.pid == pid && phase == Booting && lastScan == 0
    {
      this.pid, this.scanInterval, phase, lastScan := pid, scanInterval, Booting, 0;
    }

    function View(table: JobTable, workers: map<nat, Phase>, others: set<nat>): State
      reads this, table
    {
      State(table.jobs, workers[pid := phase], others)
    }

    /** Connection lost: connect again and requeue, or stay down until the next cycle. */
    method Recover(table: JobTable, workers: map<nat, Phase>, others: set<nat>, cycle: Cycle)
      returns (labels: seq<Label>)
      requires phase == Disconnected
      modifies this`phase, table
      ensures View(table, workers, others) == Run(old(View(table, workers, others)), labels)
      ensures phase in {Polling, Disconnected} && labels == RecoverLabels(pid, cycle)
    {
      ghost var s := View(table, workers, others);
      match cycle.reconnect
      case StillDown => labels := [];
      case UpWithoutRequeue =>
        phase := Polling;
        labels := [ConnectWithoutRequeue(pid)];
        RunOne(s, labels[0]);
      case Up =>
        table.RequeueAbandoned(workers.Keys + {pid} + others, pid);
        phase := Polling;
        labels := [Connect(pid)];
        RunOne(s, labels[0]);
        assert workers[pid := Disconnected].Keys + others == workers.Keys + {pid} + others;
    }

    /** Run the claimed job and close it. */
    method RunAndClose(table: JobTable, workers: map<nat, Phase>, others: set<nat>, cycle: Cycle)
      returns (labels: seq<Label>)
      requires phase.Executing? && phase.id < |table.jobs|
      modifies this`phase, table
      ensures View(table, workers, others) == Run(old(View(table, workers, others)), labels)
      ensures labels == CloseLabels(pid, cycle)
      ensures phase == if labels == [LoseConnection(pid)] || !cycle.close.Answered? then Disconnected else Polling
    {
      ghost var s := View(table, workers, others);
      if cycle.result.None? || (cycle.close.Dropped? && !cycle.close.committed) {
        phase := Disconnected;
        labels := [LoseConnection(pid)];
      } else {
        table.CloseJob(phase.id, cycle.result.value);
        phase := if cycle.close.Answered? then Polling else Disconnected;
        labels := [Close(pid, cycle.result.value, cycle.close.Answered?)];
      }
      RunOne(s, labels[0]);
    }

    /** Claim one queued job; `idle` when the table answered that there is none. */
    method ClaimNext(table: JobTable, workers: map<nat, Phase>, others: set<nat>, cycle: Cycle)
      returns (labels: seq<Label>, idle: bool)
      requires phase == Polling
      modifies this`phase, table
      ensures View(table, workers, others) == Run(old(View(table, workers, others)), labels)
      ensures labels == ClaimLabels(old(table.jobs), pid, cycle)
      ensures idle <==> labels == []
      ensures phase == if idle then Polling
                       else if labels[0].Claim? && labels[0].heard then Executing(labels[0].id)
                       else Disconnected
      ensures phase.Executing? ==> phase.id < |table.jobs|
    {
      ghost var s := View(table, workers, others);
      if cycle.claim.Dropped? && !cycle.claim.committed {
        phase := Disconnected;
        labels, idle := [LoseConnection(pid)], false;
        RunOne(s, labels[0]);
        return;
      }
      var job := table.ClaimOldest(pid, cycle.locked);
      if job.Some? {
        phase := if cycle.claim.Answered? then Executing(job.value) else Disconnected;
        labels, idle := [Claim(pid, job.value, cycle.claim.Answered?)], false;
        RunOne(s, labels[0]);
      } else if cycle.claim.Dropped? {
        phase := Disconnected;
        labels, idle := [LoseConnection(pid)], false;
        RunOne(s, labels[0]);
      } else {
        labels, idle := [], true;
      }
    }

    method RunIfClaimed(table: JobTable, workers: map<nat, Phase>, others: set<nat>, cycle: Cycle)
      returns (labels: seq<Label>)
      requires phase.Executing? ==> phase.id < |table.jobs|
      modifies this`phase, table
      ensures View(table, workers, others) == Run(old(View(table, workers, others)), labels)
      ensures labels == if old(phase).Executing? then CloseLabels(pid, cycle) else []
      ensures phase == if !old(phase).Executing? then old(phase)
                       else if labels == [LoseConnection(pid)] || !cycle.close.Answered? then Disconnected
                       else Polling
    {
      labels := [];
      if phase.Executing? {
        labels := RunAndClose(table, workers, others, cycle);
      }
    }

    method RecoverIfDown(table: JobTable, workers: map<nat, Phase>, others: set<nat>, cycle: Cycle)
      returns (labels: seq<Label>)
      modifies this`phase, table
      ensures View(table, workers, others) == Run(old(View(table, workers, others)), labels)
      ensures labels == if old(phase) == Disconnected then RecoverLabels(pid, cycle) else []
      ensures if old(phase) == Disconnected then phase in {Polling, Disconnected} else phase == old(phase)
    {
      labels := [];
      if phase == Disconnected {
        labels := Recover(table, workers, others, cycle);
      }
    }

    /** One cycle of `poll`, undisturbed by other processes: whatever the database does, the cycle is a
        sequence of protocol steps of this worker, fixed by what it met. A scan happens exactly when the queue
        is idle and it is due. */
    method PollOnce(table: JobTable, workers: map<nat, Phase>, others: set<nat>, cycle: Cycle)
      returns (labels: seq<Label>, scans: bool)
      requires phase in {Polling, Disconnected}
      modifies this, table
      ensures View(table, workers, others) == Run(old(View(table, workers, others)), labels)
      ensures phase in {Polling, Disconnected}
      ensures labels == CycleLabels(old(table.jobs), old(phase), pid, cycle)
      ensures scans <==> old(phase) == Polling && labels == [] && cycle.now - old(lastScan) >= scanInterval
      ensures lastScan == if scans then cycle.now else old(lastScan)
    {
      ghost var s := View(table, workers, others);
      labels, scans := [], false;
      if phase == Polling {
        var idle;
        labels, idle := ClaimNext(table, workers, others, cycle);
        scans := idle && cycle.now - lastScan >= scanInterval;
        if scans {
          lastScan := cycle.now;
        }
      }
      var close := RunIfClaimed(table, workers, others, cycle);
      RunAppends(s, labels, close);
      var recovery := RecoverIfDown(table, workers, others, cycle);
      RunAppends(s, labels + close, recovery);
      labels := labels + close + recovery;
    }
  }

  lemma RunOne(s: State, l: Label)
    ensures Run(s, [l]) == Next(s, l)
  {
    assert [l][..0] == [];
  }

  lemma {:induction false} RunAppends(s: State, before: seq<Label>, after: seq<Label>)
    ensures Run(s, before + after) == Run(Run(s, before), after)
  {
    if after == [] {
      assert before + after == before;
    } else {
      assert (before + after)[..|before + after| - 1] == before + after[..|after| - 1];
      RunAppends(s, before, after[..|after| - 1]);
    }
  }
}
