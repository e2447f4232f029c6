/** What each step of the protocol does to each job, and which job a worker claims (epiproc/worker.py,
    epiproc/db/jobs.py). */
module JobLaws {
  import opened Common
  import opened JobQueue

  /** Job `i` is being run by this worker. */
  predicate RunsJob(s: State, pid: nat, i: nat) {
    pid in s.workers && s.workers[pid] == Executing(i)
  }

  /** A running job whose process is gone, or is the requeuer. */
  predicate LeftBehind(s: State, job: Job, me: nat) {
    job.status == Running && (job.pid.None? || job.pid.value == 0 || job.pid.value == me || job.pid.value !in Live(s))
  }

  /** How a step that takes effect changes a stored job: an error keeps its first thousand characters, and no step
      changes a job's type. */
  predicate JobStep(s: State, l: Label, i: nat, was: Job, job: Job) {
    match l
    case Cancel(id) =>
      job == if id == i && was.status in {Queued, Running} then was.(status := Cancelled) else was
    case Claim(pid, id, _) =>
      job == if id == i then was.(status := Running, pid := Some(pid)) else was
    case Close(pid, outcome, _) =>
      if RunsJob(s, pid, i) && was.status == Running then
        match outcome
        case Succeeded => job == was.(status := Done)
        case Failed(error) =>
          job.jobType == was.jobType && job.pid == was.pid && job.status == Error && job.error <= error
          && |job.error| == if |error| <= 1000 then |error| else 1000
      else job == was
    case Connect(pid) =>
      job == if LeftBehind(s, was, pid) then was.(status := Queued, pid := None) else was
    case _ => job == was
  }

  /** Every step on every job: the stored ones change as said, and only a creation adds one, queued and unclaimed. */
  lemma EveryStepOnEveryJob(s: State, l: Label, i: nat)
    requires Enabled(s, l)
    ensures var jobs := Next(s, l).jobs;
      && |jobs| == |s.jobs| + (if l.Create? then 1 else 0)
      && (i < |s.jobs| ==> JobStep(s, l, i, s.jobs[i], jobs[i]))
      && (l.Create? ==> jobs[|s.jobs|].jobType == l.jobType && jobs[|s.jobs|].status == Queued
                        && jobs[|s.jobs|].pid == None && jobs[|s.jobs|].error == "")
  {
    if i < |s.jobs| && l.Connect? {
      assert Abandoned(s.jobs[i], Live(s), l.pid) <==> LeftBehind(s, s.jobs[i], l.pid);
    }
  }

  /** When a step can be taken, and what its worker does afterwards. */
  lemma EveryStepOnTheWorker(s: State, l: Label)
    ensures !Enabled(s, l) ==> Next(s, l) == s
    ensures l.StartWorker? && l.pid != 0 && l.pid !in Live(s) ==> Next(s, l).workers == s.workers[l.pid := Booting]
    ensures l.StartOther? && l.pid != 0 && l.pid !in Live(s) ==> Next(s, l).others == s.others + {l.pid}
    ensures l.Exit? ==> Live(Next(s, l)) == Live(s) - {l.pid}
    ensures l.Connect? && l.pid in s.workers && s.workers[l.pid] in {Booting, Disconnected} ==>
      Next(s, l).workers == s.workers[l.pid := Polling]
    ensures l.ConnectWithoutRequeue? && l.pid in s.workers && s.workers[l.pid] == Disconnected ==>
      Next(s, l).workers == s.workers[l.pid := Polling]
    ensures l.LoseConnection? && l.pid in s.workers && (s.workers[l.pid] == Polling || s.workers[l.pid].Executing?) ==>
      Next(s, l).workers == s.workers[l.pid := Disconnected]
    ensures l.Claim? && Enabled(s, l) ==>
      Next(s, l).workers == s.workers[l.pid := if l.heard then Executing(l.id) else Disconnected]
    ensures l.Close? && Enabled(s, l) ==>
      Next(s, l).workers == s.workers[l.pid := if l.heard then Polling else Disconnected]
  {
  }

  /** A claim needs a polling worker and a queued job; a closing needs a worker that executes one. */
  lemma ClaimsAndClosingsNeed(s: State, l: Label)
    ensures l.Claim? ==> (Enabled(s, l) <==>
      l.pid in s.workers && s.workers[l.pid] == Polling && l.id < |s.jobs| && s.jobs[l.id].status == Queued)
    ensures l.Close? ==> (Enabled(s, l) <==> exists i: nat :: i < |s.jobs| && RunsJob(s, l.pid, i))
  {
    if l.Close? && l.pid in s.workers && s.workers[l.pid].Executing? {
      assert RunsJob(s, l.pid, s.workers[l.pid].id);
    }
  }

  // ---- One cycle of a worker ----

  /** A queued job that nobody else is claiming. */
  predicate Claimable(jobs: seq<Job>, locked: set<nat>, i: nat) {
    i < |jobs| && i !in locked && jobs[i].status == Queued
  }

  lemma OldestIsFirstClaimable(jobs: seq<Job>, locked: set<nat>, i: nat)
    requires i < |jobs| ==> Claimable(jobs, locked, i)
    requires i <= |jobs| && forall j | 0 <= j < i :: !Claimable(jobs, locked, j)
    ensures Oldest(jobs, locked) == i
  {
    var k := Oldest(jobs, locked);
    assert k < |jobs| ==> Claimable(jobs, locked, k);
  }

  /** The steps after a loss of the connection: what the new connection allows, and nothing while it is down. */
  predicate Recovers(labels: seq<Label>, pid: nat, reconnect: Reconnection) {
    && (reconnect == Up ==> labels == [Connect(pid)])
    && (reconnect == UpWithoutRequeue ==> labels == [ConnectWithoutRequeue(pid)])
    && (reconnect == StillDown ==> labels == [])
  }

  /** A cycle without a connection only recovers. */
  lemma CycleWithoutConnection(jobs: seq<Job>, pid: nat, cycle: Cycle)
    ensures Recovers(CycleLabels(jobs, Disconnected, pid, cycle), pid, cycle.reconnect)
  {
  }

  /** With nothing to claim a cycle does nothing, or loses the connection and recovers. */
  lemma CycleWithoutWork(jobs: seq<Job>, pid: nat, cycle: Cycle)
    requires forall j | 0 <= j < |jobs| :: !Claimable(jobs, cycle.locked, j)
    ensures var labels := CycleLabels(jobs, Polling, pid, cycle);
      if cycle.claim.Answered? then labels == []
      else labels != [] && labels[0] == LoseConnection(pid) && Recovers(labels[1..], pid, cycle.reconnect)
  {
    OldestIsFirstClaimable(jobs, cycle.locked, |jobs|);
  }

  /** With work a cycle claims the first job that can be claimed, unless the connection is lost before the server
      commits; it closes the job it knows it claimed, as it ran, unless the connection is lost before that; and once the
      connection is gone it recovers. */
  lemma CycleWithWork(jobs: seq<Job>, pid: nat, cycle: Cycle, i: nat)
    requires Claimable(jobs, cycle.locked, i) && forall j | 0 <= j < i :: !Claimable(jobs, cycle.locked, j)
    ensures var labels := CycleLabels(jobs, Polling, pid, cycle);
      match cycle.claim
      case Dropped(committed) =>
        && labels != [] && labels[0] == (if committed then Claim(pid, i, false) else LoseConnection(pid))
        && Recovers(labels[1..], pid, cycle.reconnect)
      case Answered =>
        && |labels| >= 2 && labels[0] == Claim(pid, i, true)
        && (cycle.result.None? || cycle.close == Dropped(false) ==>
              labels[1] == LoseConnection(pid) && Recovers(labels[2..], pid, cycle.reconnect))
        && (cycle.result.Some? && cycle.close == Dropped(true) ==>
              labels[1] == Close(pid, cycle.result.value, false) && Recovers(labels[2..], pid, cycle.reconnect))
        && (cycle.result.Some? && cycle.close == Answered ==>
              labels[1] == Close(pid, cycle.result.value, true) && |labels| == 2)
  {
    OldestIsFirstClaimable(jobs, cycle.locked, i);
  }
}
