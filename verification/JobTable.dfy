/** The job table and its users as they run: claiming, reporting, and the handler that waits for a job. */
module JobTable {
  import opened PlanModel
  import opened Jobs
  import opened ProtocolJobs
  import Protocol

  const POLL_SECONDS: nat := 2
  const DEFAULT_MINUTES: nat := 60

  datatype JobRunResult = Succeeded | JobFailure | HookFailure | TimedOut(written: bool) | StoreFailure

  /** What a process met with one access, and when (`done` is false for one that failed), or with a sleep. */
  datatype Met =
    | Created(done: bool, at: nat)
    | Read(done: bool, status: JobStatus, at: nat)
    | Wrote(done: bool, at: nat)
    | Claim(done: bool, at: nat)
    | Slept(seconds: nat, at: nat)

  /** The table together with the clock, as one process uses it; `met` is what its accesses met so far. */
  class Table {
    var jobs: seq<Job>
    var clock: nat
    ghost var met: seq<Met>

    constructor ()
      ensures jobs == [] && clock == 0 && met == []
    {
      jobs, clock, met := [], 0, [];
    }

    /** Time passes and other processes use the table: rows are added and move, none goes back. Callers know
        no more than this contract, so they must expect anything it allows. */
    method Others(seconds: nat)
      modifies this
      ensures JobsMove(old(jobs), jobs) && clock >= old(clock) + seconds && met == old(met)
    {
      clock := clock + seconds;
    }

    method Sleep(seconds: nat)
      modifies this
      ensures JobsMove(old(jobs), jobs) && clock >= old(clock) + seconds && met == old(met) + [Slept(seconds, clock)]
    {
      Others(seconds);
      met := met + [Slept(seconds, clock)];
    }

    method Create(job: Job) returns (err: bool, id: nat)
      modifies this`jobs, this`met
      ensures met == old(met) + [Created(!err, clock)]
      ensures err ==> jobs == old(jobs)
      ensures !err ==> id == |old(jobs)| && jobs == old(jobs) + [job]
    {
      err, id := *, |jobs|;
      met := met + [Created(!err, clock)];
      if !err { jobs := jobs + [job]; }
    }

    method Get(id: nat) returns (err: bool, status: JobStatus)
      requires id < |jobs|
      modifies this`met
      ensures met == old(met) + [Read(!err, status, clock)]
      ensures !err ==> status == jobs[id].status
    {
      err, status := *, jobs[id].status;
      met := met + [Read(!err, status, clock)];
    }

    /** `ClaimNext`, one transaction: the lowest pending id of the agent goes to running, nothing else moves;
        on an error nothing does. */
    method ClaimNext(agent: int) returns (err: bool, id: nat)
      modifies this`jobs, this`met
      ensures met == old(met) + [Claim(!err, clock)]
      ensures err ==> jobs == old(jobs)
      ensures !err ==> id == NextPending(old(jobs), agent, 0)
      ensures |jobs| == |old(jobs)|
      ensures !err && id < |jobs| ==> old(jobs)[id].agent == agent && old(jobs)[id].status.JobPending? && jobs[id].status.JobRunning?
      ensures !err ==> forall k :: 0 <= k < id ==> old(jobs)[k].agent != agent || !old(jobs)[k].status.JobPending?
      ensures !err ==> jobs == if id == |old(jobs)| then old(jobs) else Claimed(old(jobs), id)
    {
      err, id := *, 0;
      met := met + [Claim(!err, clock)];
      if err { return; }
      while id < |jobs| && !PendingFor(jobs[id], agent)
        modifies {}
        invariant 0 <= id <= |jobs| && NextPending(jobs, agent, 0) == NextPending(jobs, agent, id)
      {
        id := id + 1;
      }
      if id < |jobs| { jobs := Claimed(jobs, id); }
    }

    /** `InternalUpdate` of the status: whatever it was before, or an error and nothing. */
    method Update(id: nat, status: JobStatus) returns (err: bool)
      requires id < |jobs|
      modifies this`jobs, this`met
      ensures met == old(met) + [Wrote(!err, clock)]
      ensures jobs == if err then old(jobs) else SetStatus(old(jobs), id, status)
      ensures |jobs| == |old(jobs)| && (!err ==> jobs[id].status == status) && forall k :: 0 <= k < |jobs| && k != id ==> jobs[k] == old(jobs)[k]
    {
      err := *;
      met := met + [Wrote(!err, clock)];
      if !err { jobs := SetStatus(jobs, id, status); }
    }

    /** `ReportResult` of an authenticated agent. */
    method ReportResult(id: nat, ok: bool) returns (err: bool)
      requires id < |jobs|
      modifies this`jobs, this`met
      ensures met == old(met) + [Wrote(!err, clock)]
      ensures jobs == if err then old(jobs) else SetStatus(old(jobs), id, if ok then JobSuccess else JobFailed)
    {
      err := Update(id, if ok then JobSuccess else JobFailed);
    }
  }

  /** What a waiting handler can rely on: the table only moved forward since `was`, and its job is in it. */
  ghost predicate Since(was: seq<Job>, jobs: seq<Job>, job: Job, id: nat) {
    JobsMove(was, jobs) && |was| <= id < |jobs| && JobMoves(job, jobs[id])
  }

  lemma SinceMoves(was: seq<Job>, b: seq<Job>, c: seq<Job>, job: Job, id: nat)
    requires Since(was, b, job, id) && JobsMove(b, c)
    ensures Since(was, c, job, id)
  {
    assert JobMoves(b[id], c[id]);
    MovesJoin(was, b, c);
  }

  function Wait(minutes: int): (seconds: nat)
    ensures (minutes <= 0 ==> seconds == 3600) && (minutes > 0 ==> seconds == 60 * minutes)
  {
    60 * if minutes <= 0 then DEFAULT_MINUTES else minutes
  }

  /** The poll came back with a job that is still open. */
  predicate StillOpen(e: Met) {
    e.Read? && e.done && (e.status.JobPending? || e.status.JobRunning?)
  }

  /** What a handler meets: it creates its job, then reads it, sleeps two seconds, and so on until a read fails
      or finds the job terminal; when it wakes up after the deadline, and only then, it writes instead. */
  ghost predicate Polls(own: seq<Met>, wait: nat) {
    && own != [] && own[0].Created? && (own[0].done <==> |own| > 1)
    && Rounds(own[..|own| - 1])
    && (|own| > 1 ==> |own| % 2 == 0 && Ending(own[|own| - 1], own[|own| - 2], own[0].at + wait))
    && (forall k :: 2 <= k < |own| - 2 && k % 2 == 0 ==> own[k].at <= own[0].at + wait)
  }

  /** After the creation, reads that find the job open and sleeps take turns. */
  ghost predicate Rounds(own: seq<Met>) {
    forall k :: 1 <= k < |own| ==> if k % 2 == 1 then StillOpen(own[k]) else own[k].Slept? && own[k].seconds == 2
  }

  ghost predicate Ending(e: Met, before: Met, deadline: nat) {
    && (e.Read? || e.Wrote?) && !StillOpen(e)
    && (e.Wrote? <==> before.at > deadline)
  }

  /** The same at the top of the loop, at time `now`. */
  ghost predicate Polling(own: seq<Met>, wait: nat, now: nat) {
    && own != [] && |own| % 2 == 1 && own[0].Created? && own[0].done && Rounds(own) && own[|own| - 1].at == now
    && (forall k :: 2 <= k < |own| - 1 && k % 2 == 0 ==> own[k].at <= own[0].at + wait)
  }

  lemma PollEnds(own: seq<Met>, wait: nat, now: nat, e: Met)
    requires Polling(own, wait, now) && Ending(e, own[|own| - 1], own[0].at + wait)
    ensures Polls(own + [e], wait)
  {
    assert (own + [e])[..|own|] == own;
  }

  lemma PollGoesOn(own: seq<Met>, wait: nat, now: nat, e: Met, later: nat)
    requires Polling(own, wait, now) && now <= own[0].at + wait && StillOpen(e)
    ensures var more := own + [e] + [Slept(POLL_SECONDS, later)]; Polling(more, wait, later) && more[0] == own[0]
  {
  }

  /** Others act while a handler waits for its job. */
  method OthersWhile(table: Table, ghost was: seq<Job>, ghost job: Job, ghost id: nat) returns (ghost jobs: seq<Job>)
    requires Since(was, table.jobs, job, id)
    modifies table
    ensures jobs == table.jobs && Since(was, jobs, job, id)
    ensures table.met == old(table.met) && table.clock >= old(table.clock)
  {
    table.Others(0);
    SinceMoves(was, old(table.jobs), table.jobs, job, id);
    jobs := table.jobs;
  }

  /** The handler gives its job up: the row becomes failed whatever it was, unless the write fails. */
  method WriteTimeout(table: Table, ghost was: seq<Job>, ghost job: Job, id: nat, ghost own: seq<Met>, ghost wait: nat)
    returns (written: bool, ghost last: seq<Job>, ghost all: seq<Met>)
    requires Since(was, table.jobs, job, id) && Polling(own, wait, table.clock) && table.clock > own[0].at + wait
    modifies table
    ensures Since(was, last, job, id) && Since(was, table.jobs, job, id) && table.clock >= old(table.clock)
    ensures table.jobs == if written then SetStatus(last, id, JobFailed) else last
    ensures all == own + [Wrote(written, table.clock)] && table.met == old(table.met) + [Wrote(written, table.clock)]
    ensures Polls(all, wait)
  {
    ghost var now := table.clock;
    last := OthersWhile(table, was, job, id);
    var err := table.Update(id, JobFailed);
    SinceMoves(was, last, table.jobs, job, id);
    PollEnds(own, wait, now, Wrote(!err, table.clock));
    written, all := !err, own + [Wrote(!err, table.clock)];
  }

  /** `AgentJob.Run`: create a job, then poll it until it is terminal or the deadline has passed.
      `hookOk` is what the success hook answers; other processes act before every access. The answer is
      decided by the last access: a failed one is a store failure, a success read is the hook's answer, a
      failure read is a failure. The deadline is looked at first: a timeout comes only strictly after it, and
      overwrites whatever the row said in `last`, success included, unless the update fails, which nobody
      notices. No job goes back. */
  method RunAgentJob(table: Table, job: Job, minutes: int, hookOk: bool)
    returns (r: JobRunResult, id: nat, ghost last: seq<Job>, ghost own: seq<Met>)
    requires job.status.JobPending? && !job.claimed && !job.succeeded
    modifies table
    ensures table.met == old(table.met) + own && Polls(own, Wait(minutes)) && own[0].at >= old(table.clock)
    ensures var e := own[|own| - 1];
            && (r == StoreFailure <==> !e.done && !e.Wrote?)
            && (r == Succeeded <==> e.Read? && e.done && e.status.JobSuccess? && hookOk)
            && (r == HookFailure <==> e.Read? && e.done && e.status.JobSuccess? && !hookOk)
            && (r == JobFailure <==> e.Read? && e.done && e.status.JobFailed?)
            && (r.TimedOut? <==> e.Wrote?) && (r.TimedOut? ==> r.written == e.done)
    ensures JobsMove(old(table.jobs), table.jobs) && table.clock >= old(table.clock)
    ensures r != StoreFailure ==> Since(old(table.jobs), table.jobs, job, id) && Since(old(table.jobs), last, job, id)
    ensures r == Succeeded ==> hookOk && table.jobs[id].status.JobSuccess?
    ensures r == HookFailure ==> !hookOk && table.jobs[id].status.JobSuccess?
    ensures r == JobFailure ==> table.jobs[id].status.JobFailed?
    ensures r.TimedOut? ==> table.clock > old(table.clock) + Wait(minutes)
    ensures r.TimedOut? ==> table.jobs == if r.written then SetStatus(last, id, JobFailed) else last
  {
    var wait := Wait(minutes);
    ghost var was := table.jobs;
    ghost var mine := table.met;
    table.Others(0);
    ghost var mid := table.jobs;
    var err;
    err, id := table.Create(job);
    last, own := table.jobs, [Created(!err, table.clock)];
    if err { return StoreFailure, 0, last, own; }
    MovesJoin(was, mid, table.jobs);
    var deadline := table.clock + wait;
    while true
      invariant last == table.jobs && Since(was, last, job, id) && old(table.clock) <= table.clock
      invariant table.met == mine + own && Polling(own, wait, table.clock)
      invariant own[0].at + wait == deadline && own[0].at >= old(table.clock)
      decreases deadline + 2 - table.clock
    {
      var now := table.clock;
      if now > deadline {
        var written;
        written, last, own := WriteTimeout(table, was, job, id, own, wait);
        return TimedOut(written), id, last, own;
      }
      last := OthersWhile(table, was, job, id);
      var status;
      err, status := table.Get(id);
      ghost var e := Read(!err, status, table.clock);
      if !StillOpen(e) { PollEnds(own, wait, now, e); }
      ghost var before := own;
      own := own + [e];
      if err { return StoreFailure, id, last, own; }
      if status.JobSuccess? {
        return if hookOk then Succeeded else HookFailure, id, last, own;
      }
      if status.JobFailed? { return JobFailure, id, last, own; }
      table.Sleep(POLL_SECONDS);
      PollGoesOn(before, wait, now, e, table.clock);
      own := own + [Slept(POLL_SECONDS, table.clock)];
      SinceMoves(was, last, table.jobs, job, id);
      last := table.jobs;
    }
  }

  /** The edge agent's loop body: one tick of its ticker, and the end of a goroutine it started. */
  class DeployAgent {
    const agent: int
    var running: bool
    var executing: set<nat>

    constructor (agent: int)
      ensures this.agent == agent && View() == Protocol.Process(agent, false, {})
    {
      this.agent, running, executing := agent, false, {};
    }

    function View(): Protocol.Process
      reads this
    {
      Protocol.Process(agent, running, executing)
    }

    /** Claims only while nothing runs, so the process keeps executing at most one job. A claim can fail, and
        one that went through can still look failed: `lost` is whether its answer does not arrive. */
    method OnTick(table: Table, lost: bool) returns (err: bool)
      requires JobsOk(table.jobs) && ProcessOk(table.jobs, View())
      modifies this, table`jobs, table`met
      ensures JobsOk(table.jobs) && JobsMove(old(table.jobs), table.jobs) && ProcessOk(table.jobs, View())
      ensures table.met == old(table.met) + (if old(running) then [] else [Claim(!err, table.clock)])
      ensures old(running) ==> !err
      ensures old(running) || err ==> table.jobs == old(table.jobs) && View() == old(View())
      ensures !old(running) && !err ==>
        var j := NextPending(old(table.jobs), agent, 0);
        if j == |old(table.jobs)| then table.jobs == old(table.jobs) && View() == old(View())
        else table.jobs == Claimed(old(table.jobs), j) && View() == if lost then old(View()) else Protocol.Process(agent, true, {j})
    {
      err := false;
      if running { return; }
      var n := |table.jobs|;
      var j;
      err, j := table.ClaimNext(agent);
      if err || j == n || lost { return; }
      running := true;
      executing := executing + {j};
    }

    method JobDone(table: Table, j: nat)
      requires ProcessOk(table.jobs, View()) && j in executing
      modifies this
      ensures ProcessOk(table.jobs, View()) && View() == Protocol.Process(agent, false, {})
    {
      executing := executing - {j};
      running := false;
    }
  }
}
