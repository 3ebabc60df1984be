/** Safety of the job table over every behavior. */
module ProtocolJobs {
  import opened PlanModel
  import opened TaskRun
  import opened Jobs
  import opened Protocol

  // ---------------------------------------------------------------- what one step may do to a job

  /** The identity of a job never changes and its status only moves up pending < running < terminal. */
  predicate JobMoves(j: Job, j': Job) {
    && j'.plan == j.plan && j'.agent == j.agent && j'.run == j.run && j'.step == j.step && j'.action == j.action
    && Rank(j.status) <= Rank(j'.status)
    && (j.claimed ==> j'.claimed) && (j.succeeded ==> j'.succeeded)
  }

  ghost predicate JobsMove(jobs: seq<Job>, jobs': seq<Job>) {
    |jobs| <= |jobs'| && forall k :: 0 <= k < |jobs| ==> JobMoves(jobs[k], jobs'[k])
  }

  /** A pending job has not been claimed, a success is recorded. */
  ghost predicate JobOk(j: Job) {
    && (j.status.JobPending? ==> !j.claimed)
    && (j.status.JobSuccess? ==> j.succeeded)
  }

  ghost predicate JobsOk(jobs: seq<Job>) {
    forall k :: 0 <= k < |jobs| ==> JobOk(jobs[k])
  }

  /** A waiting handler waits for a job of its own: same plan, run and step. */
  ghost predicate WaitOk(s: State, p: int)
    requires p in s.runs
  {
    var r := s.runs[p];
    && PhaseOk(r.hs, r.ph) && r.id < s.nextRun
    && (r.wait.WaitingFor? ==>
          && r.ph.Executing? && r.hs[r.ph.i].Remote? && r.wait.job < |s.jobs|
          && s.jobs[r.wait.job].plan == p && s.jobs[r.wait.job].run == r.id && s.jobs[r.wait.job].step == r.ph.i
          && r.hs[r.ph.i].action == s.jobs[r.wait.job].action)
  }

  ghost predicate WaitsOk(s: State) {
    && JobsOk(s.jobs)
    && (forall p :: p in s.runs ==> WaitOk(s, p))
    && (forall k :: 0 <= k < |s.jobs| ==> s.jobs[k].run < s.nextRun)
  }

  lemma WorkMoves(s: State, p: int, ev: RunEvent, s': State)
    requires RunNext(s, p, ev, s') && WaitsOk(s)
    ensures WaitsOk(s') && JobsMove(s.jobs, s'.jobs)
  {
    if ev.CreateJob? || ev.CreateJobError? {
      CreateMoves(s, p, ev, s');
    } else if ev.Timeout? {
      TimeoutMoves(s, p, ev, s');
    } else {
      assert s'.jobs == s.jobs;
    }
  }

  lemma CreateMoves(s: State, p: int, ev: RunEvent, s': State)
    requires RunNext(s, p, ev, s') && WaitsOk(s) && (ev.CreateJob? || ev.CreateJobError?)
    ensures WaitsOk(s') && JobsMove(s.jobs, s'.jobs)
  {
  }

  lemma TimeoutMoves(s: State, p: int, ev: RunEvent, s': State)
    requires RunNext(s, p, ev, s') && WaitsOk(s) && ev.Timeout?
    ensures WaitsOk(s') && JobsMove(s.jobs, s'.jobs)
  {
  }

  lemma NextMoves(s: State, a: Action, s': State)
    requires Next(s, a, s') && WaitsOk(s)
    ensures WaitsOk(s') && JobsMove(s.jobs, s'.jobs)
  {
    match a
    case Work(p, ev) => WorkMoves(s, p, ev, s');
    case Claim(q) => ClaimMoves(s, a, s');
    case ClaimLost(agent) => ClaimMoves(s, a, s');
    case _ =>
  }

  lemma ClaimMoves(s: State, a: Action, s': State)
    requires Next(s, a, s') && WaitsOk(s) && (a.Claim? || a.ClaimLost?)
    ensures WaitsOk(s') && JobsMove(s.jobs, s'.jobs)
  {
  }

  lemma BehaviorWaits(ss: seq<State>, acts: seq<Action>, k: nat)
    requires Behavior(ss, acts) && k < |ss|
    ensures WaitsOk(ss[k])
  {
    var j := 0;
    while j < k
      invariant j <= k && WaitsOk(ss[j])
    {
      NextMoves(ss[j], acts[j], ss[j + 1]);
      j := j + 1;
    }
  }

  /** Over any stretch of any behavior no job disappears, changes owner or moves back. */
  lemma JobsOnlyMoveUp(ss: seq<State>, acts: seq<Action>, i: nat, k: nat)
    requires Behavior(ss, acts) && i <= k < |ss|
    ensures JobsMove(ss[i].jobs, ss[k].jobs)
  {
    var j := i;
    while j < k
      invariant i <= j <= k && JobsMove(ss[i].jobs, ss[j].jobs)
    {
      BehaviorWaits(ss, acts, j);
      NextMoves(ss[j], acts[j], ss[j + 1]);
      MovesJoin(ss[i].jobs, ss[j].jobs, ss[j + 1].jobs);
      j := j + 1;
    }
  }

  lemma MovesJoin(a: seq<Job>, b: seq<Job>, c: seq<Job>)
    requires JobsMove(a, b) && JobsMove(b, c)
    ensures JobsMove(a, c)
  {
    forall k | 0 <= k < |a| ensures JobMoves(a[k], c[k]) {
      assert JobMoves(a[k], b[k]) && JobMoves(b[k], c[k]);
    }
  }

  // ---------------------------------------------------------------- terminal jobs that flip

  /** The two steps that overwrite a terminal status with the other one: a contradicting report, and a
      handler that looks at its deadline before it looks at the job. */
  predicate Flips(s: State, a: Action, j: nat)
    requires j < |s.jobs|
  {
    match a
    case Report(i, ok) => i == j && ok != s.jobs[j].status.JobSuccess?
    case Work(p, Timeout(written)) =>
      && written && p in s.runs && s.runs[p].wait.WaitingFor? && s.runs[p].wait.job == j
      && s.jobs[j].status.JobSuccess?
    case _ => false
  }

  lemma NextFlips(s: State, a: Action, s': State, j: nat)
    requires Next(s, a, s') && WaitsOk(s) && j < |s.jobs| && !Open(s.jobs[j])
    ensures j < |s'.jobs| && (s'.jobs[j].status != s.jobs[j].status <==> Flips(s, a, j))
  {
    NextMoves(s, a, s');
  }

  /** A terminal job can flip, and this is exactly when. */
  lemma FlipIff(ss: seq<State>, acts: seq<Action>, k: nat, j: nat)
    requires Behavior(ss, acts) && k < |acts| && j < |ss[k].jobs| && !Open(ss[k].jobs[j])
    ensures j < |ss[k + 1].jobs| && (ss[k + 1].jobs[j].status != ss[k].jobs[j].status <==> Flips(ss[k], acts[k], j))
  {
    BehaviorWaits(ss, acts, k);
    NextFlips(ss[k], acts[k], ss[k + 1], j);
  }

  // ---------------------------------------------------------------- handing out jobs

  datatype Handout = Nothing | Handed(agent: int, job: nat)

  /** The job a claim request takes out of the table. */
  function HandedOut(s: State, a: Action): Handout {
    var agent := match a case Claim(q) => (if q in s.procs then Handed(s.procs[q].agent, 0) else Nothing)
                         case ClaimLost(g) => Handed(g, 0) case _ => Nothing;
    if agent.Nothing? || NextPending(s.jobs, agent.agent, 0) == |s.jobs| then Nothing
    else Handed(agent.agent, NextPending(s.jobs, agent.agent, 0))
  }

  lemma HandoutTakes(s: State, a: Action, s': State)
    requires Next(s, a, s') && HandedOut(s, a).Handed?
    ensures var h := HandedOut(s, a);
            && h.job < |s.jobs| <= |s'.jobs| && s.jobs[h.job].agent == h.agent && s.jobs[h.job].status.JobPending?
            && s'.jobs[h.job].status.JobRunning?
            && forall k :: 0 <= k < h.job ==> s.jobs[k].agent != h.agent || !s.jobs[k].status.JobPending?
  {
  }

  /** The ids handed to one agent strictly increase over any behavior, so no job is handed out twice;
      jobs handed to different agents differ. */
  lemma HandoutsIncrease(ss: seq<State>, acts: seq<Action>, i: nat, k: nat)
    requires Behavior(ss, acts) && i < k < |acts|
    requires HandedOut(ss[i], acts[i]).Handed? && HandedOut(ss[k], acts[k]).Handed?
    ensures var a, b := HandedOut(ss[i], acts[i]), HandedOut(ss[k], acts[k]);
            a.job != b.job && (a.agent == b.agent ==> a.job < b.job)
  {
    var a, b := HandedOut(ss[i], acts[i]), HandedOut(ss[k], acts[k]);
    HandoutTakes(ss[i], acts[i], ss[i + 1]);
    HandoutTakes(ss[k], acts[k], ss[k + 1]);
    JobsOnlyMoveUp(ss, acts, i, k);
    JobsOnlyMoveUp(ss, acts, i + 1, k);
    assert JobMoves(ss[i + 1].jobs[a.job], ss[k].jobs[a.job]);
    assert b.job < |ss[i].jobs| ==> JobMoves(ss[i].jobs[b.job], ss[k].jobs[b.job]);
  }

  /** A job that has left pending is never handed out afterwards; in particular one whose handler timed
      out and wrote the row while it was still pending. */
  lemma SettledNeverHanded(ss: seq<State>, acts: seq<Action>, i: nat, k: nat, job: nat)
    requires Behavior(ss, acts) && i <= k < |acts| && job < |ss[i].jobs| && !ss[i].jobs[job].status.JobPending?
    ensures HandedOut(ss[k], acts[k]).Handed? ==> HandedOut(ss[k], acts[k]).job != job
  {
    JobsOnlyMoveUp(ss, acts, i, k);
    assert JobMoves(ss[i].jobs[job], ss[k].jobs[job]);
    if HandedOut(ss[k], acts[k]).Handed? {
      HandoutTakes(ss[k], acts[k], ss[k + 1]);
    }
  }

  lemma TimedOutNeverHanded(ss: seq<State>, acts: seq<Action>, i: nat, k: nat, p: int)
    requires Behavior(ss, acts) && i < k < |acts| && acts[i] == Work(p, Timeout(true)) && p in ss[i].runs && ss[i].runs[p].wait.WaitingFor?
    ensures HandedOut(ss[k], acts[k]).Handed? ==> HandedOut(ss[k], acts[k]).job != ss[i].runs[p].wait.job
  {
    var job := ss[i].runs[p].wait.job;
    assert Next(ss[i], acts[i], ss[i + 1]);
    assert ss[i + 1].jobs[job].status.JobFailed?;
    SettledNeverHanded(ss, acts, i + 1, k, job);
  }

  // ---------------------------------------------------------------- agent processes

  /** A process executes at most one job, exactly while its flag is set, and only a job claimed for its
      agent; no job is executed by two processes. */
  ghost predicate ProcessesOk(s: State) {
    && (forall q :: q in s.procs ==> ProcessOk(s.jobs, s.procs[q]))
    && (forall q, r :: q in s.procs && r in s.procs && q != r ==> s.procs[q].executing !! s.procs[r].executing)
  }

  ghost predicate ProcessOk(jobs: seq<Job>, c: Process) {
    && (c.running <==> c.executing != {})
    && (forall j :: j in c.executing ==> j < |jobs| && jobs[j].claimed && jobs[j].agent == c.agent)
    && (forall i, j :: i in c.executing && j in c.executing ==> i == j)
  }

  lemma ProcessFrame(jobs: seq<Job>, jobs': seq<Job>, c: Process)
    requires JobsMove(jobs, jobs') && ProcessOk(jobs, c)
    ensures ProcessOk(jobs', c)
  {
    forall j | j in c.executing ensures j < |jobs'| && jobs'[j].claimed && jobs'[j].agent == c.agent {
      assert JobMoves(jobs[j], jobs'[j]);
    }
  }

  lemma ClaimKeepsProcesses(s: State, a: Action, s': State)
    requires Next(s, a, s') && a.Claim? && WaitsOk(s) && ProcessesOk(s)
    ensures ProcessesOk(s')
  {
    NextMoves(s, a, s');
    var j := NextPending(s.jobs, s.procs[a.q].agent, 0);
    forall q | q in s'.procs ensures ProcessOk(s'.jobs, s'.procs[q]) {
      ProcessFrame(s.jobs, s'.jobs, s.procs[q]);
    }
    if j < |s.jobs| {
      assert JobOk(s.jobs[j]);
      assert forall q :: q in s.procs ==> j !in s.procs[q].executing;
    }
  }

  lemma OthersKeepProcesses(s: State, a: Action, s': State)
    requires Next(s, a, s') && !a.Claim? && JobsMove(s.jobs, s'.jobs) && ProcessesOk(s)
    ensures ProcessesOk(s')
  {
    forall q | q in s'.procs ensures ProcessOk(s'.jobs, s'.procs[q]) {
      if q in s.procs { ProcessFrame(s.jobs, s'.jobs, s.procs[q]); }
    }
  }

  lemma NextKeepsProcesses(s: State, a: Action, s': State)
    requires Next(s, a, s') && WaitsOk(s) && ProcessesOk(s)
    ensures ProcessesOk(s')
  {
    NextMoves(s, a, s');
    if a.Claim? {
      ClaimKeepsProcesses(s, a, s');
    } else {
      OthersKeepProcesses(s, a, s');
    }
  }

  lemma {:induction false} OneJobPerProcess(ss: seq<State>, acts: seq<Action>, k: nat)
    requires Behavior(ss, acts) && k < |ss|
    ensures ProcessesOk(ss[k])
  {
    if k > 0 {
      OneJobPerProcess(ss, acts, k - 1);
      BehaviorWaits(ss, acts, k - 1);
      NextKeepsProcesses(ss[k - 1], acts[k - 1], ss[k]);
    }
  }

  // ---------------------------------------------------------------- open jobs

  /** An open job is an orphan or the one its plan's run is waiting for. */
  ghost predicate OpenOk(s: State) {
    forall k :: 0 <= k < |s.jobs| && Open(s.jobs[k]) ==> k in s.orphans || Awaited(s, k)
  }

  predicate Awaited(s: State, k: nat)
    requires k < |s.jobs|
  {
    var p := s.jobs[k].plan;
    p in s.runs && s.runs[p].wait.WaitingFor? && s.runs[p].wait.job == k
  }

  lemma WorkKeepsOpen(s: State, p: int, ev: RunEvent, s': State)
    requires RunNext(s, p, ev, s') && WaitsOk(s) && OpenOk(s)
    ensures OpenOk(s')
  {
    WorkMoves(s, p, ev, s');
    forall k | 0 <= k < |s'.jobs| && Open(s'.jobs[k]) ensures k in s'.orphans || Awaited(s', k) {
      if k < |s.jobs| { assert JobMoves(s.jobs[k], s'.jobs[k]); }
    }
  }

  lemma NextKeepsOpen(s: State, a: Action, s': State)
    requires Next(s, a, s') && WaitsOk(s) && OpenOk(s)
    ensures OpenOk(s')
  {
    if a.Work? {
      WorkKeepsOpen(s, a.p, a.ev, s');
    } else {
      NextMoves(s, a, s');
      forall k | 0 <= k < |s'.jobs| && Open(s'.jobs[k]) ensures k in s'.orphans || Awaited(s', k) {
        assert JobMoves(s.jobs[k], s'.jobs[k]);
      }
    }
  }

  /** An action that can lose the handler waiting for a job: a crash or a storage error at the job table. */
  predicate Orphans(a: Action) {
    a.Crash? || (a.Work? && (a.ev.PollError? || (a.ev.CreateJobError? && a.ev.inserted) || (a.ev.Timeout? && !a.ev.written)))
  }

  lemma {:induction false} BehaviorOpen(ss: seq<State>, acts: seq<Action>, k: nat)
    requires Behavior(ss, acts) && k < |ss|
    ensures OpenOk(ss[k])
    ensures (forall j :: 0 <= j < k ==> !Orphans(acts[j])) ==> ss[k].orphans == {}
  {
    if k > 0 {
      BehaviorOpen(ss, acts, k - 1);
      BehaviorWaits(ss, acts, k - 1);
      NextKeepsOpen(ss[k - 1], acts[k - 1], ss[k]);
      if !Orphans(acts[k - 1]) { OrphansStay(ss[k - 1], acts[k - 1], ss[k]); }
    }
  }

  lemma OrphansStay(s: State, a: Action, s': State)
    requires Next(s, a, s') && !Orphans(a)
    ensures s'.orphans == s.orphans
  {
  }

  /** In any interleaving of workers, agents, timeouts and reports, two open jobs of one plan mean that
      one of them was orphaned; with no crash and no job-table error a plan has at most one. */
  lemma OneOpenJob(ss: seq<State>, acts: seq<Action>, k: nat, i: nat, j: nat)
    requires Behavior(ss, acts) && k < |ss| && i < j < |ss[k].jobs|
    requires Open(ss[k].jobs[i]) && Open(ss[k].jobs[j]) && ss[k].jobs[i].plan == ss[k].jobs[j].plan
    ensures i in ss[k].orphans || j in ss[k].orphans
    ensures exists m :: 0 <= m < k && Orphans(acts[m])
  {
    BehaviorOpen(ss, acts, k);
  }

  predicate OpenOf(j: Job, plan: int) {
    Open(j) && j.plan == plan
  }

  /** Nobody waits for an orphan. */
  ghost predicate OrphansAlone(s: State) {
    forall k :: k in s.orphans ==> k < |s.jobs| && !Awaited(s, k)
  }

  lemma NextKeepsAlone(s: State, a: Action, s': State, k: nat)
    requires Next(s, a, s') && WaitsOk(s) && OrphansAlone(s) && k in s'.orphans
    ensures k < |s'.jobs| && !Awaited(s', k)
  {
    NextMoves(s, a, s');
    if k < |s.jobs| { assert JobMoves(s.jobs[k], s'.jobs[k]); }
    if a.Work? { WorkKeepsAlone(s, a.p, a.ev, s', k); }
  }

  lemma WorkKeepsAlone(s: State, p: int, ev: RunEvent, s': State, k: nat)
    requires RunNext(s, p, ev, s') && WaitsOk(s) && OrphansAlone(s) && k in s'.orphans
    requires k < |s.jobs| ==> k < |s'.jobs| && s'.jobs[k].plan == s.jobs[k].plan
    ensures k < |s'.jobs| && !Awaited(s', k)
  {
    assert WaitOk(s, p);
  }

  lemma BehaviorAlone(ss: seq<State>, acts: seq<Action>, k: nat)
    requires Behavior(ss, acts) && k < |ss|
    ensures OrphansAlone(ss[k])
  {
    var j := 0;
    while j < k
      invariant j <= k && OrphansAlone(ss[j])
    {
      BehaviorWaits(ss, acts, j);
      var s' := ss[j + 1];
      forall i | i in s'.orphans ensures i < |s'.jobs| && !Awaited(s', i) {
        NextKeepsAlone(ss[j], acts[j], s', i);
      }
      j := j + 1;
    }
  }

  /** An open job is the one its plan's run waits for or an orphan, and never both. So a plan has a second
      open job exactly when it has an open orphan. */
  lemma OpenIff(ss: seq<State>, acts: seq<Action>, k: nat, j: nat)
    requires Behavior(ss, acts) && k < |ss| && j < |ss[k].jobs| && Open(ss[k].jobs[j])
    ensures Awaited(ss[k], j) <==> j !in ss[k].orphans
    ensures Awaited(ss[k], j) ==> forall i :: 0 <= i < |ss[k].jobs| && i != j && OpenOf(ss[k].jobs[i], ss[k].jobs[j].plan) ==>
              i in ss[k].orphans
  {
    BehaviorOpen(ss, acts, k);
    BehaviorAlone(ss, acts, k);
  }

  // ---------------------------------------------------------------- step k+1 only after step k succeeded

  /** Some job below `bound` of this plan, run and step has been in status success. */
  ghost predicate StepDone(jobs: seq<Job>, bound: nat, plan: int, run: nat, step: int) {
    exists k :: 0 <= k < bound && k < |jobs| && DoneAs(jobs[k], plan, run, step)
  }

  predicate DoneAs(j: Job, plan: int, run: nat, step: int) {
    j.plan == plan && j.run == run && j.step == step && j.succeeded
  }

  lemma StepDoneStays(jobs: seq<Job>, jobs': seq<Job>, b: nat, b': nat, plan: int, run: nat, step: int)
    requires JobsMove(jobs, jobs') && StepDone(jobs, b, plan, run, step) && b <= b'
    ensures StepDone(jobs', b', plan, run, step)
  {
    var k :| 0 <= k < b && k < |jobs| && DoneAs(jobs[k], plan, run, step);
    assert JobMoves(jobs[k], jobs'[k]);
    assert DoneAs(jobs'[k], plan, run, step);
  }

  /** The first handler is local and the others are all local or all remote. */
  ghost predicate OneKind(hs: seq<Handler>) {
    && |hs| > 1 && hs[0].Local?
    && forall k :: 0 < k < |hs| ==> hs[k].Remote? == hs[1].Remote?
  }

  lemma BuildersOneKind(mode: ExecMode)
    ensures OneKind(BuildHandlers(mode))
  {
  }

  /** What a remote run has behind it: the step before the current one, or the current one once it ended well. */
  ghost predicate RunGate(s: State, p: int)
    requires p in s.runs
  {
    var r := s.runs[p];
    && PhaseOk(r.hs, r.ph) && OneKind(r.hs)
    && (r.hs[1].Remote? ==>
          match r.ph
          case Starting(i) => i >= 2 ==> StepDone(s.jobs, |s.jobs|, p, r.id, i - 1)
          case Executing(i) => i >= 2 ==> StepDone(s.jobs, |s.jobs|, p, r.id, i - 1)
          case Ending(i, ok) => i >= 1 && ok ==> StepDone(s.jobs, |s.jobs|, p, r.id, i)
          case _ => true)
  }

  ghost predicate JobGate(jobs: seq<Job>, k: nat)
    requires k < |jobs|
  {
    jobs[k].step >= 1 && (jobs[k].step >= 2 ==> StepDone(jobs, k, jobs[k].plan, jobs[k].run, jobs[k].step - 1))
  }

  ghost predicate GateInv(s: State) {
    && (forall p :: p in s.runs ==> RunGate(s, p))
    && (forall k :: 0 <= k < |s.jobs| ==> JobGate(s.jobs, k))
  }

  lemma RunGateFrame(s: State, s': State, p: int)
    requires p in s.runs && p in s'.runs && s.runs[p] == s'.runs[p] && JobsMove(s.jobs, s'.jobs) && RunGate(s, p)
    ensures RunGate(s', p)
  {
    var r := s.runs[p];
    if r.hs[1].Remote? && (r.ph.Starting? || r.ph.Executing?) && r.ph.i >= 2 {
      StepDoneStays(s.jobs, s'.jobs, |s.jobs|, |s'.jobs|, p, r.id, r.ph.i - 1);
    } else if r.hs[1].Remote? && r.ph.Ending? && r.ph.i >= 1 && r.ph.ok {
      StepDoneStays(s.jobs, s'.jobs, |s.jobs|, |s'.jobs|, p, r.id, r.ph.i);
    }
  }

  lemma JobGateFrame(jobs: seq<Job>, jobs': seq<Job>, k: nat)
    requires JobsMove(jobs, jobs') && k < |jobs| && JobGate(jobs, k)
    ensures JobGate(jobs', k)
  {
    assert JobMoves(jobs[k], jobs'[k]);
    if jobs[k].step >= 2 {
      StepDoneStays(jobs, jobs', k, k, jobs[k].plan, jobs[k].run, jobs[k].step - 1);
    }
  }

  lemma WorkKeepsRunGate(s: State, p: int, ev: RunEvent, s': State)
    requires RunNext(s, p, ev, s') && WaitsOk(s) && RunGate(s, p) && p in s'.runs
    ensures RunGate(s', p)
  {
    WorkMoves(s, p, ev, s');
    var r := s.runs[p];
    match ev
    case CreateJob =>
      if r.ph.i >= 2 { StepDoneStays(s.jobs, s'.jobs, |s.jobs|, |s'.jobs|, p, r.id, r.ph.i - 1); }
    case PollDone(hookOk) =>
      if s'.runs[p].ph.ok {
        assert JobOk(s.jobs[r.wait.job]);
        assert DoneAs(s'.jobs[r.wait.job], p, r.id, r.ph.i);
      }
    case _ =>
  }

  lemma WorkKeepsGate(s: State, p: int, ev: RunEvent, s': State)
    requires RunNext(s, p, ev, s') && WaitsOk(s) && GateInv(s)
    ensures GateInv(s')
  {
    WorkMoves(s, p, ev, s');
    forall q | q in s'.runs ensures RunGate(s', q) {
      if q == p { WorkKeepsRunGate(s, p, ev, s'); } else { RunGateFrame(s, s', q); }
    }
    forall k | 0 <= k < |s'.jobs| ensures JobGate(s'.jobs, k) {
      if k < |s.jobs| {
        JobGateFrame(s.jobs, s'.jobs, k);
      } else {
        var r := s.runs[p];
        if r.ph.i >= 2 { StepDoneStays(s.jobs, s'.jobs, k, k, p, r.id, r.ph.i - 1); }
      }
    }
  }

  lemma NextKeepsGate(s: State, a: Action, s': State)
    requires Next(s, a, s') && WaitsOk(s) && GateInv(s)
    ensures GateInv(s')
  {
    if a.Work? {
      WorkKeepsGate(s, a.p, a.ev, s');
    } else {
      NextMoves(s, a, s');
      forall q | q in s'.runs ensures RunGate(s', q) {
        if q in s.runs && s.runs[q] == s'.runs[q] { RunGateFrame(s, s', q); } else { BuildersOneKind(a.mode); }
      }
      forall k | 0 <= k < |s'.jobs| ensures JobGate(s'.jobs, k) {
        JobGateFrame(s.jobs, s'.jobs, k);
      }
    }
  }

  lemma {:induction false} BehaviorGate(ss: seq<State>, acts: seq<Action>, k: nat)
    requires Behavior(ss, acts) && k < |ss|
    ensures GateInv(ss[k])
  {
    if k > 0 {
      BehaviorGate(ss, acts, k - 1);
      BehaviorWaits(ss, acts, k - 1);
      NextKeepsGate(ss[k - 1], acts[k - 1], ss[k]);
    }
  }

  lemma NewlySucceeded(s: State, a: Action, s': State, j: nat)
    requires Next(s, a, s') && WaitsOk(s) && j < |s'.jobs| && s'.jobs[j].succeeded
    ensures s'.jobs[j].status.JobSuccess? || (j < |s.jobs| && s.jobs[j].succeeded)
  {
  }

  /** A recorded success was a real status at some state no later. */
  lemma {:induction false} SucceededOnce(ss: seq<State>, acts: seq<Action>, k: nat, j: nat) returns (m: nat)
    requires Behavior(ss, acts) && k < |ss| && j < |ss[k].jobs| && ss[k].jobs[j].succeeded
    ensures m <= k && j < |ss[m].jobs| && ss[m].jobs[j].status.JobSuccess?
  {
    if ss[k].jobs[j].status.JobSuccess? { return k; }
    assert k > 0;
    BehaviorWaits(ss, acts, k - 1);
    NewlySucceeded(ss[k - 1], acts[k - 1], ss[k], j);
    m := SucceededOnce(ss, acts, k - 1, j);
  }

  /** The state just before a job entered the table. */
  lemma {:induction false} CreationPoint(ss: seq<State>, acts: seq<Action>, k: nat, j: nat) returns (c: nat)
    requires Behavior(ss, acts) && k < |ss| && j < |ss[k].jobs|
    ensures c < k && |ss[c].jobs| == j && |ss[c + 1].jobs| == j + 1
  {
    assert k > 0;
    BehaviorWaits(ss, acts, k - 1);
    OneJobAtATime(ss[k - 1], acts[k - 1], ss[k]);
    if j < |ss[k - 1].jobs| { c := CreationPoint(ss, acts, k - 1, j); } else { c := k - 1; }
  }

  lemma OneJobAtATime(s: State, a: Action, s': State)
    requires Next(s, a, s') && WaitsOk(s)
    ensures |s.jobs| <= |s'.jobs| <= |s.jobs| + 1
  {
  }

  lemma JobMovesUp(ss: seq<State>, acts: seq<Action>, i: nat, k: nat, j: nat)
    requires Behavior(ss, acts) && i <= k < |ss| && j < |ss[i].jobs|
    ensures j < |ss[k].jobs| && JobMoves(ss[i].jobs[j], ss[k].jobs[j])
  {
    JobsOnlyMoveUp(ss, acts, i, k);
  }

  /** The gate: a job of step n+1 is in the table only if, in a state before it was created, a job of
      step n of the same plan and the same run was in status success. No assumption on crashes, errors,
      timeouts or reports. */
  lemma StepsInOrder(ss: seq<State>, acts: seq<Action>, k: nat, j: nat) returns (m: nat, i: nat)
    requires Behavior(ss, acts) && k < |ss| && j < |ss[k].jobs| && ss[k].jobs[j].step >= 2
    ensures m < k && i < j && |ss[m].jobs| <= j && i < |ss[m].jobs|
    ensures ss[m].jobs[i].status.JobSuccess? && ss[m].jobs[i].plan == ss[k].jobs[j].plan
    ensures ss[m].jobs[i].run == ss[k].jobs[j].run && ss[m].jobs[i].step == ss[k].jobs[j].step - 1
  {
    var c := CreationPoint(ss, acts, k, j);
    JobMovesUp(ss, acts, c + 1, k, j);
    i := DoneBeforeCreation(ss, acts, c, j);
    m := SucceededOnce(ss, acts, c, i);
    JobMovesUp(ss, acts, m, c, i);
    JobsOnlyMoveUp(ss, acts, m, c);
  }

  /** What the gate says at the step that creates a job. */
  lemma DoneBeforeCreation(ss: seq<State>, acts: seq<Action>, c: nat, j: nat) returns (i: nat)
    requires Behavior(ss, acts) && c < |acts| && |ss[c].jobs| == j && |ss[c + 1].jobs| == j + 1 && ss[c + 1].jobs[j].step >= 2
    ensures i < j && DoneAs(ss[c].jobs[i], ss[c + 1].jobs[j].plan, ss[c + 1].jobs[j].run, ss[c + 1].jobs[j].step - 1)
  {
    BehaviorGate(ss, acts, c + 1);
    BehaviorWaits(ss, acts, c);
    JobsOnlyMoveUp(ss, acts, c, c + 1);
    i := DoneAtCreation(ss[c], acts[c], ss[c + 1], j);
  }

  lemma DoneAtCreation(s: State, a: Action, s': State, j: nat) returns (i: nat)
    requires Next(s, a, s') && WaitsOk(s) && GateInv(s') && JobsMove(s.jobs, s'.jobs)
    requires |s.jobs| == j && |s'.jobs| == j + 1 && s'.jobs[j].step >= 2
    ensures i < j && DoneAs(s.jobs[i], s'.jobs[j].plan, s'.jobs[j].run, s'.jobs[j].step - 1)
  {
    assert JobGate(s'.jobs, j);
    i :| 0 <= i < j && DoneAs(s'.jobs[i], s'.jobs[j].plan, s'.jobs[j].run, s'.jobs[j].step - 1);
    CreationKeepsSucceeded(s, a, s', i);
    assert JobMoves(s.jobs[i], s'.jobs[i]);
  }

  lemma CreationKeepsSucceeded(s: State, a: Action, s': State, i: nat)
    requires Next(s, a, s') && WaitsOk(s) && |s'.jobs| == |s.jobs| + 1 && i < |s.jobs| && s'.jobs[i].succeeded
    ensures s.jobs[i].succeeded
  {
  }

  predicate Known(hs: seq<Handler>) {
    hs == BuildAgentHandlers() || hs == BuildLocalHandlers()
  }

  predicate StepAction(j: Job) {
    j.step < 8 && j.action == BuildAgentHandlers()[j.step].action
  }

  /** Every job carries the action of its step in the agent's handler list. */
  ghost predicate ActionInv(s: State) {
    && (forall p :: p in s.runs ==> Known(s.runs[p].hs))
    && (forall k :: 0 <= k < |s.jobs| ==> StepAction(s.jobs[k]))
  }

  lemma RemoteAction(hs: seq<Handler>, i: nat)
    requires Known(hs) && i < |hs| && hs[i].Remote?
    ensures i < 8 && hs[i].action == BuildAgentHandlers()[i].action
  {
  }

  lemma NextKeepsKnown(s: State, a: Action, s': State)
    requires Next(s, a, s') && forall p :: p in s.runs ==> Known(s.runs[p].hs)
    ensures forall p :: p in s'.runs ==> Known(s'.runs[p].hs)
  {
    if a.Dequeue? { assert Known(BuildHandlers(a.mode)); }
  }

  /** A job that is new comes from a remote handler of a run. */
  lemma NewFromRun(s: State, a: Action, s': State, k: nat)
    requires Next(s, a, s') && |s.jobs| <= k < |s'.jobs|
    ensures a.Work? && a.p in s.runs && PhaseOk(s.runs[a.p].hs, s.runs[a.p].ph)
    ensures s.runs[a.p].ph.Executing? && s.runs[a.p].hs[s.runs[a.p].ph.i].Remote? && s'.jobs[k] == NewJob(s, a.p)
  {
  }

  lemma NextKeepsActions(s: State, a: Action, s': State)
    requires Next(s, a, s') && WaitsOk(s) && ActionInv(s)
    ensures ActionInv(s')
  {
    NextKeepsKnown(s, a, s');
    NextMoves(s, a, s');
    forall k | 0 <= k < |s'.jobs| ensures StepAction(s'.jobs[k]) {
      if k < |s.jobs| {
        assert JobMoves(s.jobs[k], s'.jobs[k]) && StepAction(s.jobs[k]);
      } else {
        NewFromRun(s, a, s', k);
        RemoteAction(s.runs[a.p].hs, s.runs[a.p].ph.i);
      }
    }
  }

  lemma {:induction false} BehaviorActions(ss: seq<State>, acts: seq<Action>, k: nat)
    requires Behavior(ss, acts) && k < |ss|
    ensures ActionInv(ss[k])
  {
    if k > 0 {
      BehaviorActions(ss, acts, k - 1);
      BehaviorWaits(ss, acts, k - 1);
      NextKeepsActions(ss[k - 1], acts[k - 1], ss[k]);
    }
  }

  /** No agent is handed a deploy-node job of a plan before a deploy-master job of the same plan and run
      was reported successful. */
  lemma NodeAfterMaster(ss: seq<State>, acts: seq<Action>, k: nat) returns (m: nat, i: nat)
    requires Behavior(ss, acts) && k < |acts| && HandedOut(ss[k], acts[k]).Handed?
    requires ss[k].jobs[HandedOut(ss[k], acts[k]).job].action == "deploy-node"
    ensures m < k && i < |ss[m].jobs| && ss[m].jobs[i].status.JobSuccess? && ss[m].jobs[i].action == "deploy-master"
    ensures ss[m].jobs[i].plan == ss[k].jobs[HandedOut(ss[k], acts[k]).job].plan
    ensures ss[m].jobs[i].run == ss[k].jobs[HandedOut(ss[k], acts[k]).job].run
  {
    var j := HandedOut(ss[k], acts[k]).job;
    BehaviorActions(ss, acts, k);
    OnlyNodeStep(ss[k].jobs[j].step);
    m, i := StepsInOrder(ss, acts, k, j);
    BehaviorActions(ss, acts, m);
  }

  lemma OnlyNodeStep(step: nat)
    requires step < 8 && BuildAgentHandlers()[step].action == "deploy-node"
    ensures step == 5 && BuildAgentHandlers()[4].action == "deploy-master"
  {
    assert |"deploy-node"| == 11 && |"prechecks"| == 9 && |"pull_image"| == 10 && |"render"| == 6;
    assert |"bootstrap-servers"| == 17 && |"deploy-master"| == 13 && |"register"| == 8 && |"apply"| == 5;
  }
}
