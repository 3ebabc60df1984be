/** Plans, workers, jobs and agents as one transition system. A step is one database write together with the
    reads it depends on, a message, a clock tick, a crash, or part of the restart pass. */
module Protocol {
  import opened PlanModel
  import opened StepOrder
  import opened TaskRun
  import opened PlanWorker
  import opened Jobs

  /** What the handler of a remote step is waiting for. */
  datatype Wait = NotWaiting | WaitingFor(job: nat, deadline: nat)

  /** A plan being processed by some worker. The work queue never hands one plan to two workers, so a
      plan has at most one; `id` numbers the runs. */
  datatype Run = Run(id: nat, hs: seq<Handler>, agent: int, ph: Phase, wait: Wait)

  datatype Recovery = Listing | Correcting(todo: set<string>, updated: bool) | Passed

  datatype Server = Down | Recovering(left: map<int, Recovery>) | Up

  /** One agent process: its `running` flag and the jobs its goroutines are executing. */
  datatype Process = Process(agent: int, running: bool, executing: set<nat>)

  datatype State = State(
    db: map<int, Tables>, jobs: seq<Job>, queue: set<int>, runs: map<int, Run>, server: Server,
    procs: map<int, Process>, clock: nat, nextRun: nat,
    starting: set<int>, // start requests that have passed their check and not yet reached the queue
    orphans: set<nat>) // jobs whose waiting handler was lost to a crash or a storage error

  datatype RunEvent =
    | Access                        // one access of `syncTasks`
    | RunLocal(ok: bool)
    | CreateJob
    | CreateJobError(inserted: bool)
    | PollDone(hookOk: bool)        // the poll reads a terminal job
    | PollError
    | Timeout(written: bool)        // the deadline passed; `written` if the update went through
    | Abort(written: bool)          // a storage error in `syncTasks` itself; `written` if the write it
                                    // reports, or whose row it could not read back, went through
    | Release                       // `syncHandler` returned, the queue entry is done

  datatype Action =
    | Work(p: int, ev: RunEvent)
    | CreatePlan(p: int)
    | CheckStart(p: int)            // a start request sees that the plan is not running
    | Enqueue(p: int, last: bool)   // and puts it into the queue, maybe much later; `last` of its kind
    | Skip(p: int)                  // dequeued, but the task data or the image could not be read
    | Dequeue(p: int, mode: ExecMode, agent: int)
    | Claim(q: int)
    | ClaimLost(agent: int)         // the server hands out a job, the answer never arrives
    | Report(job: nat, ok: bool)    // late, repeated and contradicting reports included
    | JobExit(q: int, job: nat)
    | NewProcess(q: int, agent: int)
    | Tick(seconds: nat)
    | Crash
    | Boot
    | ListRows(p: int)
    | CorrectRow(p: int, name: string)
    | WritePlan(p: int)
    | LoseError(p: int)             // a storage error ends the pass over p, its report is overwritten
    | BootDone

  ghost predicate Init(s: State) {
    s == State(map[], [], {}, map[], Up, map[], 0, 0, {}, {})
  }

  ghost predicate RunNext(s: State, p: int, ev: RunEvent, s': State) {
    && s.server.Up? && p in s.runs && p in s.db && PhaseOk(s.runs[p].hs, s.runs[p].ph)
    && var r, t := s.runs[p], s.db[p];
       match ev
       case Access =>
         && !r.ph.Executing? && !r.ph.Finished?
         && var l := Step(r.hs, Point(t, r.ph), true);
            s' == s.(db := s.db[p := l.t], runs := s.runs[p := r.(ph := l.ph)])
       case RunLocal(ok) =>
         && r.ph.Executing? && r.hs[r.ph.i].Local?
         && s' == s.(runs := s.runs[p := r.(ph := Ending(r.ph.i, ok))])
       case CreateJob =>
         && r.ph.Executing? && r.hs[r.ph.i].Remote? && r.wait.NotWaiting?
         && s' == s.(jobs := s.jobs + [NewJob(s, p)],
                     runs := s.runs[p := r.(wait := WaitingFor(|s.jobs|, s.clock + 60 * r.hs[r.ph.i].minutes))])
       case CreateJobError(inserted) =>
         && r.ph.Executing? && r.hs[r.ph.i].Remote? && r.wait.NotWaiting?
         && s' == s.(jobs := if inserted then s.jobs + [NewJob(s, p)] else s.jobs,
                     orphans := if inserted then s.orphans + {|s.jobs|} else s.orphans,
                     runs := s.runs[p := r.(ph := Ending(r.ph.i, false))])
       case PollDone(hookOk) =>
         && r.ph.Executing? && r.wait.WaitingFor? && r.wait.job < |s.jobs| && !Open(s.jobs[r.wait.job])
         && (r.hs[r.ph.i].Remote? && !r.hs[r.ph.i].kind.FetchKubeconfig? ==> hookOk)
         && s' == s.(runs := s.runs[p := r.(ph := Ending(r.ph.i, s.jobs[r.wait.job].status.JobSuccess? && hookOk),
                                            wait := NotWaiting)])
       case PollError =>
         && r.ph.Executing? && r.wait.WaitingFor?
         && s' == s.(orphans := s.orphans + {r.wait.job},
                     runs := s.runs[p := r.(ph := Ending(r.ph.i, false), wait := NotWaiting)])
       case Timeout(written) =>
         && r.ph.Executing? && r.wait.WaitingFor? && r.wait.job < |s.jobs| && s.clock > r.wait.deadline
         && s' == s.(jobs := if written then SetStatus(s.jobs, r.wait.job, JobFailed) else s.jobs,
                     orphans := if written then s.orphans else s.orphans + {r.wait.job},
                     runs := s.runs[p := r.(ph := Ending(r.ph.i, false), wait := NotWaiting)])
       case Abort(written) =>
         && !r.ph.Executing? && !r.ph.Finished?
         && s' == s.(db := if written then s.db[p := Step(r.hs, Point(t, r.ph), true).t] else s.db,
                     runs := s.runs[p := r.(ph := Finished(StorageError))])
       case Release => r.ph.Finished? && s' == s.(runs := s.runs - {p})
  }

  function NewJob(s: State, p: int): Job
    requires p in s.runs && s.runs[p].ph.Executing? && PhaseOk(s.runs[p].hs, s.runs[p].ph)
  {
    var r := s.runs[p];
    Job(p, r.agent, r.id, r.ph.i, r.hs[r.ph.i].action, JobPending, false, false)
  }

  ghost predicate Next(s: State, a: Action, s': State) {
    match a
    case Work(p, ev) => RunNext(s, p, ev, s')
    case CreatePlan(p) => s.server.Up? && p !in s.db && s' == s.(db := s.db[p := Tables(UnStart, map[])])
    case CheckStart(p) =>
      s.server.Up? && p in s.db && !IsRunning(s.db[p]) && s' == s.(starting := s.starting + {p})
    case Enqueue(p, last) =>
      && s.server.Up? && p in s.starting
      && s' == s.(queue := s.queue + {p}, starting := if last then s.starting - {p} else s.starting)
    case Skip(p) => s.server.Up? && p in s.queue && p !in s.runs && s' == s.(queue := s.queue - {p})
    case Dequeue(p, mode, agent) =>
      && s.server.Up? && p in s.queue && p !in s.runs && p in s.db
      && s' == s.(queue := s.queue - {p}, nextRun := s.nextRun + 1,
                  runs := s.runs[p := Run(s.nextRun, BuildHandlers(mode), agent, Creating(0), NotWaiting)])
    case Claim(q) =>
      && s.server.Up? && q in s.procs && !s.procs[q].running
      && var j := NextPending(s.jobs, s.procs[q].agent, 0);
         s' == if j == |s.jobs| then s
               else s.(jobs := Claimed(s.jobs, j),
                       procs := s.procs[q := s.procs[q].(running := true, executing := s.procs[q].executing + {j})])
    case ClaimLost(agent) =>
      && s.server.Up?
      && var j := NextPending(s.jobs, agent, 0);
         s' == if j == |s.jobs| then s else s.(jobs := Claimed(s.jobs, j))
    case Report(j, ok) =>
      && s.server.Up? && j < |s.jobs| && s.jobs[j].claimed
      && s' == s.(jobs := SetStatus(s.jobs, j, if ok then JobSuccess else JobFailed))
    case JobExit(q, j) =>
      && q in s.procs && j in s.procs[q].executing
      && s' == s.(procs := s.procs[q := s.procs[q].(running := false, executing := s.procs[q].executing - {j})])
    case NewProcess(q, agent) => s' == s.(procs := s.procs[q := Process(agent, false, {})])
    case Tick(d) => s' == s.(clock := s.clock + d)
    case Crash =>
      s' == s.(queue := {}, starting := {}, runs := map[], server := Down,
               orphans := s.orphans + set j | 0 <= j < |s.jobs| && Open(s.jobs[j]))
    case Boot => s.server.Down? && s' == s.(server := Recovering(map p | p in s.db :: Listing))
    case ListRows(p) =>
      && s.server.Recovering? && p in s.server.left && s.server.left[p].Listing? && p in s.db
      && s' == s.(server := Recovering(s.server.left[p := Correcting(RunningRows(s.db[p]), false)]))
    case CorrectRow(p, n) =>
      && s.server.Recovering? && p in s.server.left && s.server.left[p].Correcting? && n in s.server.left[p].todo
      && p in s.db && n in s.db[p].rows
      && s' == s.(db := s.db[p := SetRow(s.db[p], n, Failed, FailedStep)],
                  server := Recovering(s.server.left[p := Correcting(s.server.left[p].todo - {n}, true)]))
    case WritePlan(p) =>
      && s.server.Recovering? && p in s.server.left && s.server.left[p].Correcting? && s.server.left[p].todo == {} && p in s.db
      && s' == s.(db := if s.server.left[p].updated then s.db[p := s.db[p].(plan := Failed)] else s.db,
                  server := Recovering(s.server.left[p := Passed]))
    case LoseError(p) =>
      && s.server.Recovering? && p in s.server.left && !s.server.left[p].Passed?
      && s' == s.(server := Recovering(s.server.left[p := Passed]))
    case BootDone =>
      && s.server.Recovering? && (forall p :: p in s.server.left ==> s.server.left[p].Passed?)
      && s' == s.(server := Up)
  }

  /** A finite run of the system: `ss[k + 1]` follows from `ss[k]` by action `acts[k]`. */
  ghost predicate Behavior(ss: seq<State>, acts: seq<Action>) {
    && |ss| == |acts| + 1 && Init(ss[0])
    && forall k :: 0 <= k < |acts| ==> Next(ss[k], acts[k], ss[k + 1])
  }
}
