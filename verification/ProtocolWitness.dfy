/** Behaviors that show what can go wrong: a terminal job that flips, and a plan with two open jobs. */
module ProtocolWitness {
  import opened PlanModel
  import opened TaskRun
  import opened Jobs
  import opened Protocol
  import opened ProtocolJobs

  /** A behavior under construction, by its last state. */
  ghost predicate Ends(ss: seq<State>, acts: seq<Action>, s: State) {
    Behavior(ss, acts) && ss[|acts|] == s
  }

  lemma Append(ss: seq<State>, acts: seq<Action>, s: State, a: Action, s': State) returns (ss': seq<State>, acts': seq<Action>)
    requires Ends(ss, acts, s) && Next(s, a, s')
    ensures ss' == ss + [s'] && acts' == acts + [a] && Ends(ss', acts', s')
  {
    ss', acts' := ss + [s'], acts + [a];
    forall k | 0 <= k < |acts'| ensures Next(ss'[k], acts'[k], ss'[k + 1]) {
      if k < |acts| { assert Next(ss[k], acts[k], ss[k + 1]); }
    }
  }

  /** The state with new tables and a new phase for plan p. */
  function At(s: State, p: int, t: Tables, ph: Phase): State
    requires p in s.runs
  {
    s.(db := s.db[p := t], runs := s.runs[p := s.runs[p].(ph := ph)])
  }

  lemma AtTwice(s: State, p: int, t: Tables, ph: Phase, t': Tables, ph': Phase)
    requires p in s.runs
    ensures At(At(s, p, t, ph), p, t', ph') == At(s, p, t', ph')
  {
    assert s.db[p := t][p := t'] == s.db[p := t'];
    assert s.runs[p := s.runs[p].(ph := ph)][p := s.runs[p].(ph := ph')] == s.runs[p := s.runs[p].(ph := ph')];
  }

  /** One access of the run, which stands at `t` and `ph` in a state that began as `s`. */
  lemma DoAccess(ss: seq<State>, acts: seq<Action>, s: State, p: int, t: Tables, ph: Phase)
    returns (ss': seq<State>, acts': seq<Action>)
    requires p in s.runs && s.server.Up? && PhaseOk(s.runs[p].hs, ph) && !ph.Executing? && !ph.Finished?
    requires Ends(ss, acts, At(s, p, t, ph))
    ensures var l := Step(s.runs[p].hs, Point(t, ph), true); Ends(ss', acts', At(s, p, l.t, l.ph))
  {
    var l := Step(s.runs[p].hs, Point(t, ph), true);
    AtTwice(s, p, t, ph, l.t, l.ph);
    ss', acts' := Append(ss, acts, At(s, p, t, ph), Work(p, Access), At(s, p, l.t, l.ph));
  }

  lemma DoLocal(ss: seq<State>, acts: seq<Action>, s: State, p: int, t: Tables, i: nat)
    returns (ss': seq<State>, acts': seq<Action>)
    requires p in s.runs && s.server.Up? && i < |s.runs[p].hs| && s.runs[p].hs[i].Local?
    requires Ends(ss, acts, At(s, p, t, Executing(i)))
    ensures Ends(ss', acts', At(s, p, t, Ending(i, true)))
  {
    AtTwice(s, p, t, Executing(i), t, Ending(i, true));
    ss', acts' := Append(ss, acts, At(s, p, t, Executing(i)), Work(p, RunLocal(true)), At(s, p, t, Ending(i, true)));
  }

  /** Which rows are there while the first i have been created. */
  ghost predicate RowsBefore(hs: seq<Handler>, t: Tables, i: nat) {
    forall k :: 0 <= k < |hs| ==> (hs[k].name in t.rows <==> k < i)
  }

  ghost predicate AllThere(hs: seq<Handler>, t: Tables) {
    RowsBefore(hs, t, |hs|)
  }

  lemma CreateAll(ss: seq<State>, acts: seq<Action>, s: State, p: int)
    returns (ss': seq<State>, acts': seq<Action>, t: Tables)
    requires p in s.runs && p in s.db && s.server.Up? && Distinct(s.runs[p].hs) && |s.runs[p].hs| > 1
    requires s.runs[p].ph == Creating(0) && Ends(ss, acts, s)
    requires RowsBefore(s.runs[p].hs, s.db[p], 0) || AllThere(s.runs[p].hs, s.db[p])
    ensures Ends(ss', acts', At(s, p, t, Marking)) && AllThere(s.runs[p].hs, t)
  {
    var hs := s.runs[p].hs;
    ss', acts', t := ss, acts, s.db[p];
    assert At(s, p, t, Creating(0)) == s by {
      assert s.db[p := s.db[p]] == s.db && s.runs[p := s.runs[p].(ph := Creating(0))] == s.runs;
    }
    if AllThere(hs, t) {
      ss', acts' := DoAccess(ss', acts', s, p, t, Creating(0));
      return;
    }
    var i := 0;
    while i < |hs|
      invariant i <= |hs| && RowsBefore(hs, t, i) && Ends(ss', acts', At(s, p, t, Creating(i)))
    {
      ss', acts' := DoAccess(ss', acts', s, p, t, Creating(i));
      t := t.(rows := t.rows[hs[i].name := TaskRow(UnStart, hs[i].step, hs[i].action)]);
      i := i + 1;
    }
    ss', acts' := DoAccess(ss', acts', s, p, t, Creating(i));
  }

  /** From the start of a run, with no rows or all of them, to its first job. */
  lemma RunToJob(ss: seq<State>, acts: seq<Action>, s: State, p: int)
    returns (ss': seq<State>, acts': seq<Action>, t: Tables)
    requires p in s.runs && p in s.db && s.server.Up? && Distinct(s.runs[p].hs) && OneKind(s.runs[p].hs) && s.runs[p].hs[1].Remote?
    requires s.runs[p].ph == Creating(0) && Ends(ss, acts, s)
    requires RowsBefore(s.runs[p].hs, s.db[p], 0) || AllThere(s.runs[p].hs, s.db[p])
    ensures Ends(ss', acts', At(s, p, t, Executing(1))) && AllThere(s.runs[p].hs, t)
  {
    var hs := s.runs[p].hs;
    ss', acts', t := CreateAll(ss, acts, s, p);
    var l := Point(t, Marking);
    ss', acts' := DoAccess(ss', acts', s, p, l.t, l.ph);
    l := Step(hs, l, true);
    ss', acts' := DoAccess(ss', acts', s, p, l.t, l.ph);
    l := Step(hs, l, true);
    ss', acts' := DoLocal(ss', acts', s, p, l.t, 0);
    l := Point(l.t, Ending(0, true));
    ss', acts' := DoAccess(ss', acts', s, p, l.t, l.ph);
    l := Step(hs, l, true);
    ss', acts' := DoAccess(ss', acts', s, p, l.t, l.ph);
    l := Step(hs, l, true);
    t := l.t;
  }

  lemma AgentHandlers(hs: seq<Handler>)
    requires hs == BuildHandlers(AgentMode)
    ensures Distinct(hs) && OneKind(hs) && hs[1].Remote?
  {
    BuildersAgree(AgentMode);
    BuildersOneKind(AgentMode);
  }

  /** A request starts plan p in agent mode with agent 7. */
  lemma StartRun(ss: seq<State>, acts: seq<Action>, s: State, p: int, hs: seq<Handler>)
    returns (ss': seq<State>, acts': seq<Action>, s': State)
    requires Ends(ss, acts, s) && s.server.Up? && p in s.db && p !in s.runs && !IsRunning(s.db[p])
    requires hs == BuildHandlers(AgentMode)
    ensures Ends(ss', acts', s') && s'.server.Up? && s'.db == s.db && s'.jobs == s.jobs
    ensures s'.runs == s.runs[p := Run(s.nextRun, hs, 7, Creating(0), NotWaiting)]
  {
    var a := s.(starting := s.starting + {p});
    ss', acts' := Append(ss, acts, s, CheckStart(p), a);
    var b := a.(queue := a.queue + {p}, starting := a.starting - {p});
    ss', acts' := Append(ss', acts', a, Enqueue(p, true), b);
    s' := b.(queue := b.queue - {p}, nextRun := b.nextRun + 1,
             runs := b.runs[p := Run(b.nextRun, hs, 7, Creating(0), NotWaiting)]);
    ss', acts' := Append(ss', acts', b, Dequeue(p, AgentMode, 7), s');
  }

  /** A run that stands at its first job creates it. */
  lemma DoCreate(ss: seq<State>, acts: seq<Action>, s: State, p: int)
    returns (ss': seq<State>, acts': seq<Action>, s': State)
    requires Ends(ss, acts, s) && s.server.Up? && p in s.runs && p in s.db && s.runs[p].ph == Executing(1)
    requires |s.runs[p].hs| > 1 && s.runs[p].hs[1].Remote? && s.runs[p].wait.NotWaiting?
    ensures Ends(ss', acts', s') && s'.server.Up? && s'.db == s.db && s'.jobs == s.jobs + [NewJob(s, p)]
    ensures p in s'.runs && s'.runs.Keys == s.runs.Keys && s'.runs[p].hs == s.runs[p].hs && s'.runs[p].ph == Executing(1)
    ensures s'.runs[p].wait.WaitingFor? && s'.runs[p].wait.job == |s.jobs|
  {
    var r := s.runs[p];
    s' := s.(jobs := s.jobs + [NewJob(s, p)],
             runs := s.runs[p := r.(wait := WaitingFor(|s.jobs|, s.clock + 60 * r.hs[r.ph.i].minutes))]);
    ss', acts' := Append(ss, acts, s, Work(p, CreateJob), s');
  }

  /** A run that starts with no rows or all of them, up to its first job. */
  lemma StartToJob(ss: seq<State>, acts: seq<Action>, s: State, p: int, hs: seq<Handler>)
    returns (ss': seq<State>, acts': seq<Action>, s': State)
    requires Ends(ss, acts, s) && s.server.Up? && p in s.db && p in s.runs && s.runs.Keys == {p}
    requires s.runs[p].hs == hs && s.runs[p].ph == Creating(0) && s.runs[p].wait.NotWaiting?
    requires Distinct(hs) && OneKind(hs) && hs[1].Remote? && (RowsBefore(hs, s.db[p], 0) || AllThere(hs, s.db[p]))
    ensures Ends(ss', acts', s') && AtJob(s', p, hs, |s.jobs|) && s'.jobs[..|s.jobs|] == s.jobs
    ensures Fresh(s'.jobs[|s.jobs|], p, s.runs[p].agent)
  {
    var t;
    ss', acts', t := RunToJob(ss, acts, s, p);
    ss', acts', s' := DoCreate(ss', acts', At(s, p, t, Executing(1)), p);
  }

  /** Only plan p runs, and its first remote handler waits for the last job, number j. */
  ghost predicate AtJob(s: State, p: int, hs: seq<Handler>, j: nat) {
    && s.server.Up? && p in s.db && p in s.runs && s.runs.Keys == {p} && |s.jobs| == j + 1
    && s.runs[p].hs == hs && |hs| > 1 && hs[1].Remote? && s.runs[p].ph == Executing(1) && AllThere(hs, s.db[p])
    && s.runs[p].wait.WaitingFor? && s.runs[p].wait.job == j
  }

  predicate Fresh(j: Job, p: int, agent: int) {
    j.plan == p && j.agent == agent && j.status.JobPending? && !j.claimed
  }

  /** The first job of a fresh system. */
  lemma FirstJob(hs: seq<Handler>) returns (ss: seq<State>, acts: seq<Action>, s: State)
    requires hs == BuildHandlers(AgentMode)
    ensures Ends(ss, acts, s) && AtJob(s, 1, hs, 0) && Fresh(s.jobs[0], 1, 7)
  {
    var s0 := State(map[], [], {}, map[], Up, map[], 0, 0, {}, {});
    var s1 := s0.(db := s0.db[1 := Tables(UnStart, map[])]);
    ss, acts := Append([s0], [], s0, CreatePlan(1), s1);
    ss, acts, s := StartRun(ss, acts, s1, 1, hs);
    AgentHandlers(hs);
    ss, acts, s := StartToJob(ss, acts, s, 1, hs);
  }

  /** An agent claims the job, reports success, and then reports failure: the terminal row flips. */
  lemma TerminalFlips() returns (ss: seq<State>, acts: seq<Action>, k: nat)
    ensures Behavior(ss, acts) && k < |acts| && |ss[k].jobs| == |ss[k + 1].jobs| == 1
    ensures ss[k].jobs[0].status.JobSuccess? && ss[k + 1].jobs[0].status.JobFailed?
  {
    var s;
    ss, acts, s := FirstJob(BuildHandlers(AgentMode));
    ss, acts, k := ReportTwice(ss, acts, s);
  }

  lemma ReportTwice(ss: seq<State>, acts: seq<Action>, s: State)
    returns (ss': seq<State>, acts': seq<Action>, k: nat)
    requires Ends(ss, acts, s) && s.server.Up? && |s.jobs| == 1 && Fresh(s.jobs[0], 1, 7)
    ensures Behavior(ss', acts') && k < |acts'| && |ss'[k].jobs| == |ss'[k + 1].jobs| == 1
    ensures ss'[k].jobs[0].status.JobSuccess? && ss'[k + 1].jobs[0].status.JobFailed?
  {
    var a := s.(procs := s.procs[1 := Process(7, false, {})]);
    ss', acts' := Append(ss, acts, s, NewProcess(1, 7), a);
    assert NextPending(a.jobs, 7, 0) == 0;
    var b := a.(jobs := Claimed(a.jobs, 0),
                procs := a.procs[1 := a.procs[1].(running := true, executing := a.procs[1].executing + {0})]);
    ss', acts' := Append(ss', acts', a, Claim(1), b);
    var c := b.(jobs := SetStatus(b.jobs, 0, JobSuccess));
    ss', acts' := Append(ss', acts', b, Report(0, true), c);
    k := |acts'|;
    ss', acts' := Append(ss', acts', c, Report(0, false), c.(jobs := SetStatus(c.jobs, 0, JobFailed)));
  }

  /** A failing poll loses the job; the run fails and is over. */
  lemma LoseJob(ss: seq<State>, acts: seq<Action>, s: State, p: int, hs: seq<Handler>, j: nat)
    returns (ss': seq<State>, acts': seq<Action>, s': State)
    requires Ends(ss, acts, s) && AtJob(s, p, hs, j)
    ensures Ends(ss', acts', s') && s'.server.Up? && s'.jobs == s.jobs && s'.runs == map[]
    ensures p in s'.db && !IsRunning(s'.db[p]) && AllThere(hs, s'.db[p])
  {
    var a := s.(orphans := s.orphans + {j}, runs := s.runs[p := s.runs[p].(ph := Ending(1, false), wait := NotWaiting)]);
    ss', acts' := Append(ss, acts, s, Work(p, PollError), a);
    assert At(a, p, a.db[p], Ending(1, false)) == a by {
      assert a.db[p := a.db[p]] == a.db && a.runs[p := a.runs[p].(ph := Ending(1, false))] == a.runs;
    }
    var l := Point(a.db[p], Ending(1, false));
    ss', acts' := DoAccess(ss', acts', a, p, l.t, l.ph);
    l := Step(hs, l, true);
    ss', acts' := DoAccess(ss', acts', a, p, l.t, l.ph);
    l := Step(hs, l, true);
    var b := At(a, p, l.t, l.ph);
    s' := b.(runs := b.runs - {p});
    ss', acts' := Append(ss', acts', b, Work(p, Release), s');
  }

  /** The plan is started again while its lost job is still open: two jobs of one plan are open. */
  lemma TwoOpenJobs() returns (ss: seq<State>, acts: seq<Action>)
    ensures Behavior(ss, acts) && |ss[|acts|].jobs| == 2
    ensures Open(ss[|acts|].jobs[0]) && Open(ss[|acts|].jobs[1]) && ss[|acts|].jobs[0].plan == ss[|acts|].jobs[1].plan
  {
    var s;
    ss, acts, s := FirstJob(BuildHandlers(AgentMode));
    ss, acts, s := LoseJob(ss, acts, s, 1, BuildHandlers(AgentMode), 0);
    ss, acts := SecondJob(ss, acts, s, BuildHandlers(AgentMode));
  }

  lemma SecondJob(ss: seq<State>, acts: seq<Action>, s: State, hs: seq<Handler>) returns (ss': seq<State>, acts': seq<Action>)
    requires hs == BuildHandlers(AgentMode) && Ends(ss, acts, s) && s.server.Up? && s.runs == map[]
    requires 1 in s.db && !IsRunning(s.db[1]) && AllThere(hs, s.db[1]) && |s.jobs| == 1 && Fresh(s.jobs[0], 1, 7)
    ensures Behavior(ss', acts') && |ss'[|acts'|].jobs| == 2
    ensures Fresh(ss'[|acts'|].jobs[0], 1, 7) && Fresh(ss'[|acts'|].jobs[1], 1, 7)
  {
    var a;
    ss', acts', a := StartRun(ss, acts, s, 1, hs);
    AgentHandlers(hs);
    ss', acts', a := StartToJob(ss', acts', a, 1, hs);
    assert a.jobs[0] == a.jobs[..1][0];
  }
}
