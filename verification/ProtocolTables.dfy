/** Safety of the plan and task rows over every behavior: crashes, storage errors and recoveries included. */
module ProtocolTables {
  import opened Collections
  import opened PlanModel
  import opened StepOrder
  import opened TaskRun
  import opened PlanWorker
  import opened Jobs
  import opened Protocol

  function RunOf(s: State, p: int): Option<Run> {
    if p in s.runs then Some(s.runs[p]) else None
  }

  function RecoveryOf(s: State, p: int): Option<Recovery> {
    if s.server.Recovering? && p in s.server.left then Some(s.server.left[p]) else None
  }

  ghost predicate RunOk(names: set<string>, t: Tables, r: Run) {
    && PhaseOk(r.hs, r.ph) && GoodHandlers(names, r.hs) && PhaseInv(names, r.hs, Point(t, r.ph))
    && (r.wait.WaitingFor? ==> r.ph.Executing? && r.hs[r.ph.i].Remote?)
  }

  ghost predicate RecoveryOk(t: Tables, rec: Recovery) {
    rec.Correcting? ==>
      && rec.todo <= t.rows.Keys
      && (t.plan.Success? ==> rec.todo == {} && !rec.updated)
      && (rec.updated ==> SomeFailed(t))
  }

  /** The tables of one plan, given the run or the recovery that is working on them. */
  ghost predicate PlanOk(names: set<string>, t: Tables, run: Option<Run>, rec: Option<Recovery>) {
    && Quiet(names, t)
    && (run.Some? ==> RunOk(names, t, run.value))
    && (rec.Some? ==> RecoveryOk(t, rec.value))
  }

  ghost predicate Shape(s: State) {
    && s.runs.Keys <= s.db.Keys
    && (!s.server.Up? ==> s.runs == map[] && s.queue == {} && s.starting == {})
    && (s.server.Recovering? ==> s.server.left.Keys == s.db.Keys)
  }

  ghost predicate TablesInv(s: State) {
    Shape(s) && forall p :: p in s.db ==> PlanOk(ALL_NAMES, s.db[p], RunOf(s, p), RecoveryOf(s, p))
  }

  lemma RunKeepsPlan(names: set<string>, s: State, p: int, ev: RunEvent, s': State)
    requires RunNext(s, p, ev, s') && PlanOk(names, s.db[p], RunOf(s, p), None)
    ensures p in s'.db && PlanOk(names, s'.db[p], RunOf(s', p), None)
  {
    var r, t := s.runs[p], s.db[p];
    if ev.Access? || ev.Abort? {
      StepKeepsInv(names, r.hs, Point(t, r.ph), true);
    }
  }

  lemma CorrectKeepsPlan(names: set<string>, t: Tables, todo: set<string>, updated: bool, n: string)
    requires PlanOk(names, t, None, Some(Correcting(todo, updated))) && n in todo && n in t.rows
    ensures PlanOk(names, SetRow(t, n, Failed, FailedStep), None, Some(Correcting(todo - {n}, true)))
  {
    assert SetRow(t, n, Failed, FailedStep).rows[n].status.Failed?;
  }

  lemma ServerKeepsPlan(names: set<string>, s: State, a: Action, s': State, p: int)
    requires Next(s, a, s') && Shape(s) && !a.Work? && !a.Dequeue? && p in s'.db
    requires p in s.db ==> PlanOk(names, s.db[p], RunOf(s, p), RecoveryOf(s, p))
    ensures PlanOk(names, s'.db[p], RunOf(s', p), RecoveryOf(s', p))
  {
    match a
    case CorrectRow(q, n) =>
      if p == q { CorrectKeepsPlan(names, s.db[p], s.server.left[p].todo, s.server.left[p].updated, n); }
    case _ =>
  }

  lemma DequeueKeepsPlan(s: State, a: Action, s': State, p: int)
    requires Next(s, a, s') && Shape(s) && a.Dequeue? && p in s'.db
    requires PlanOk(ALL_NAMES, s.db[p], RunOf(s, p), RecoveryOf(s, p))
    ensures PlanOk(ALL_NAMES, s'.db[p], RunOf(s', p), RecoveryOf(s', p))
  {
    if p == a.p {
      BuildersGood(a.mode);
    }
  }

  lemma NextKeepsShape(s: State, a: Action, s': State)
    requires Next(s, a, s') && Shape(s)
    ensures Shape(s')
  {
  }

  lemma WorkKeepsPlan(names: set<string>, s: State, a: Action, s': State, p: int)
    requires Next(s, a, s') && Shape(s) && a.Work? && p in s'.db
    requires p in s.db ==> PlanOk(names, s.db[p], RunOf(s, p), RecoveryOf(s, p))
    ensures PlanOk(names, s'.db[p], RunOf(s', p), RecoveryOf(s', p))
  {
    if p == a.p {
      RunKeepsPlan(names, s, p, a.ev, s');
    } else {
      assert RunNext(s, a.p, a.ev, s');
    }
  }

  lemma NextKeepsPlan(s: State, a: Action, s': State, p: int)
    requires Next(s, a, s') && TablesInv(s) && p in s'.db
    ensures PlanOk(ALL_NAMES, s'.db[p], RunOf(s', p), RecoveryOf(s', p))
  {
    match a
    case Work(_, _) => WorkKeepsPlan(ALL_NAMES, s, a, s', p);
    case Dequeue(_, _, _) => DequeueKeepsPlan(s, a, s', p);
    case _ => ServerKeepsPlan(ALL_NAMES, s, a, s', p);
  }

  lemma NextKeepsTables(s: State, a: Action, s': State)
    requires Next(s, a, s') && TablesInv(s)
    ensures TablesInv(s')
  {
    NextKeepsShape(s, a, s');
    forall p | p in s'.db ensures PlanOk(ALL_NAMES, s'.db[p], RunOf(s', p), RecoveryOf(s', p)) {
      NextKeepsPlan(s, a, s', p);
    }
  }

  lemma {:induction false} BehaviorTables(ss: seq<State>, acts: seq<Action>, k: nat)
    requires Behavior(ss, acts) && k < |ss|
    ensures TablesInv(ss[k])
  {
    if k > 0 {
      BehaviorTables(ss, acts, k - 1);
      NextKeepsTables(ss[k - 1], acts[k - 1], ss[k]);
    }
  }

  /** In every reachable state a plan that says Success has all eight rows and each is Success, and a
      plan that says Failed has a Failed row: whatever starts, errors, crashes and recoveries happened. */
  lemma PlanStatusTellsRows(ss: seq<State>, acts: seq<Action>, k: nat, p: int)
    requires Behavior(ss, acts) && k < |ss| && p in ss[k].db
    ensures ss[k].db[p].plan.Success? ==> ss[k].db[p].rows.Keys == ALL_NAMES && AllSuccess(ss[k].db[p])
    ensures ss[k].db[p].plan.Failed? ==> SomeFailed(ss[k].db[p])
  {
    BehaviorTables(ss, acts, k);
  }

  // ---------------------------------------------------------------- at most one Running row

  /** How many rows of a plan may be Running: only the one its run is on, unless the server is down. */
  ghost predicate PlanOne(t: Tables, run: Option<Run>, server: Server, rec: Option<Recovery>) {
    match server
    case Up => if run.Some? then PhaseOk(run.value.hs, run.value.ph) && OnlyRunning(run.value.hs, Point(t, run.value.ph))
               else NoneRunning(t)
    case Down => AtMostOneRunning(t)
    case Recovering(_) =>
      && AtMostOneRunning(t)
      && (rec.Some? && rec.value.Correcting? ==> RunningRows(t) <= rec.value.todo)
      && (rec.Some? && rec.value.Passed? ==> NoneRunning(t))
  }

  ghost predicate OneRunningInv(s: State) {
    forall p :: p in s.db ==> PlanOne(s.db[p], RunOf(s, p), s.server, RecoveryOf(s, p))
  }

  /** A storage error that a worker's own loop meets, or that recovery loses. */
  predicate IsAbort(a: Action) {
    (a.Work? && a.ev.Abort?) || a.LoseError?
  }

  lemma RunKeepsOne(s: State, p: int, ev: RunEvent, s': State)
    requires RunNext(s, p, ev, s') && !ev.Abort? && PlanOne(s.db[p], RunOf(s, p), Up, None)
    ensures p in s'.db && PlanOne(s'.db[p], RunOf(s', p), Up, None)
  {
    if ev.Access? { StepKeepsOneRunning(s.runs[p].hs, Point(s.db[p], s.runs[p].ph), true); }
  }

  lemma ServerKeepsOne(s: State, a: Action, s': State, p: int)
    requires Next(s, a, s') && Shape(s) && !a.Work? && !IsAbort(a) && p in s'.db
    requires p in s.db ==> PlanOne(s.db[p], RunOf(s, p), s.server, RecoveryOf(s, p))
    ensures PlanOne(s'.db[p], RunOf(s', p), s'.server, RecoveryOf(s', p))
  {
    match a
    case WritePlan(q) =>
      if p == q {
        assert forall n :: n in s.db[p].rows ==> (s.db[p].rows[n].status.Running? ==> n in RunningRows(s.db[p]));
      }
    case _ =>
  }

  lemma NextKeepsOneRunning(s: State, a: Action, s': State)
    requires Next(s, a, s') && Shape(s) && OneRunningInv(s) && !IsAbort(a)
    ensures OneRunningInv(s')
  {
    forall p | p in s'.db ensures PlanOne(s'.db[p], RunOf(s', p), s'.server, RecoveryOf(s', p)) {
      if a.Work? {
        if p == a.p { RunKeepsOne(s, p, a.ev, s'); }
      } else {
        ServerKeepsOne(s, a, s', p);
      }
    }
  }

  lemma {:induction false} BehaviorOneRunning(ss: seq<State>, acts: seq<Action>, k: nat)
    requires Behavior(ss, acts) && k < |ss| && forall j :: 0 <= j < k ==> !IsAbort(acts[j])
    ensures OneRunningInv(ss[k])
  {
    if k > 0 {
      BehaviorOneRunning(ss, acts, k - 1);
      BehaviorTables(ss, acts, k - 1);
      NextKeepsOneRunning(ss[k - 1], acts[k - 1], ss[k]);
    }
  }

  /** Without a storage error in the worker loop or lost by recovery, no plan ever has two Running rows,
      crashes included. */
  lemma NeverTwoRunning(ss: seq<State>, acts: seq<Action>, k: nat, p: int)
    requires Behavior(ss, acts) && k < |ss| && p in ss[k].db && forall j :: 0 <= j < k ==> !IsAbort(acts[j])
    ensures AtMostOneRunning(ss[k].db[p])
  {
    BehaviorOneRunning(ss, acts, k);
  }

  // ---------------------------------------------------------------- the restart pass

  /** How far the restart pass has taken the tables of one plan, which were `t0` at the crash. */
  ghost predicate RepairedFrom(t0: Tables, t: Tables, rec: Option<Recovery>) {
    match rec
    case None => t == t0
    case Some(Listing) => t == t0
    case Some(Correcting(todo, updated)) =>
      && t.plan == t0.plan && t.rows.Keys == t0.rows.Keys && todo <= RunningRows(t0)
      && (forall n :: n in t0.rows ==> t.rows[n] == if n in todo then t0.rows[n] else Corrected(t0.rows[n]))
      && (updated <==> todo != RunningRows(t0))
    case Some(Passed) => t == Recovered(t0)
  }

  lemma NextRepairs(s: State, a: Action, s': State, p: int, t0: Tables)
    requires Next(s, a, s') && Shape(s) && !s.server.Up? && !a.Crash? && a != LoseError(p) && p in s.db
    requires RepairedFrom(t0, s.db[p], RecoveryOf(s, p))
    ensures p in s'.db
    ensures if s'.server.Up? then s'.db[p] == Recovered(t0) else RepairedFrom(t0, s'.db[p], RecoveryOf(s', p))
  {
    match a
    case ListRows(q) =>
      if p == q {
        assert forall n :: n in t0.rows && n !in RunningRows(t0) ==> t0.rows[n] == Corrected(t0.rows[n]);
      }
    case WritePlan(q) =>
      if p == q {
        assert AnyRunning(t0) <==> RunningRows(t0) != {} by {
          if AnyRunning(t0) {
            var n :| n in t0.rows && t0.rows[n].status.Running?;
            assert n in RunningRows(t0);
          }
        }
        assert s'.db[p].rows == Recovered(t0).rows;
      }
    case BootDone => assert s.server.left[p].Passed?;
    case _ =>
  }

  lemma CrashStarts(s: State, a: Action, s': State, p: int)
    requires Next(s, a, s') && a.Crash? && p in s.db
    ensures p in s'.db && !s'.server.Up? && RepairedFrom(s.db[p], s'.db[p], RecoveryOf(s', p))
  {
  }

  ghost predicate RestartedTo(t0: Tables, s: State, p: int) {
    && p in s.db
    && if s.server.Up? then s.db[p] == Recovered(t0) else RepairedFrom(t0, s.db[p], RecoveryOf(s, p))
  }

  lemma NextRestarts(s: State, a: Action, s': State, p: int, t0: Tables)
    requires Next(s, a, s') && TablesInv(s) && !s.server.Up? && !a.Crash? && a != LoseError(p) && RestartedTo(t0, s, p)
    ensures RestartedTo(t0, s', p)
  {
    NextRepairs(s, a, s', p, t0);
  }

  /** The server restarts between k and m: no second crash, not up before m, and no error of p's pass is lost. */
  ghost predicate Restarts(ss: seq<State>, acts: seq<Action>, k: nat, m: nat, p: int) {
    && k < m < |ss| && |ss| == |acts| + 1 && acts[k].Crash? && p in ss[k].db
    && forall j :: k < j < m ==> !acts[j].Crash? && !ss[j].server.Up? && acts[j] != LoseError(p)
  }

  /** A restart that is not itself cut by a crash takes every plan exactly to `Recovered` of what it was. */
  lemma RestartRecovers(ss: seq<State>, acts: seq<Action>, k: nat, m: nat, p: int)
    requires Behavior(ss, acts) && Restarts(ss, acts, k, m, p)
    ensures RestartedTo(ss[k].db[p], ss[m], p)
  {
    var t0 := ss[k].db[p];
    CrashStarts(ss[k], acts[k], ss[k + 1], p);
    var j := k + 1;
    while j < m
      invariant k < j <= m && RestartedTo(t0, ss[j], p)
    {
      BehaviorTables(ss, acts, j);
      NextRestarts(ss[j], acts[j], ss[j + 1], p, t0);
      j := j + 1;
    }
  }

  /** The crash points a restart cannot repair, whatever errors happened before: the plan reads as running
      afterwards exactly when at the crash its row said so and no task row was Running. */
  lemma StuckIff(ss: seq<State>, acts: seq<Action>, k: nat, m: nat, p: int)
    requires Behavior(ss, acts) && Restarts(ss, acts, k, m, p) && ss[m].server.Up?
    ensures p in ss[m].db
    ensures IsRunning(ss[m].db[p]) <==> IsRunning(ss[k].db[p]) && !AnyRunning(ss[k].db[p])
  {
    RestartRecovers(ss, acts, k, m, p);
    StillRunningIff(ss[k].db[p]);
  }

  /** Where in the program those points are, for a server without storage errors: after a crash in state k and
      the restart that follows, plan p reads as running exactly when its run stood between two rows (about to
      start one, or about to write the plan row), or the plan row already said Running with no run at a row. */
  lemma StuckCrashPoints(ss: seq<State>, acts: seq<Action>, k: nat, m: nat, p: int)
    requires Behavior(ss, acts) && Restarts(ss, acts, k, m, p) && ss[k].server.Up?
    requires ss[m].server.Up? && forall j :: 0 <= j < k ==> !IsAbort(acts[j])
    ensures p in ss[m].db
    ensures IsRunning(ss[m].db[p]) <==>
            if p in ss[k].runs && (ss[k].runs[p].ph.Executing? || ss[k].runs[p].ph.Ending?) then false
            else if p in ss[k].runs && (ss[k].runs[p].ph.Starting? || ss[k].runs[p].ph.Finishing?) then true
            else ss[k].db[p].plan.Running?
  {
    StuckIff(ss, acts, k, m, p);
    BehaviorTables(ss, acts, k);
    BehaviorOneRunning(ss, acts, k);
    assert RunOf(ss[k], p) == if p in ss[k].runs then Some(ss[k].runs[p]) else None;
  }
}
