/** The plan worker as it runs: loops over handlers that write plan and task rows one at a time. */
module PlanWorker {
  import opened Collections
  import opened PlanModel
  import opened TaskRun
  import opened RunOutcome
  import opened StepOrder

  datatype Lookup = Found | NotFound | LookupError
  datatype Updated = Done | NoSuchRow | UpdateError

  /** A task row after an update that may leave the step column out. */
  function Write(t: Tables, name: string, status: TaskStatus, step: Option<PlanStep>): Tables
    requires name in t.rows
  {
    SetRow(t, name, status, if step.Some? then step.value else t.rows[name].step)
  }

  /** The plan and task tables. `budget` accesses still succeed, then every access fails: letting it
      be any number puts a storage error, or a crash, between any two accesses. */
  class PlanStore {
    var plans: map<int, TaskStatus>
    var tasks: map<int, map<string, TaskRow>>
    var budget: nat

    constructor (plans: map<int, TaskStatus>, tasks: map<int, map<string, TaskRow>>, budget: nat)
      ensures this.plans == plans && this.tasks == tasks && this.budget == budget
    {
      this.plans, this.tasks, this.budget := plans, tasks, budget;
    }

    function Rows(p: int): map<string, TaskRow>
      reads this
    {
      if p in tasks then tasks[p] else map[]
    }

    function View(p: int): Tables
      requires p in plans
      reads this
    {
      Tables(plans[p], Rows(p))
    }

    /** Nothing but the rows of plan p has changed. */
    twostate predicate OnlyPlan(p: int)
      reads this
    {
      && plans.Keys == old(plans.Keys)
      && forall q :: q in plans && q != p ==> View(q) == old(View(q))
    }

    method Spend() returns (ok: bool)
      modifies this`budget
      ensures ok <==> old(budget) > 0
      ensures budget == if ok then old(budget) - 1 else 0
    {
      ok := budget > 0;
      if ok { budget := budget - 1; }
    }

    method UpdateStatus(p: int, s: TaskStatus) returns (err: bool)
      requires p in plans
      modifies this
      ensures OnlyPlan(p) && err == (old(budget) == 0) && budget + 1 >= old(budget)
      ensures View(p) == if err then old(View(p)) else old(View(p)).(plan := s)
    {
      var ok := Spend();
      if ok { plans := plans[p := s]; }
      err := !ok;
    }

    method GetTaskByName(p: int, name: string) returns (r: Lookup)
      requires p in plans
      modifies this`budget
      ensures r == if old(budget) == 0 then LookupError else if name in Rows(p) then Found else NotFound
      ensures budget + 1 >= old(budget)
    {
      var ok := Spend();
      r := if !ok then LookupError else if name in Rows(p) then Found else NotFound;
    }

    method CreateTask(p: int, name: string, row: TaskRow) returns (err: bool)
      requires p in plans
      modifies this
      ensures OnlyPlan(p) && err == (old(budget) == 0) && budget + 1 >= old(budget)
      ensures View(p) == if err then old(View(p)) else old(View(p)).(rows := old(Rows(p))[name := row])
    {
      var ok := Spend();
      if ok { tasks := tasks[p := Rows(p)[name := row]]; }
      err := !ok;
    }

    /** Updates the named row, then reads it back: the read can fail after the write went through. */
    method UpdateTask(p: int, name: string, status: TaskStatus, step: Option<PlanStep>) returns (r: Updated)
      requires p in plans
      modifies this
      ensures OnlyPlan(p)
      ensures r == NoSuchRow ==> name !in old(Rows(p)) && View(p) == old(View(p))
      ensures r == Done ==> name in old(Rows(p)) && View(p) == Write(old(View(p)), name, status, step)
      ensures r == UpdateError ==> View(p) == old(View(p)) ||
                                   (name in old(Rows(p)) && View(p) == Write(old(View(p)), name, status, step))
      ensures (old(budget) >= 2 ==> r != UpdateError) && budget + 2 >= old(budget)
    {
      var ok := Spend();
      if !ok { return UpdateError; }
      if name !in Rows(p) { return NoSuchRow; }
      var row := Rows(p)[name];
      tasks := tasks[p := Rows(p)[name := row.(status := status, step := if step.Some? then step.value else row.step)]];
      ok := Spend();
      r := if ok then Done else UpdateError;
    }

    /** The plan's rows, each once, in some order. */
    method ListTasks(p: int) returns (err: bool, list: seq<(string, TaskRow)>)
      requires p in plans
      modifies this`budget
      ensures err == (old(budget) == 0) && (!err ==> budget == old(budget) - 1)
      ensures !err ==> ListOf(list, Rows(p))
    {
      var ok := Spend();
      err, list := !ok, [];
      if ok {
        var left := Rows(p).Keys;
        while left != {}
          invariant left <= Rows(p).Keys && |list| + |left| == |Rows(p)|
          invariant forall k :: 0 <= k < |list| ==> list[k].0 in Rows(p) && list[k].0 !in left && list[k].1 == Rows(p)[list[k].0]
          invariant forall n :: n in Rows(p) && n !in left ==> (n, Rows(p)[n]) in list
          invariant forall j, k :: 0 <= j < k < |list| ==> list[j].0 != list[k].0
          decreases |left|
        {
          var n :| n in left;
          list, left := list + [(n, Rows(p)[n])], left - {n};
        }
      }
    }
  }

  ghost predicate ListOf(list: seq<(string, TaskRow)>, rows: map<string, TaskRow>) {
    && |list| == |rows|
    && (forall k :: 0 <= k < |list| ==> list[k].0 in rows && list[k].1 == rows[list[k].0])
    && (forall n :: n in rows ==> (n, rows[n]) in list)
    && (forall j, k :: 0 <= j < k < |list| ==> list[j].0 != list[k].0)
  }

  /** `createPlanTasksIfNotExist`: true when it stopped on a storage error. */
  method CreatePlanTasksIfNotExist(db: PlanStore, p: int, hs: seq<Handler>, ghost oks: seq<bool>)
    returns (err: bool, ghost path: seq<Point>)
    requires p in db.plans && |oks| == |hs|
    modifies db
    ensures db.OnlyPlan(p)
    ensures Path(hs, oks, path) && path[0] == Point(old(db.View(p)), Creating(0)) && path[|path| - 1].t == db.View(p)
    ensures !err ==> path[|path| - 1].ph == (if |hs| == 0 then Finished(Completed) else Marking)
    ensures !err ==> db.View(p) == Created(hs, old(db.View(p)), 0)
    ensures old(db.budget) >= 2 * |hs| ==> !err && db.budget + 2 * |hs| >= old(db.budget)
  {
    path := [Point(db.View(p), Creating(0))];
    var i := 0;
    while i < |hs|
      invariant 0 <= i <= |hs|
      invariant db.OnlyPlan(p) && Path(hs, oks, path) && path[0] == Point(old(db.View(p)), Creating(0))
      invariant path[|path| - 1] == Point(db.View(p), Creating(i))
      invariant Created(hs, db.View(p), i) == Created(hs, old(db.View(p)), 0)
      invariant db.budget + 2 * i >= old(db.budget)
    {
      var found := db.GetTaskByName(p, hs[i].name);
      if found.LookupError? { return true, path; }
      if found.Found? {
        path := path + [Step(hs, path[|path| - 1], true)];
        return false, path;
      }
      err := db.CreateTask(p, hs[i].name, TaskRow(UnStart, hs[i].step, hs[i].action));
      if err { return true, path; }
      path := path + [Step(hs, path[|path| - 1], true)];
      i := i + 1;
    }
    path := path + [Step(hs, path[|path| - 1], true)];
    err := false;
  }

  function Last(path: seq<Point>): Point
    requires path != []
  {
    path[|path| - 1]
  }

  /** The path with its next access. */
  ghost function Extend(hs: seq<Handler>, oks: seq<bool>, path: seq<Point>): (r: seq<Point>)
    requires |oks| == |hs| && Path(hs, oks, path)
    ensures Path(hs, oks, r) && r[0] == path[0] && Last(r) == Step(hs, Last(path), OutcomeAt(oks, Last(path).ph))
  {
    path + [Step(hs, Last(path), OutcomeAt(oks, Last(path).ph))]
  }

  /** The write that marks row i Running. */
  method StartTask(db: PlanStore, p: int, hs: seq<Handler>, i: nat, ghost oks: seq<bool>, ghost path: seq<Point>)
    returns (r: Updated, ghost path': seq<Point>)
    requires p in db.plans && i < |hs| == |oks|
    requires Path(hs, oks, path) && Last(path) == Point(db.View(p), Starting(i))
    modifies db
    ensures db.OnlyPlan(p) && Path(hs, oks, path') && path'[0] == path[0] && Last(path').t == db.View(p)
    ensures r == Done ==> Last(path') == Point(db.View(p), Executing(i))
    ensures r == NoSuchRow ==> Last(path').ph == Finished(MissingRow(i))
    ensures (old(db.budget) >= 2 ==> r != UpdateError) && db.budget + 2 >= old(db.budget)
  {
    ghost var t := db.View(p);
    r := db.UpdateTask(p, hs[i].name, Running, None);
    path' := if r == UpdateError && db.View(p) == t then path else Extend(hs, oks, path);
  }

  /** The write of row i's outcome. */
  method EndTask(db: PlanStore, p: int, hs: seq<Handler>, i: nat, ok: bool, ghost oks: seq<bool>, ghost path: seq<Point>)
    returns (r: Updated, ghost path': seq<Point>)
    requires p in db.plans && i < |hs| == |oks|
    requires Path(hs, oks, path) && Last(path) == Point(db.View(p), Ending(i, ok))
    modifies db
    ensures db.OnlyPlan(p) && Path(hs, oks, path') && path'[0] == path[0] && Last(path').t == db.View(p)
    ensures r == Done ==> Last(path') == Point(db.View(p), if !ok || i == |hs| - 1 then Finishing(i, ok) else Starting(i + 1))
    ensures r == NoSuchRow ==> Last(path').ph == Finished(MissingRow(i))
    ensures (old(db.budget) >= 2 ==> r != UpdateError) && db.budget + 2 >= old(db.budget)
  {
    ghost var t := db.View(p);
    r := db.UpdateTask(p, hs[i].name, if ok then Success else Failed, Some(if ok then hs[i].step else FailedStep));
    path' := if r == UpdateError && db.View(p) == t then path else Extend(hs, oks, path);
  }

  /** One turn of the loop in `syncTasks`; `oks[i]` is what handler i returns when it is run. */
  method RunTask(db: PlanStore, p: int, hs: seq<Handler>, oks: seq<bool>, i: nat, ghost before: seq<Point>)
    returns (r: Option<RunResult>, ghost path: seq<Point>)
    requires p in db.plans && i < |hs| == |oks|
    requires Path(hs, oks, before) && Last(before) == Point(db.View(p), Starting(i))
    modifies db
    ensures db.OnlyPlan(p) && Path(hs, oks, path) && path[0] == before[0] && Last(path).t == db.View(p)
    ensures r == None ==> Last(path).ph == if i < |hs| - 1 then Starting(i + 1) else Finished(Completed)
    ensures r.Some? && r.value != StorageError ==> Last(path).ph == Finished(r.value)
    ensures (old(db.budget) >= 5 ==> r != Some(StorageError)) && db.budget + 5 >= old(db.budget)
  {
    var start, end;
    start, path := StartTask(db, p, hs, i, oks, before);
    if start.UpdateError? { return Some(StorageError), path; }
    if start.NoSuchRow? { return Some(MissingRow(i)), path; }

    var ok := oks[i];
    path := Extend(hs, oks, path);
    end, path := EndTask(db, p, hs, i, ok, oks, path);
    if end.UpdateError? { return Some(StorageError), path; }
    if end.NoSuchRow? { return Some(MissingRow(i)), path; }

    if !ok || i == |hs| - 1 {
      var err := db.UpdateStatus(p, if ok then Success else Failed);
      if err { return Some(StorageError), path; }
      path := Extend(hs, oks, path);
    }
    r := if ok then None else Some(HandlerFailed(i));
  }

  /** `syncTasks`. The accesses made are a path of the step machine whatever happens, and unless the
      storage fails the path is finished with the result returned. */
  method SyncTasks(db: PlanStore, p: int, hs: seq<Handler>, oks: seq<bool>)
    returns (r: RunResult, ghost path: seq<Point>)
    requires p in db.plans && |oks| == |hs|
    modifies db
    ensures db.OnlyPlan(p)
    ensures Path(hs, oks, path) && path[0] == Point(old(db.View(p)), Creating(0)) && path[|path| - 1].t == db.View(p)
    ensures r != StorageError ==> path[|path| - 1].ph == Finished(r)
    ensures old(db.budget) >= 7 * |hs| + 1 ==> r != StorageError
  {
    var err;
    err, path := CreatePlanTasksIfNotExist(db, p, hs, oks);
    if err { return StorageError, path; }
    if |hs| == 0 { return Completed, path; }
    err := db.UpdateStatus(p, Running);
    if err { return StorageError, path; }
    path := path + [Step(hs, path[|path| - 1], true)];
    var i := 0;
    while i < |hs|
      invariant 0 <= i <= |hs|
      invariant db.OnlyPlan(p) && Path(hs, oks, path) && path[0] == Point(old(db.View(p)), Creating(0))
      invariant path[|path| - 1] == Point(db.View(p), if i < |hs| then Starting(i) else Finished(Completed))
      invariant old(db.budget) >= 7 * |hs| + 1 ==> db.budget + 5 * i + 2 * |hs| + 1 >= old(db.budget)
    {
      var turn;
      turn, path := RunTask(db, p, hs, oks, i, path);
      if turn.Some? { return turn.value, path; }
      i := i + 1;
    }
    r := Completed;
  }

  /** The rows of a plan that was never started, or of one whose rows were all created. */
  predicate NoneOrAll(rows: map<string, TaskRow>) {
    rows == map[] || rows.Keys == ALL_NAMES
  }

  /** `syncHandler`: `ready` is false when the plan's data or its engine image cannot be read. From no rows
      or all of them, with none Running, the plan and its rows agree after every single write, at most one
      row is ever Running, no step runs before the steps it builds on are done, and unless storage failed
      the run ends as it should, with all rows there for the next run, whatever mode that one is in. */
  method SyncHandler(db: PlanStore, p: int, mode: ExecMode, ready: bool, oks: seq<bool>)
    returns (r: RunResult, ghost path: seq<Point>)
    requires p in db.plans && |oks| == |BuildHandlers(mode)|
    requires Quiet(ALL_NAMES, db.View(p)) && NoneOrAll(db.Rows(p)) && NoneRunning(db.View(p))
    modifies db
    ensures db.OnlyPlan(p)
    ensures path != [] && path[0].t == old(db.View(p)) && path[|path| - 1].t == db.View(p)
    ensures forall k :: 0 <= k < |path| ==> Quiet(ALL_NAMES, path[k].t) && AtMostOneRunning(path[k].t)
    ensures forall k :: 0 <= k < |path| ==> InTurn(mode, path[k].t, RunningRows(path[k].t))
    ensures old(db.Rows(p)) == map[] ==>
              forall k :: 0 <= k < |path| ==> InTurn(mode, path[k].t, StartedRows(path[k].t)) && RowsTell(mode, path[k].t)
    ensures !ready ==> db.View(p) == old(db.View(p))
    ensures ready && old(db.budget) >= 57 ==> r != StorageError
    ensures ready && r != StorageError ==> (r.Completed? <==> db.View(p).plan.Success?) && (r.HandlerFailed? <==> db.View(p).plan.Failed?)
    ensures ready && r != StorageError ==>
              && RunEnds(BuildHandlers(mode), oks, old(db.View(p)), db.View(p))
              && db.Rows(p).Keys == ALL_NAMES && NoneRunning(db.View(p))
              && r == if FirstFailure(oks) == |oks| then Completed else HandlerFailed(FirstFailure(oks))
  {
    var hs := BuildHandlers(mode);
    BuildersAgree(mode);
    BuildersGood(mode);
    path := [Point(db.View(p), Creating(0))];
    if !ready {
      PathInTurn(mode, oks, path);
      return StorageError, path;
    }
    r, path := SyncTasks(db, p, hs, oks);
    PathInTurn(mode, oks, path);
    if r != StorageError { RunIsWhole(ALL_NAMES, hs, oks, path); }
  }

  /** What holds at every point of a run, in either mode. */
  lemma PathInTurn(mode: ExecMode, oks: seq<bool>, path: seq<Point>)
    requires |oks| == |BuildHandlers(mode)| && Path(BuildHandlers(mode), oks, path) && path[0].ph == Creating(0)
    requires Quiet(ALL_NAMES, path[0].t) && NoneRunning(path[0].t)
    ensures forall k :: 0 <= k < |path| ==> Quiet(ALL_NAMES, path[k].t) && AtMostOneRunning(path[k].t)
    ensures forall k :: 0 <= k < |path| ==> InTurn(mode, path[k].t, RunningRows(path[k].t))
    ensures path[0].t.rows == map[] ==>
              forall k :: 0 <= k < |path| ==> InTurn(mode, path[k].t, StartedRows(path[k].t)) && RowsTell(mode, path[k].t)
    ensures PhaseInv(ALL_NAMES, BuildHandlers(mode), path[|path| - 1])
    ensures NoneRunning(path[|path| - 1].t) || !path[|path| - 1].ph.Finished?
  {
    var hs := BuildHandlers(mode);
    BuildersGood(mode);
    forall k | 0 <= k < |path|
      ensures PhaseInv(ALL_NAMES, hs, path[k]) && OnlyRunning(hs, path[k]) && AtMostOneRunning(path[k].t)
    {
      PathInv(ALL_NAMES, hs, oks, path, k);
    }
    forall k | 0 <= k < |path| ensures InTurn(mode, path[k].t, RunningRows(path[k].t)) {
      RunningInTurn(ALL_NAMES, mode, path[k]);
    }
    if path[0].t.rows == map[] {
      forall k | 0 <= k < |path| ensures InTurn(mode, path[k].t, StartedRows(path[k].t)) && RowsTell(mode, path[k].t) {
        FreshInTurn(mode, oks, path, k);
      }
    }
  }

  lemma RunIsWhole(names: set<string>, hs: seq<Handler>, oks: seq<bool>, path: seq<Point>)
    requires |oks| == |hs| && GoodHandlers(names, hs) && Path(hs, oks, path) && path[0].ph == Creating(0)
    requires path[0].t.rows == map[] || path[0].t.rows.Keys == names
    requires path[|path| - 1].ph.Finished? && Quiet(names, path[|path| - 1].t)
    ensures RunEnds(hs, oks, path[0].t, path[|path| - 1].t) && path[|path| - 1].t.rows.Keys == names
    ensures path[|path| - 1].ph.result == if FirstFailure(oks) == |oks| then Completed else HandlerFailed(FirstFailure(oks))
  {
    assert forall k :: 0 <= k < |hs| ==> hs[k].name in Names(hs);
    FinishedRun(hs, oks, path);
    var t := path[|path| - 1].t;
    forall n | n in names ensures n in t.rows {
      assert n in Names(hs);
      var k :| 0 <= k < |hs| && hs[k].name == n;
    }
  }

  predicate AnyRunning(t: Tables) {
    exists n :: n in t.rows && t.rows[n].status.Running?
  }

  function Corrected(row: TaskRow): TaskRow {
    if row.status.Running? then row.(status := Failed, step := FailedStep) else row
  }

  /** What recovery of one plan leaves when it gets to the end. */
  function Recovered(t: Tables): Tables {
    Tables(if AnyRunning(t) then Failed else t.plan, map n | n in t.rows :: Corrected(t.rows[n]))
  }

  /** What recovery of one plan leaves when it stops early: the plan row untouched, each task row either
      as it was or corrected. */
  ghost predicate PartlyRecovered(t: Tables, t': Tables) {
    && t'.plan == t.plan && t'.rows.Keys == t.rows.Keys
    && forall n :: n in t.rows ==> t'.rows[n] == t.rows[n] || t'.rows[n] == Corrected(t.rows[n])
  }

  ghost predicate CorrectedUpTo(list: seq<(string, TaskRow)>, rows: map<string, TaskRow>, k: nat)
    requires k <= |list|
  {
    && (forall j :: 0 <= j < |list| ==> list[j].0 in rows)
    && (forall j :: 0 <= j < k ==> rows[list[j].0] == Corrected(list[j].1))
    && (forall j :: k <= j < |list| ==> rows[list[j].0] == list[j].1)
  }

  lemma CorrectedList(list: seq<(string, TaskRow)>, t: Tables, t': Tables, k: nat)
    requires ListOf(list, t.rows) && k <= |list| && t'.rows.Keys == t.rows.Keys && t'.plan == t.plan
    requires CorrectedUpTo(list, t'.rows, k)
    ensures PartlyRecovered(t, t')
    ensures k == |list| ==> t'.rows == Recovered(t).rows
  {
    forall n | n in t.rows
      ensures t'.rows[n] == t.rows[n] || t'.rows[n] == Corrected(t.rows[n])
      ensures k == |list| ==> t'.rows[n] == Corrected(t.rows[n])
    {
      var j :| 0 <= j < |list| && list[j] == (n, t.rows[n]);
    }
  }

  ghost predicate NamesDistinct(list: seq<(string, TaskRow)>) {
    forall j, k :: 0 <= j < k < |list| ==> list[j].0 != list[k].0
  }

  lemma CorrectedNext(list: seq<(string, TaskRow)>, rows: map<string, TaskRow>, k: nat)
    requires NamesDistinct(list) && k < |list| && CorrectedUpTo(list, rows, k)
    ensures CorrectedUpTo(list, rows[list[k].0 := Corrected(list[k].1)], k + 1)
  {
  }

  /** One turn of the loop in `syncStatus`: a row read as Running is written Failed. */
  method CorrectTask(db: PlanStore, p: int, name: string, row: TaskRow) returns (err: bool)
    requires p in db.plans && name in db.Rows(p) && db.Rows(p)[name] == row
    modifies db
    ensures db.OnlyPlan(p) && db.plans[p] == old(db.plans[p])
    ensures !err ==> db.Rows(p) == old(db.Rows(p))[name := Corrected(row)]
    ensures err ==> db.Rows(p) == old(db.Rows(p)) || db.Rows(p) == old(db.Rows(p))[name := Corrected(row)]
    ensures db.budget + 2 >= old(db.budget) && (old(db.budget) >= 2 ==> !err)
  {
    ghost var t := db.View(p);
    err := false;
    if row.status.Running? {
      var r := db.UpdateTask(p, name, Failed, Some(FailedStep));
      err := r != Done;
      assert SetRow(t, name, Failed, FailedStep).rows == t.rows[name := Corrected(row)];
    } else {
      assert t.rows == t.rows[name := Corrected(row)];
    }
  }

  /** One of the first k rows listed is Running. */
  predicate RunningListed(list: seq<(string, TaskRow)>, k: nat)
    requires k <= |list|
  {
    k > 0 && (RunningListed(list, k - 1) || list[k - 1].1.status.Running?)
  }

  lemma {:induction false} ListedAt(list: seq<(string, TaskRow)>, k: nat)
    requires k <= |list|
    ensures RunningListed(list, k) <==> exists j :: 0 <= j < k && list[j].1.status.Running?
  {
    if k > 0 { ListedAt(list, k - 1); }
  }

  lemma ListedRunning(list: seq<(string, TaskRow)>, t: Tables)
    requires ListOf(list, t.rows)
    ensures RunningListed(list, |list|) <==> AnyRunning(t)
  {
    ListedAt(list, |list|);
    if AnyRunning(t) {
      var n :| n in t.rows && t.rows[n].status.Running?;
      assert (n, t.rows[n]) in list;
    }
    if RunningListed(list, |list|) {
      var j :| 0 <= j < |list| && list[j].1.status.Running?;
      assert list[j].0 in t.rows;
    }
  }

  /** The loop of `syncStatus` over the rows it listed; it has dealt with the first k when it stops. */
  method CorrectLoop(db: PlanStore, p: int, list: seq<(string, TaskRow)>) returns (err: bool, updated: bool, ghost k: nat)
    requires p in db.plans && NamesDistinct(list) && CorrectedUpTo(list, db.Rows(p), 0)
    modifies db
    ensures db.OnlyPlan(p) && db.plans[p] == old(db.plans[p]) && db.Rows(p).Keys == old(db.Rows(p).Keys)
    ensures k <= |list| && CorrectedUpTo(list, db.Rows(p), k)
    ensures !err ==> k == |list| && updated == RunningListed(list, k)
    ensures old(db.budget) >= 2 * |list| + 1 ==> !err && db.budget >= 1
  {
    updated, err, k := false, false, 0;
    for i := 0 to |list|
      invariant k == i && db.OnlyPlan(p)
      invariant db.plans[p] == old(db.plans[p]) && db.Rows(p).Keys == old(db.Rows(p).Keys)
      invariant CorrectedUpTo(list, db.Rows(p), i) && updated == RunningListed(list, i)
      invariant old(db.budget) >= 2 * |list| + 1 ==> db.budget >= 2 * (|list| - i) + 1
    {
      var (name, row) := list[i];
      ghost var before := db.Rows(p);
      err := CorrectTask(db, p, name, row);
      CorrectedNext(list, before, i);
      k := if err && db.Rows(p) == before then i else i + 1;
      if err { return; }
      updated := updated || row.status.Running?;
    }
  }

  /** The listed rows of `t`, corrected one by one. */
  method CorrectTasks(db: PlanStore, p: int, list: seq<(string, TaskRow)>, ghost t: Tables) returns (err: bool, updated: bool)
    requires p in db.plans && db.View(p) == t && ListOf(list, t.rows)
    modifies db
    ensures db.OnlyPlan(p) && PartlyRecovered(t, db.View(p))
    ensures !err ==> db.View(p).rows == Recovered(t).rows && (updated <==> AnyRunning(t))
    ensures old(db.budget) >= 2 * |list| + 1 ==> !err && db.budget >= 1
  {
    ghost var k;
    err, updated, k := CorrectLoop(db, p, list);
    CorrectedList(list, t, db.View(p), k);
    ListedRunning(list, t);
  }

  /** `syncStatus`: the restart pass over one plan. */
  method SyncStatus(db: PlanStore, p: int) returns (err: bool)
    requires p in db.plans
    modifies db
    ensures db.OnlyPlan(p)
    ensures !err ==> db.View(p) == Recovered(old(db.View(p)))
    ensures err ==> PartlyRecovered(old(db.View(p)), db.View(p))
    ensures old(db.budget) >= 2 * |old(db.Rows(p))| + 2 ==> !err
  {
    ghost var t := db.View(p);
    var list;
    err, list := db.ListTasks(p);
    if err { return; }
    var updated;
    err, updated := CorrectTasks(db, p, list, t);
    if err { return; }
    if updated {
      err := db.UpdateStatus(p, Failed);
    }
  }

  /** The restart pass, seen as a function: no row is left Running, no other row moves, the plan turns
      Failed exactly when it had a Running row, and a second pass changes nothing. */
  lemma RecoveryExact(t: Tables)
    ensures var t' := Recovered(t);
            && NoneRunning(t') && t'.rows.Keys == t.rows.Keys
            && (forall n :: n in t.rows && !t.rows[n].status.Running? ==> t'.rows[n] == t.rows[n])
            && (forall n :: n in t.rows && t.rows[n].status.Running? ==> t'.rows[n].status.Failed? && t'.rows[n].step.FailedStep?)
            && (t'.plan == if exists n :: n in t.rows && t.rows[n].status.Running? then Failed else t.plan)
            && Recovered(t') == t'
  {
  }

  /** Recovery cannot free every plan: after the pass a plan still reads as running exactly when its row
      said so and none of its task rows was Running. */
  lemma StillRunningIff(t: Tables)
    ensures IsRunning(Recovered(t)) <==>
            (t.plan.Running? || t.plan.Stopping? || t.plan.Destroying?) && forall n :: n in t.rows ==> !t.rows[n].status.Running?
  {
  }

  /** A pass cut short loses the plan: once the last Running row is corrected but the plan row is not
      written, every later pass leaves the plan Running. */
  lemma CutShortStaysRunning(t: Tables, t': Tables)
    requires PartlyRecovered(t, t') && t.plan.Running?
    ensures IsRunning(Recovered(t')) <==> forall n :: n in t.rows ==> t'.rows[n] == Corrected(t.rows[n])
  {
  }
}
