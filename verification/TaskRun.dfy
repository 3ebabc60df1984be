/** One run of a plan's handlers as a step machine. A step is one write to the database, with the look-up
    before it (row creation) and the read-back after it (row updates) that belong to it. */
module TaskRun {
  import opened PlanModel

  datatype Phase =
    | Creating(i: nat)            // next: look up, maybe insert, the row of handler i
    | Marking                     // next: plan row := Running
    | Starting(i: nat)            // next: task row i := Running
    | Executing(i: nat)           // handler i is running
    | Ending(i: nat, ok: bool)    // next: task row i := outcome of handler i
    | Finishing(i: nat, ok: bool) // next: plan row := outcome of the run
    | Finished(result: RunResult)

  datatype RunResult = Completed | HandlerFailed(i: nat) | MissingRow(i: nat) | StorageError

  datatype Point = Point(t: Tables, ph: Phase)

  function SetRow(t: Tables, name: string, status: TaskStatus, step: PlanStep): Tables
    requires name in t.rows
  {
    t.(rows := t.rows[name := t.rows[name].(status := status, step := step)])
  }

  predicate PhaseOk(hs: seq<Handler>, ph: Phase) {
    match ph
    case Creating(i) => i <= |hs|
    case Marking => |hs| > 0
    case Starting(i) => i < |hs|
    case Executing(i) => i < |hs|
    case Ending(i, _) => i < |hs|
    case Finishing(i, _) => i < |hs|
    case _ => true
  }

  /** The next access of a run whose handler, when one is executing, returns `ok`. */
  function Step(hs: seq<Handler>, l: Point, ok: bool): (r: Point)
    requires PhaseOk(hs, l.ph)
    ensures PhaseOk(hs, r.ph)
  {
    var t := l.t;
    match l.ph
    case Creating(i) =>
      if i == |hs| || hs[i].name in t.rows then
        Point(t, if |hs| == 0 then Finished(Completed) else Marking)
      else
        Point(t.(rows := t.rows[hs[i].name := TaskRow(UnStart, hs[i].step, hs[i].action)]), Creating(i + 1))
    case Marking => Point(t.(plan := Running), Starting(0))
    case Starting(i) =>
      if hs[i].name !in t.rows then Point(t, Finished(MissingRow(i)))
      else Point(SetRow(t, hs[i].name, Running, t.rows[hs[i].name].step), Executing(i))
    case Executing(i) => Point(t, Ending(i, ok))
    case Ending(i, ok) =>
      if hs[i].name !in t.rows then Point(t, Finished(MissingRow(i)))
      else
        var t' := SetRow(t, hs[i].name, if ok then Success else Failed, if ok then hs[i].step else FailedStep);
        Point(t', if !ok || i == |hs| - 1 then Finishing(i, ok) else Starting(i + 1))
    case Finishing(i, ok) =>
      Point(t.(plan := if ok then Success else Failed), Finished(if ok then Completed else HandlerFailed(i)))
    case Finished(_) => l
  }

  predicate AllSuccess(t: Tables) {
    forall n :: n in t.rows ==> t.rows[n].status.Success?
  }

  predicate SomeFailed(t: Tables) {
    exists n :: n in t.rows && t.rows[n].status.Failed?
  }

  /** What the two tables say about each other whenever nobody is half way through a write pair. */
  ghost predicate Quiet(names: set<string>, t: Tables) {
    && t.rows.Keys <= names
    && (t.plan.UnStart? || t.plan.Running? || t.plan.Success? || t.plan.Failed?)
    && (t.plan.Success? ==> t.rows.Keys == names && AllSuccess(t))
    && (t.plan.Failed? ==> SomeFailed(t))
  }

  ghost predicate DoneBefore(hs: seq<Handler>, t: Tables, i: nat)
    requires i <= |hs|
  {
    forall k :: 0 <= k < i ==> hs[k].name in t.rows && t.rows[hs[k].name].status.Success?
  }

  ghost predicate RowIs(hs: seq<Handler>, t: Tables, i: nat, s: TaskStatus)
    requires i < |hs|
  {
    hs[i].name in t.rows && t.rows[hs[i].name].status == s
  }

  ghost predicate PhaseInv(names: set<string>, hs: seq<Handler>, l: Point)
    requires PhaseOk(hs, l.ph)
  {
    && Quiet(names, l.t)
    && match l.ph
       case Starting(i) => l.t.plan.Running? && DoneBefore(hs, l.t, i)
       case Executing(i) => l.t.plan.Running? && DoneBefore(hs, l.t, i) && RowIs(hs, l.t, i, Running)
       case Ending(i, _) => l.t.plan.Running? && DoneBefore(hs, l.t, i) && RowIs(hs, l.t, i, Running)
       case Finishing(i, ok) =>
         && l.t.plan.Running? && DoneBefore(hs, l.t, i)
         && RowIs(hs, l.t, i, if ok then Success else Failed)
         && (ok ==> i == |hs| - 1)
       case _ => true
  }

  ghost predicate GoodHandlers(names: set<string>, hs: seq<Handler>) {
    && |hs| > 0 && Distinct(hs) && Names(hs) == names
    && forall k :: 0 <= k < |hs| ==> !hs[k].step.FailedStep?
  }

  lemma BuildersGood(mode: ExecMode)
    ensures GoodHandlers(ALL_NAMES, BuildHandlers(mode))
  {
    BuildersAgree(mode);
  }

  /** No access of a run, from any point, breaks the tie between the plan row and the task rows. */
  lemma StepKeepsInv(names: set<string>, hs: seq<Handler>, l: Point, ok: bool)
    requires GoodHandlers(names, hs) && PhaseOk(hs, l.ph) && PhaseInv(names, hs, l)
    ensures PhaseInv(names, hs, Step(hs, l, ok))
  {
    match l.ph
    case Creating(i) => CreatingKeepsInv(names, hs, l, ok);
    case Starting(i) => StartingKeepsInv(names, hs, l, ok);
    case Ending(i, o) => EndingKeepsInv(names, hs, l, ok);
    case Finishing(i, o) => FinishingKeepsInv(names, hs, l, ok);
    case _ =>
  }

  lemma CreatingKeepsInv(names: set<string>, hs: seq<Handler>, l: Point, ok: bool)
    requires GoodHandlers(names, hs) && PhaseOk(hs, l.ph) && PhaseInv(names, hs, l) && l.ph.Creating?
    ensures PhaseInv(names, hs, Step(hs, l, ok))
  {
    var i, r := l.ph.i, Step(hs, l, ok);
    if i < |hs| && hs[i].name !in l.t.rows {
      assert hs[i].name in Names(hs);
      if l.t.plan.Failed? {
        var n :| n in l.t.rows && l.t.rows[n].status.Failed?;
        assert n in r.t.rows && r.t.rows[n] == l.t.rows[n];
      }
    }
  }

  lemma StartingKeepsInv(names: set<string>, hs: seq<Handler>, l: Point, ok: bool)
    requires GoodHandlers(names, hs) && PhaseOk(hs, l.ph) && PhaseInv(names, hs, l) && l.ph.Starting?
    ensures PhaseInv(names, hs, Step(hs, l, ok))
  {
  }

  lemma EndingKeepsInv(names: set<string>, hs: seq<Handler>, l: Point, ok: bool)
    requires GoodHandlers(names, hs) && PhaseOk(hs, l.ph) && PhaseInv(names, hs, l) && l.ph.Ending?
    ensures PhaseInv(names, hs, Step(hs, l, ok))
  {
  }

  lemma FinishingKeepsInv(names: set<string>, hs: seq<Handler>, l: Point, ok: bool)
    requires GoodHandlers(names, hs) && PhaseOk(hs, l.ph) && PhaseInv(names, hs, l) && l.ph.Finishing?
    ensures PhaseInv(names, hs, Step(hs, l, ok))
  {
    var i, r := l.ph.i, Step(hs, l, ok);
    assert hs[i].name in r.t.rows;
    if l.ph.ok {
      forall n | n in names ensures n in r.t.rows && r.t.rows[n].status.Success? {
        assert n in Names(hs);
        var k :| 0 <= k < |hs| && hs[k].name == n;
        assert k < i || k == i;
      }
    }
  }

  /** The rows that are Running at a given point of a run that started with none. */
  ghost predicate OnlyRunning(hs: seq<Handler>, l: Point)
    requires PhaseOk(hs, l.ph)
  {
    forall n :: n in l.t.rows && l.t.rows[n].status.Running? ==>
      (l.ph.Executing? || l.ph.Ending?) && n == hs[l.ph.i].name
  }

  ghost predicate NoneRunning(t: Tables) {
    forall n :: n in t.rows ==> !t.rows[n].status.Running?
  }

  ghost predicate AtMostOneRunning(t: Tables) {
    forall m, n :: (m in t.rows && n in t.rows && t.rows[m].status.Running? && t.rows[n].status.Running?) ==> m == n
  }

  lemma StepKeepsOneRunning(hs: seq<Handler>, l: Point, ok: bool)
    requires PhaseOk(hs, l.ph) && OnlyRunning(hs, l)
    ensures OnlyRunning(hs, Step(hs, l, ok))
  {
  }

  /** A path of the step machine: the handler at position i returns `oks[i]`. */
  ghost predicate Path(hs: seq<Handler>, oks: seq<bool>, path: seq<Point>)
    requires |oks| == |hs|
  {
    && |path| > 0
    && (forall k :: 0 <= k < |path| ==> PhaseOk(hs, path[k].ph))
    && forall k :: 0 <= k < |path| - 1 ==> path[k + 1] == Step(hs, path[k], OutcomeAt(oks, path[k].ph))
  }

  function OutcomeAt(oks: seq<bool>, ph: Phase): bool {
    if ph.Executing? && ph.i < |oks| then oks[ph.i] else true
  }

  /** Along any path, from tables in which the plan and its rows agree and no row is Running, they
      keep agreeing and at most one row is Running, whatever the handlers return and wherever it stops. */
  lemma {:induction false} PathInv(names: set<string>, hs: seq<Handler>, oks: seq<bool>, path: seq<Point>, k: nat)
    requires |oks| == |hs| && GoodHandlers(names, hs) && Path(hs, oks, path) && k < |path|
    requires path[0].ph == Creating(0) && Quiet(names, path[0].t) && NoneRunning(path[0].t)
    ensures PhaseInv(names, hs, path[k]) && OnlyRunning(hs, path[k])
    ensures AtMostOneRunning(path[k].t)
  {
    if k > 0 {
      PathInv(names, hs, oks, path, k - 1);
      StepKeepsInv(names, hs, path[k - 1], OutcomeAt(oks, path[k - 1].ph));
      StepKeepsOneRunning(hs, path[k - 1], OutcomeAt(oks, path[k - 1].ph));
    }
  }
}
