/** What a run of the step machine has done to the tables when it stops. */
module RunOutcome {
  import opened PlanModel
  import opened TaskRun

  /** The tables once row creation, resumed at handler i, is over: it stops at the first row found. */
  function Created(hs: seq<Handler>, t: Tables, i: nat): Tables
    requires i <= |hs|
    decreases |hs| - i
  {
    if i == |hs| || hs[i].name in t.rows then t
    else Created(hs, t.(rows := t.rows[hs[i].name := TaskRow(UnStart, hs[i].step, hs[i].action)]), i + 1)
  }

  function FirstFailure(oks: seq<bool>): (f: nat)
    ensures f <= |oks| && (f < |oks| ==> !oks[f])
    ensures forall k :: 0 <= k < f ==> oks[k]
  {
    if |oks| == 0 || !oks[0] then 0 else 1 + FirstFailure(oks[1..])
  }

  ghost predicate AllRows(hs: seq<Handler>, t: Tables) {
    forall k :: 0 <= k < |hs| ==> hs[k].name in t.rows
  }

  /** The rows already there are those of the last handlers: none of them, all, or a tail. */
  ghost predicate TailRows(hs: seq<Handler>, t: Tables, i: nat) {
    forall j, k :: i <= j < k < |hs| && hs[j].name in t.rows ==> hs[k].name in t.rows
  }

  /** Rows of the first `i` handlers are done, the key set is that of `t1`. */
  ghost predicate Prefix(hs: seq<Handler>, t1: Tables, t: Tables, i: nat)
    requires i <= |hs|
  {
    && t.rows.Keys == t1.rows.Keys
    && forall k :: 0 <= k < i ==>
         && hs[k].name in t.rows
         && t.rows[hs[k].name] == t1.rows[hs[k].name].(status := Success, step := hs[k].step)
  }

  /** Rows not named by the first `i` handlers are those of `t1`. */
  ghost predicate Rest(hs: seq<Handler>, t1: Tables, t: Tables, i: nat)
    requires i <= |hs|
  {
    forall n :: (n in t1.rows && n in t.rows && (forall k :: 0 <= k < i ==> hs[k].name != n)) ==> t.rows[n] == t1.rows[n]
  }

  ghost predicate OksBefore(oks: seq<bool>, i: nat)
    requires i <= |oks|
  {
    forall k :: 0 <= k < i ==> oks[k]
  }

  ghost predicate Progress(hs: seq<Handler>, oks: seq<bool>, t0: Tables, l: Point)
    requires PhaseOk(hs, l.ph) && |oks| == |hs|
  {
    var t1 := Created(hs, t0, 0);
    match l.ph
    case Creating(i) => Created(hs, l.t, i) == t1 && l.t.plan == t0.plan
    case Marking => l.t == t1
    case Starting(i) => l.t.plan.Running? && OksBefore(oks, i) && Prefix(hs, t1, l.t, i) && Rest(hs, t1, l.t, i)
    case Executing(i) =>
      l.t.plan.Running? && OksBefore(oks, i) && Prefix(hs, t1, l.t, i) && Rest(hs, t1, l.t, i + 1) &&
      hs[i].name in t1.rows && l.t.rows[hs[i].name] == t1.rows[hs[i].name].(status := Running)
    case Ending(i, ok) =>
      l.t.plan.Running? && OksBefore(oks, i) && Prefix(hs, t1, l.t, i) && Rest(hs, t1, l.t, i + 1) && ok == oks[i] &&
      hs[i].name in t1.rows && l.t.rows[hs[i].name] == t1.rows[hs[i].name].(status := Running)
    case Finishing(i, ok) => l.t.plan.Running? && EndRows(hs, oks, t1, l.t, i) && ok == oks[i]
    case Finished(Completed) =>
      if |hs| == 0 then l.t == t0
      else l.t.plan.Success? && EndRows(hs, oks, t1, l.t, |hs| - 1) && oks[|hs| - 1]
    case Finished(HandlerFailed(i)) => i < |hs| && l.t.plan.Failed? && EndRows(hs, oks, t1, l.t, i) && !oks[i]
    case Finished(MissingRow(i)) =>
      i < |hs| && l.t.plan.Running? && OksBefore(oks, i) && Prefix(hs, t1, l.t, i) && Rest(hs, t1, l.t, i) &&
      hs[i].name !in t1.rows
    case Finished(StorageError) => false
  }

  /** Handlers before i succeeded, handler i wrote its outcome, later rows are as creation left them. */
  ghost predicate EndRows(hs: seq<Handler>, oks: seq<bool>, t1: Tables, t: Tables, i: nat)
    requires i < |hs| == |oks|
  {
    && OksBefore(oks, i) && Prefix(hs, t1, t, i) && Rest(hs, t1, t, i + 1)
    && hs[i].name in t1.rows
    && t.rows[hs[i].name] == t1.rows[hs[i].name].(status := if oks[i] then Success else Failed,
                                                  step := if oks[i] then hs[i].step else FailedStep)
    && (oks[i] ==> i == |hs| - 1)
  }

  lemma StepProgress(hs: seq<Handler>, oks: seq<bool>, t0: Tables, l: Point)
    requires PhaseOk(hs, l.ph) && |oks| == |hs| && Distinct(hs) && Progress(hs, oks, t0, l)
    ensures Progress(hs, oks, t0, Step(hs, l, OutcomeAt(oks, l.ph)))
  {
    var t1, r := Created(hs, t0, 0), Step(hs, l, OutcomeAt(oks, l.ph));
    match l.ph
    case Starting(i) =>
    case Executing(i) =>
    case Ending(i, ok) =>
      if r.ph.Starting? { assert Prefix(hs, t1, r.t, i + 1); }
    case _ =>
  }

  lemma {:induction false} PathProgress(hs: seq<Handler>, oks: seq<bool>, path: seq<Point>, k: nat)
    requires |oks| == |hs| && Distinct(hs) && Path(hs, oks, path) && k < |path|
    requires path[0].ph == Creating(0)
    ensures Progress(hs, oks, path[0].t, path[k])
  {
    if k > 0 {
      PathProgress(hs, oks, path, k - 1);
      StepProgress(hs, oks, path[0].t, path[k - 1]);
    }
  }

  /** Creation completes the set of rows exactly when the rows it finds are a tail of the handlers. */
  lemma {:induction false} CreatedRows(hs: seq<Handler>, t: Tables, i: nat)
    requires i <= |hs| && Distinct(hs) && forall k :: 0 <= k < i ==> hs[k].name in t.rows
    ensures AllRows(hs, Created(hs, t, i)) <==> TailRows(hs, t, i)
    ensures AllRows(hs, t) ==> Created(hs, t, i) == t
    decreases |hs| - i
  {
    if i < |hs| && hs[i].name !in t.rows {
      var t' := t.(rows := t.rows[hs[i].name := TaskRow(UnStart, hs[i].step, hs[i].action)]);
      CreatedRows(hs, t', i + 1);
      forall j | i < j < |hs| ensures hs[j].name in t'.rows <==> hs[j].name in t.rows {}
    }
  }

  /** The tables `t` after a run from `t0` in which handler i returned `oks[i]`: every row is there, the plan
      row and the rows up to the first failure say what happened, and every other row is as it was. */
  ghost predicate RunEnds(hs: seq<Handler>, oks: seq<bool>, t0: Tables, t: Tables)
    requires |oks| == |hs|
  {
    var t1, f := Created(hs, t0, 0), FirstFailure(oks);
    && AllRows(hs, t1) && (AllRows(hs, t0) ==> t1 == t0) && t.rows.Keys == t1.rows.Keys
    && t.plan == (if f == |hs| then Success else Failed)
    && (forall k :: 0 <= k < f ==> t.rows[hs[k].name] == t1.rows[hs[k].name].(status := Success, step := hs[k].step))
    && (f < |hs| ==> t.rows[hs[f].name] == t1.rows[hs[f].name].(status := Failed, step := FailedStep))
    && (forall n :: (n in t1.rows && forall k :: 0 <= k <= f && k < |hs| ==> hs[k].name != n) ==> t.rows[n] == t1.rows[n])
  }

  lemma EndsSo(hs: seq<Handler>, oks: seq<bool>, t0: Tables, t1: Tables, t: Tables, i: nat)
    requires i < |hs| == |oks| && Distinct(hs) && TailRows(hs, t0, 0) && t1 == Created(hs, t0, 0)
    requires EndRows(hs, oks, t1, t, i) && t.plan == if oks[i] then Success else Failed
    ensures RunEnds(hs, oks, t0, t) && FirstFailure(oks) == if oks[i] then |hs| else i
  {
    CreatedRows(hs, t0, 0);
    assert FirstFailure(oks) == if oks[i] then |hs| else i;
  }

  /** A run that starts with no rows, all of them or a tail of them, and meets no storage error, stops
      either after the last handler or at the first one that fails; the plan row, the rows before, the
      row itself and the rows after are exactly those of `RunEnds`. */
  lemma FinishedRun(hs: seq<Handler>, oks: seq<bool>, path: seq<Point>)
    requires |oks| == |hs| > 0 && Distinct(hs) && Path(hs, oks, path)
    requires path[0].ph == Creating(0) && TailRows(hs, path[0].t, 0)
    requires path[|path| - 1].ph.Finished?
    ensures RunEnds(hs, oks, path[0].t, path[|path| - 1].t)
    ensures path[|path| - 1].ph == Finished(if FirstFailure(oks) == |hs| then Completed else HandlerFailed(FirstFailure(oks)))
  {
    var last := path[|path| - 1];
    var t1 := Created(hs, path[0].t, 0);
    PathProgress(hs, oks, path, |path| - 1);
    CreatedRows(hs, path[0].t, 0);
    match last.ph.result
    case Completed => EndsSo(hs, oks, path[0].t, t1, last.t, |hs| - 1);
    case HandlerFailed(i) => EndsSo(hs, oks, path[0].t, t1, last.t, i);
    case MissingRow(i) =>
    case StorageError =>
  }

  /** The exact condition for a run to complete, from any rows: every handler succeeds and the rows it
      started from were a tail. Rows lost part way through an earlier creation are never added later,
      so such a run stops at a missing row and leaves the plan reading as running. */
  lemma CompletesIff(hs: seq<Handler>, oks: seq<bool>, path: seq<Point>)
    requires |oks| == |hs| > 0 && Distinct(hs) && Path(hs, oks, path)
    requires path[0].ph == Creating(0) && path[|path| - 1].ph.Finished?
    ensures path[|path| - 1].ph.result.Completed? <==> TailRows(hs, path[0].t, 0) && FirstFailure(oks) == |hs|
    ensures path[|path| - 1].ph.result.MissingRow? ==> !TailRows(hs, path[0].t, 0) && IsRunning(path[|path| - 1].t)
  {
    var last := path[|path| - 1];
    PathProgress(hs, oks, path, |path| - 1);
    CreatedRows(hs, path[0].t, 0);
    if last.ph.result.Completed? {
      forall m | 0 <= m < |hs| ensures hs[m].name in Created(hs, path[0].t, 0).rows {
        assert m < |hs| - 1 || m == |hs| - 1;
      }
    }
  }
}
