/** In what order a deployment goes through its steps, and what its rows say on the way. */
module StepOrder {
  import opened PlanModel
  import opened TaskRun
  import opened RunOutcome

  predicate Done(t: Tables, name: string) {
    name in t.rows && t.rows[name].status.Success?
  }

  function RunningRows(t: Tables): set<string> {
    set n | n in t.rows && t.rows[n].status.Running?
  }

  function StartedRows(t: Tables): set<string> {
    set n | n in t.rows && !t.rows[n].status.UnStart?
  }

  predicate Prepared(t: Tables) {
    Done(t, CHECK) && Done(t, PREPARE) && Done(t, RENDER)
  }

  predicate Deployed(t: Tables) {
    Prepared(t) && Done(t, BOOTSTRAP) && Done(t, MASTER) && Done(t, NODE)
  }

  /** Every step in `now` has had its turn: the steps it builds on are done. */
  ghost predicate InTurn(mode: ExecMode, t: Tables, now: set<string>) {
    && (RENDER in now ==> Done(t, PREPARE))
    && (BOOTSTRAP in now ==> Prepared(t))
    && (MASTER in now ==> Prepared(t) && Done(t, BOOTSTRAP))
    && (NODE in now ==> Prepared(t) && Done(t, BOOTSTRAP) && Done(t, MASTER))
    && (REGISTER in now ==> Deployed(t))
    && (CHART in now ==> Deployed(t) && Done(t, REGISTER))
    && (mode.AgentMode? && PREPARE in now ==> Done(t, CHECK))
    && (mode.LocalMode? && CHECK in now ==> Done(t, PREPARE) && Done(t, RENDER))
  }

  /** The action of a step, by its name. */
  function ActionOf(mode: ExecMode, name: string): string {
    if name == CHECK then "prechecks"
    else if name == PREPARE then (if mode.LocalMode? then "runner" else "pull_image")
    else if name == RENDER then "render"
    else if name == BOOTSTRAP then "bootstrap-servers"
    else if name == MASTER then "deploy-master"
    else if name == NODE then "deploy-node"
    else if name == REGISTER then "register"
    else "apply"
  }

  /** Only the last step completes the deployment. */
  function StepOf(name: string): PlanStep {
    if name == CHART then CompletedStep else RunningStep
  }

  function KindOf(name: string): JobKind {
    if name == PREPARE then PullImage else if name == RENDER then RenderConfig
    else if name == REGISTER then FetchKubeconfig else RunContainer
  }

  /** How long the server waits for a step's job. */
  function MinutesOf(name: string): nat {
    if name == PREPARE || name == BOOTSTRAP then 30
    else if name == RENDER then 10
    else if name == REGISTER then 15
    else 60
  }

  predicate IsStep(mode: ExecMode, h: Handler) {
    && h.step == StepOf(h.name) && h.action == ActionOf(mode, h.name)
    && (h.Remote? <==> mode.AgentMode? && h.name != CHECK)
    && (h.Remote? ==> h.kind == KindOf(h.name) && h.minutes == MinutesOf(h.name))
  }

  lemma LocalSteps(h: Handler)
    requires h in BuildLocalHandlers()
    ensures IsStep(LocalMode, h)
  {
    NamesDiffer();
  }

  lemma AgentSteps(h: Handler)
    requires h in BuildAgentHandlers()
    ensures IsStep(AgentMode, h)
  {
    NamesDiffer();
  }

  /** Every handler of a mode is the step of its name; only the last one completes the deployment. */
  lemma HandlersAreSteps(mode: ExecMode, h: Handler)
    requires h in BuildHandlers(mode)
    ensures IsStep(mode, h) && h.name in ALL_NAMES
  {
    match mode
    case LocalMode => LocalSteps(h);
    case AgentMode => AgentSteps(h);
  }

  // ---------------------------------------------------------------- a step runs in its turn

  /** Whatever handler is in `now`, all handlers before it are done. */
  ghost predicate Ordered(hs: seq<Handler>, t: Tables, now: set<string>) {
    forall j, k :: 0 <= j < k < |hs| && hs[k].name in now ==> Done(t, hs[j].name)
  }

  lemma LocalTurn(t: Tables, now: set<string>)
    requires Ordered(BuildLocalHandlers(), t, now)
    ensures InTurn(LocalMode, t, now)
  {
    var hs := BuildLocalHandlers();
    assert hs[0].name == PREPARE && hs[1].name == RENDER && hs[2].name == CHECK && hs[3].name == BOOTSTRAP;
    assert hs[4].name == MASTER && hs[5].name == NODE && hs[6].name == REGISTER && hs[7].name == CHART;
  }

  lemma AgentTurn(t: Tables, now: set<string>)
    requires Ordered(BuildAgentHandlers(), t, now)
    ensures InTurn(AgentMode, t, now)
  {
    var hs := BuildAgentHandlers();
    assert hs[0].name == CHECK && hs[1].name == PREPARE && hs[2].name == RENDER && hs[3].name == BOOTSTRAP;
    assert hs[4].name == MASTER && hs[5].name == NODE && hs[6].name == REGISTER && hs[7].name == CHART;
  }

  lemma ModeTurn(mode: ExecMode, t: Tables, now: set<string>)
    requires Ordered(BuildHandlers(mode), t, now)
    ensures InTurn(mode, t, now)
  {
    match mode
    case LocalMode => LocalTurn(t, now);
    case AgentMode => AgentTurn(t, now);
  }

  /** No row of a run is Running out of turn. */
  lemma RunningInTurn(names: set<string>, mode: ExecMode, l: Point)
    requires PhaseOk(BuildHandlers(mode), l.ph) && GoodHandlers(names, BuildHandlers(mode))
    requires PhaseInv(names, BuildHandlers(mode), l) && OnlyRunning(BuildHandlers(mode), l)
    ensures InTurn(mode, l.t, RunningRows(l.t))
  {
    ModeTurn(mode, l.t, RunningRows(l.t));
  }

  /** A step all of whose predecessors are done is in its turn. */
  lemma StepInTurn(mode: ExecMode, t: Tables, i: nat)
    requires i < |BuildHandlers(mode)| && DoneBefore(BuildHandlers(mode), t, i)
    ensures InTurn(mode, t, {BuildHandlers(mode)[i].name}) && IsStep(mode, BuildHandlers(mode)[i])
  {
    BuildersAgree(mode);
    HandlersAreSteps(mode, BuildHandlers(mode)[i]);
    ModeTurn(mode, t, {BuildHandlers(mode)[i].name});
  }

  // ---------------------------------------------------------------- a run that begins with no rows

  /** A row as creation makes it. */
  function New(h: Handler): TaskRow {
    TaskRow(UnStart, h.step, h.action)
  }

  ghost predicate NewRows(hs: seq<Handler>, t: Tables) {
    forall k :: 0 <= k < |hs| && hs[k].name in t.rows ==> t.rows[hs[k].name] == New(hs[k])
  }

  lemma {:induction false} CreatedNew(hs: seq<Handler>, t: Tables, i: nat)
    requires i <= |hs| && Distinct(hs) && NewRows(hs, t)
    ensures NewRows(hs, Created(hs, t, i)) && forall n :: n in t.rows ==> n in Created(hs, t, i).rows
    decreases |hs| - i
  {
    if i < |hs| && hs[i].name !in t.rows {
      CreatedNew(hs, t.(rows := t.rows[hs[i].name := New(hs[i])]), i + 1);
    }
  }

  /** A row that its step alone has written. */
  predicate OwnRow(h: Handler, row: TaskRow) {
    && row.action == h.action && row.step == (if row.status.Failed? then FailedStep else h.step)
    && (row.status.UnStart? || row.status.Running? || row.status.Success? || row.status.Failed?)
  }

  lemma OwnRows(hs: seq<Handler>, oks: seq<bool>, t0: Tables, l: Point, k: nat)
    requires PhaseOk(hs, l.ph) && k < |hs| == |oks| && Distinct(hs) && NewRows(hs, t0) && Progress(hs, oks, t0, l)
    requires l.ph.Creating? ==> NewRows(hs, l.t)
    requires hs[k].name in l.t.rows
    ensures OwnRow(hs[k], l.t.rows[hs[k].name])
    ensures hs[k].name in StartedRows(l.t) ==> DoneBefore(hs, l.t, k)
  {
    CreatedNew(hs, t0, 0);
  }

  lemma {:induction false} CreatingNew(hs: seq<Handler>, oks: seq<bool>, path: seq<Point>, k: nat)
    requires |oks| == |hs| && Distinct(hs) && Path(hs, oks, path) && k < |path|
    requires path[0].ph == Creating(0) && NewRows(hs, path[0].t)
    ensures path[k].ph.Creating? ==> NewRows(hs, path[k].t)
  {
    if k > 0 {
      CreatingNew(hs, oks, path, k - 1);
      StepCreates(hs, path[k - 1], OutcomeAt(oks, path[k - 1].ph));
    }
  }

  lemma StepCreates(hs: seq<Handler>, l: Point, ok: bool)
    requires PhaseOk(hs, l.ph) && Distinct(hs) && (l.ph.Creating? ==> NewRows(hs, l.t))
    ensures Step(hs, l, ok).ph.Creating? ==> NewRows(hs, Step(hs, l, ok).t)
  {
  }

  /** Every row carries its step's action, a row that succeeded its step, and only a failed row says failed. */
  ghost predicate RowsTell(mode: ExecMode, t: Tables) {
    forall n :: n in t.rows ==>
      && n in ALL_NAMES && t.rows[n].action == ActionOf(mode, n)
      && t.rows[n].step == (if t.rows[n].status.Failed? then FailedStep else StepOf(n))
  }

  /** In a run that begins with no rows, no step has begun before the steps it builds on are done, and every
      row tells what its step is. */
  lemma FreshInTurn(mode: ExecMode, oks: seq<bool>, path: seq<Point>, k: nat)
    requires |oks| == |BuildHandlers(mode)| && Path(BuildHandlers(mode), oks, path) && k < |path|
    requires path[0].ph == Creating(0) && path[0].t.rows == map[] && path[k].t.rows.Keys <= ALL_NAMES
    ensures InTurn(mode, path[k].t, StartedRows(path[k].t)) && RowsTell(mode, path[k].t)
  {
    var hs, t := BuildHandlers(mode), path[k].t;
    BuildersAgree(mode);
    PathProgress(hs, oks, path, k);
    CreatingNew(hs, oks, path, k);
    forall j, m | 0 <= j < m < |hs| && hs[m].name in StartedRows(t) ensures Done(t, hs[j].name) {
      OwnRows(hs, oks, path[0].t, path[k], m);
    }
    ModeTurn(mode, t, StartedRows(t));
    forall n | n in t.rows ensures t.rows[n].action == ActionOf(mode, n)
                           ensures t.rows[n].step == if t.rows[n].status.Failed? then FailedStep else StepOf(n) {
      assert n in Names(hs);
      var m :| 0 <= m < |hs| && hs[m].name == n;
      OwnRows(hs, oks, path[0].t, path[k], m);
      HandlersAreSteps(mode, hs[m]);
    }
  }
}
