/** The rows a deployment plan owns and the two handler lists that drive them. */
module PlanModel {

  datatype TaskStatus = Failed | Success | UnStart | Running | Stopping | Destroying

  datatype PlanStep = UnStartedStep | RunningStep | FailedStep | CompletedStep

  datatype TaskRow = TaskRow(status: TaskStatus, step: PlanStep, action: string)

  /** One plan row together with the task rows of that plan, keyed by task name. */
  datatype Tables = Tables(plan: TaskStatus, rows: map<string, TaskRow>)

  datatype JobKind = PullImage | RenderConfig | RunContainer | FetchKubeconfig

  /** A local handler runs in the server; a remote one becomes a job with a deadline in minutes. */
  datatype Handler =
    | Local(name: string, action: string, step: PlanStep)
    | Remote(name: string, action: string, step: PlanStep, kind: JobKind, minutes: nat)

  datatype ExecMode = LocalMode | AgentMode

  /** What `IsRunning` answers for a plan row. */
  predicate IsRunning(t: Tables) {
    t.plan.Running? || t.plan.Stopping? || t.plan.Destroying?
  }

  const CHECK := "部署预检查"
  const PREPARE := "前置准备"
  const RENDER := "配置渲染"
  const BOOTSTRAP := "初始化部署环境"
  const MASTER := "部署Master"
  const NODE := "部署Node"
  const REGISTER := "集群注册"
  const CHART := "部署基础组件"

  const ALL_NAMES: set<string> := {CHECK, PREPARE, RENDER, BOOTSTRAP, MASTER, NODE, REGISTER, CHART}

  function BuildLocalHandlers(): seq<Handler> {
    [ Local(PREPARE, "runner", RunningStep),
      Local(RENDER, "render", RunningStep),
      Local(CHECK, "prechecks", RunningStep),
      Local(BOOTSTRAP, "bootstrap-servers", RunningStep),
      Local(MASTER, "deploy-master", RunningStep),
      Local(NODE, "deploy-node", RunningStep),
      Local(REGISTER, "register", RunningStep),
      Local(CHART, "apply", CompletedStep)
    ]
  }

  function BuildAgentHandlers(): seq<Handler> {
    [ Local(CHECK, "prechecks", RunningStep),
      Remote(PREPARE, "pull_image", RunningStep, PullImage, 30),
      Remote(RENDER, "render", RunningStep, RenderConfig, 10),
      Remote(BOOTSTRAP, "bootstrap-servers", RunningStep, RunContainer, 30),
      Remote(MASTER, "deploy-master", RunningStep, RunContainer, 60),
      Remote(NODE, "deploy-node", RunningStep, RunContainer, 60),
      Remote(REGISTER, "register", RunningStep, FetchKubeconfig, 15),
      Remote(CHART, "apply", CompletedStep, RunContainer, 60)
    ]
  }

  function BuildHandlers(mode: ExecMode): seq<Handler> {
    match mode
    case LocalMode => BuildLocalHandlers()
    case AgentMode => BuildAgentHandlers()
  }

  function Names(hs: seq<Handler>): set<string> {
    set k | 0 <= k < |hs| :: hs[k].name
  }

  ghost predicate Distinct(hs: seq<Handler>) {
    forall i, j :: 0 <= i < j < |hs| ==> hs[i].name != hs[j].name
  }

  lemma NamesDiffer()
    ensures |CHECK| == 5 && |PREPARE| == |RENDER| == |REGISTER| == 4 && |BOOTSTRAP| == 7
    ensures |MASTER| == 8 && |NODE| == |CHART| == 6
    ensures PREPARE != RENDER && PREPARE != REGISTER && RENDER != REGISTER && NODE != CHART
  {
    assert PREPARE[0] != RENDER[0] && PREPARE[0] != REGISTER[0] && RENDER[0] != REGISTER[0] && NODE[2] != CHART[2];
  }

  lemma LocalDistinct()
    ensures Distinct(BuildLocalHandlers())
  {
    NamesDiffer();
  }

  lemma AgentDistinct()
    ensures Distinct(BuildAgentHandlers())
  {
    NamesDiffer();
  }

  /** The names of eight handlers are the names of the eight. */
  lemma NamesOf(hs: seq<Handler>)
    requires |hs| == 8
    ensures Names(hs) == {hs[0].name, hs[1].name, hs[2].name, hs[3].name, hs[4].name, hs[5].name, hs[6].name, hs[7].name}
  {
    forall k | 0 <= k < 8 ensures hs[k].name in Names(hs) {}
    forall n | n in Names(hs)
      ensures n in {hs[0].name, hs[1].name, hs[2].name, hs[3].name, hs[4].name, hs[5].name, hs[6].name, hs[7].name} {
      var k :| 0 <= k < |hs| && hs[k].name == n;
    }
  }

  /** Switching the execution mode reorders the steps but never changes which rows a plan has. */
  lemma BuildersAgree(mode: ExecMode)
    ensures |BuildHandlers(mode)| == 8
    ensures Distinct(BuildHandlers(mode))
    ensures Names(BuildHandlers(mode)) == ALL_NAMES
    ensures forall h :: h in BuildHandlers(mode) ==> !h.step.FailedStep?
  {
    LocalDistinct();
    AgentDistinct();
    NamesOf(BuildHandlers(mode));
  }
}
