# Pixiu: verified model

Pixiu deploys and watches Kubernetes clusters. This Dafny project models its deployment engine and four
neighbouring components, and proves what their steps keep, what whole runs achieve, and exactly where promises
made by the code do not hold. `dafny verify dfyconfig.toml` checks everything.

**Deployment engine.** A worker takes a plan from a queue, creates one task row per handler and runs the
handlers in order, writing rows before and after each; in agent mode a handler is a job that an edge agent claims,
executes and reports while the worker polls.

- `PlanModel`, `TaskRun`, `RunOutcome`: rows, handler lists, the run as a machine with one write per step,
  together with the reads it depends on, and what a run has done when it stops. `StepOrder`: the order of the steps by
  name, in both modes, and what the rows say on the way.
- `PlanWorker`: the loops of the code over a mutable store whose accesses can start to fail at any point; each loop is
  tied to the machine. The recovery pass of a restart.
- `Jobs`, `JobTable`: the job table, the polling handler (other processes act before each of its accesses) and
  the agent's claim loop. Every access can fail.
- `Protocol`: everything together as a transition system, one step per database write, with queue, workers, agents,
  late and repeated reports, timeouts, crashes between any two writes, and recovery. `ProtocolTables`,
  `ProtocolOrder` and `ProtocolJobs` prove safety of every behavior, `ProtocolWitness` builds behaviors in which
  something goes wrong.

**Connectivity.** `Backoff` is the probe backoff table over arbitrary call histories. `Tunnel` is the tunnel
syncer, one pass as code and any number of server processes over one cluster table as a transition system.

**Assistant.** `ChatStream`, `ResponseStream` and `OutputItems` reassemble the two event streams (from decoded
events on); `ChatRoundTrip` and `ResponseRoundTrip` state what comes back from where a producer puts what.
`ToolLoops` are the two bounded tool loops with the pairing of calls and results as a transcript grammar.

**Reconcilers and renderers.** `Nodes` (node rows against a request), `Inventory` (role columns, the two plan
constructors, the groups), `Scopes` (role scopes with their string key), `ScopeRuns` (requests for one role
interleaved, the code tied to the interleavings it takes part in), `TaskCache` (shared arrays, watchers, workers and
the reload pass, as code and as interleavings), `CacheFreshness` (when an entry is the database's list), `Listing`
(sorts, pages, the cluster list).

**Licence formatter.** `Licfmt`: scanning, byte offsets over CR and LF, idempotence. `LicenseHeader`: which files are
rewritten and into what, on their bytes. A char stands for a byte.

`Collections` holds what several of these share.

## Promises that do not hold as stated

The code is modelled as it is. For each of these the exact condition is proved, an if and only if over all inputs
or all behaviors; where a behavior is named, it is one in which the promise fails.

- Recovery does not free every plan: `StillRunningIff`, `StuckIff`, `StuckCrashPoints`, `CutShortStaysRunning`.
- Row creation stops at the first row it finds, so rows lost in an interrupted creation are never made up:
  `CompletesIff`.
- A terminal job can flip: reports are unguarded, and the polling handler looks at its deadline before it looks at
  the job, so a timeout overwrites a success it has not seen yet. `FlipIff`, with `TerminalFlips`. What survives:
  ranks never fall and a success a worker acted on was real (`JobsOnlyMoveUp`, `SucceededOnce`).
- A plan can have several open jobs, all but at most one of them orphans of a crash or a job-table error: `OpenIff`, with
  `TwoOpenJobs`.
- The syncer can take a row out of Deploy, UnStart or Failed when it raced with another writer: `ProtectedLostIff`,
  with `ProtectedLost`.
- Calls and results pair up unless the model sends result items itself, with `ForgedAnswer`; one result per call also
  needs distinct ids, with `RepeatedId`: `PairedIff`, `ExactlyOneResultIff`, `ChatOneResultIff`.
- A role's APIs can fail to cover its scopes after a completed request, because a request's transactions interleave
  with those of others, and after a replacement of the API list: `CoveredIff`, `CompletedIff`, with `OverlapLoses`.
- A repeated node request is idle only if its entries of one name agree: `RepeatIdleIff`.
- A cache entry can be an old list: rows created, deleted or written without an announcement after its array was
  read. A watcher that loads while a worker writes installs such an array. `UpToDateByActions`, with
  `StaleAfterInstall`.
- A group repeats a node whose role column repeats a role: `GroupIsFilterIff`. Role lists survive their column only if
  comma-free: `SplitJoinIff`, `LocalRolesIff`.
- A page request with a negative page or limit makes the slice expression panic: `ServedIff`. The cluster list
  repairs its request first and cannot panic.
- The licence formatter's offset is one byte short when only the header has CRs: `OffsetIff`, with `GoOffsetShort`.
  The comment above it says it is the position of the package line.

## Assumptions about the environment

- The work queue never hands one key to two workers at once, and one server process runs the engine.
- Claiming the next job is one atomic transaction, as its comment says.
- Agents report only jobs they were handed. Requests reach the server only after recovery. A recovery that reports an
  error ends the process, which is a crash; an error of one plan that another plan's goroutine overwrites is a step of
  the system.
- The storage executes single statements and transactions atomically and keeps the unique index on scopes.
- Nobody else writes the node rows of a plan while a request reconciles them.
- Every write of a task row sets a time column, so two versions of a row are never equal.
- A tunnel session exists only after the process authorised it. The clock a polling handler reads does not go back.
- Handlers, probes, tools, the model's answers and the success hook of a job answer anything.

## Model

| member | source | states |
|---|---|---|
| `PlanModel.BuildersAgree` | `pkg/controller/plan/worker.go:163-232` | both handler lists have eight handlers with distinct names, the same set of names, and no step that means failure, so switching the mode never changes which rows a plan has; their order is the subject of `StepOrder` |
| `StepOrder.HandlersAreSteps` | `pkg/controller/plan/worker.go:163-232` | each handler has the action, the job kind, the timeout and the step its name stands for, in either mode; apply, and nothing else, completes the deployment |
| `StepOrder.ModeTurn` | `pkg/controller/plan/worker.go:319-388` | handlers run in list order are run in this order: the engine image is prepared and the configuration rendered before bootstrap, then master, node, registration and the base components; prechecks come first in agent mode and after rendering in local mode |
| `StepOrder.FreshInTurn` | `pkg/controller/plan/worker.go:319-388` | in a run that begins with no rows, at every point each row that was ever started has the steps it builds on successful, and each row carries the action and step of its name |
| `PlanWorker.PlanStore.UpdateStatus` | `pkg/db/plan.go:448-453` | one write to the plan row: all of it or, on a storage error, nothing; no other plan is touched |
| `PlanWorker.PlanStore.GetTaskByName` | `pkg/db/plan.go:476-483` | tells a found row, a missing row and a storage error apart |
| `PlanWorker.PlanStore.CreateTask` | `pkg/db/plan.go:386-395` | adds exactly this row to this plan, or nothing on a storage error |
| `PlanWorker.PlanStore.UpdateTask` | `pkg/db/plan.go:397-407` | changes one row, answers "not found" exactly for a missing row, and can fail after the write went through because it reads the row back |
| `PlanWorker.PlanStore.ListTasks` | `pkg/db/plan.go:435-446` | every row of the plan once, with its current values |
| `PlanWorker.CreatePlanTasksIfNotExist` | `pkg/controller/plan/worker.go:234-265` | every access is a step of the run machine; without error the rows are those of creation stopping at the first row that exists |
| `PlanWorker.RunTask` | `pkg/controller/plan/worker.go:336-385` | one turn of the loop is a path of the run machine whatever the handler returns, wherever storage fails |
| `PlanWorker.SyncTasks` | `pkg/controller/plan/worker.go:319-388` | the whole run is a path of the run machine; it is complete, with the result returned, unless storage failed |
| `PlanWorker.SyncHandler` | `pkg/controller/plan/worker.go:124-161` | from no rows or all rows, in either mode: after every single write plan and rows agree, at most one row is Running, and a Running step has all the steps it builds on successful, named one by one; from no rows that holds for every row ever started; a run without storage error ends as its handlers returned, Completed exactly with plan Success and failed exactly with plan Failed, with all rows there for the next run; 57 accesses are enough for a run |
| `PlanWorker.RunIsWhole` | `pkg/controller/plan/worker.go:319-388` | a finished run that began with none or all of the rows ends with all of them and with the outcome of its first failing handler |
| `TaskRun.StepKeepsInv` | `pkg/controller/plan/worker.go:319-388` | no single access of a run breaks the tie between plan row and task rows |
| `TaskRun.StepKeepsOneRunning` | `pkg/controller/plan/worker.go:336-385` | only the row of the handler being executed is ever Running |
| `TaskRun.PathInv` | `pkg/controller/plan/worker.go:319-388` | along any run, stopped anywhere, plan and rows agree and at most one row is Running |
| `RunOutcome.CreatedRows` | `pkg/controller/plan/worker.go:234-265` | creation completes the set of rows exactly when the rows it finds are the rows of the last handlers |
| `RunOutcome.PathProgress` | `pkg/controller/plan/worker.go:319-388` | at every point of a run the rows before it are done, its own row says where it is and later rows are as creation left them |
| `RunOutcome.FinishedRun` | `pkg/controller/plan/worker.go:319-388` | a run without storage error stops after the last handler or at the first that fails; plan row, earlier rows, that row and later rows are exactly determined |
| `RunOutcome.CompletesIff` | `pkg/controller/plan/worker.go:234-265` | a run completes if and only if all handlers succeed and the rows present at the start were none, all or a tail; otherwise a missing row leaves the plan reading as running |
| `PlanWorker.CorrectTask` | `pkg/controller/plan/worker.go:297-309` | a row read as Running is written Failed, any other row is left alone |
| `PlanWorker.CorrectTasks` | `pkg/controller/plan/worker.go:297-309` | the loop corrects exactly the Running rows and knows whether there was one |
| `PlanWorker.SyncStatus` | `pkg/controller/plan/worker.go:291-317` | the restart pass of one plan gives the recovered tables, or on a storage error a first part of them; other plans are untouched |
| `PlanWorker.RecoveryExact` | `pkg/controller/plan/worker.go:291-317` | after recovery no row is Running, other rows are unchanged, the plan turns Failed exactly when it had a Running row, and a second pass changes nothing |
| `PlanWorker.StillRunningIff` | `pkg/controller/plan/plan.go:605-622` | after recovery a plan still reads as running if and only if its row said so and no task row was Running |
| `PlanWorker.CutShortStaysRunning` | `pkg/controller/plan/worker.go:297-316` | a pass cut short keeps the plan Running for every later pass if and only if it had corrected all Running rows but not written the plan row |
| `ProtocolTables.NextKeepsTables` | `pkg/controller/plan/worker.go:291-388` | every step of the system (worker accesses, starts, crashes, recovery steps) keeps the tie between plan row and task rows |
| `ProtocolTables.PlanStatusTellsRows` | `pkg/controller/plan/worker.go:372-378` | in every reachable state a plan that says Success has all eight rows and all are Success, one that says Failed has a Failed row |
| `ProtocolTables.NeverTwoRunning` | `pkg/controller/plan/worker.go:336-385` | without a storage error in the loop or lost by recovery no plan ever has two Running rows, crashes included |
| `ProtocolOrder.ExecutedInTurn` | `pkg/controller/plan/worker.go:319-388` | in every reachable state, after any errors, crashes and restarts, a step being executed has the steps it builds on successful in the rows as they are |
| `ProtocolTables.RestartRecovers` | `pkg/controller/plan/plan.go:515-541` | a restart not cut by another crash, and whose error for the plan is not lost, takes the plan exactly to what recovery makes of it |
| `ProtocolTables.StuckIff` | `pkg/controller/plan/plan.go:515-541` | in any behavior, errors included: after a crash and an uncut restart a plan still reads as running if and only if at the crash its row said so and none of its task rows was Running |
| `ProtocolTables.StuckCrashPoints` | `pkg/controller/plan/worker.go:291-317` | where those points lie in the program when the loop met no storage error: between two rows or before the last plan write, or a plan row already Running with no run at a row |
| `ProtocolJobs.NextMoves` | `pkg/db/job.go:43-96` | no step moves a job back, changes its owner or removes it |
| `ProtocolJobs.JobsOnlyMoveUp` | `pkg/db/job.go:43-96` | over any stretch of any behavior job status rank pending, running, terminal never decreases |
| `ProtocolJobs.HandoutTakes` | `pkg/db/job.go:73-96` | a claim takes the lowest pending id of that agent and leaves it not pending |
| `ProtocolJobs.HandoutsIncrease` | `pkg/db/job.go:73-96` | ids handed to one agent strictly increase and no job is handed out twice, to anyone |
| `ProtocolJobs.SettledNeverHanded` | `pkg/db/job.go:73-96` | a job that has left pending is never handed out again |
| `ProtocolJobs.TimedOutNeverHanded` | `pkg/controller/plan/agent_job.go:80-86` | a job that timed out while pending is never claimed afterwards |
| `ProtocolJobs.OneJobPerProcess` | `cmd/deploy-agent/main.go:67-98` | no agent process ever executes two jobs at once |
| `ProtocolJobs.FlipIff` | `pkg/controller/plan/agent_job.go:80-86` | the status of a terminal job changes in a step if and only if the step is a report of the opposite outcome, or the timeout of the handler that waits for it while it is in status success |
| `ProtocolWitness.TerminalFlips` | `pkg/controller/agent/agent.go:278-289` | a behavior in which a job goes from success to failed |
| `ProtocolJobs.OpenIff` | `pkg/controller/plan/agent_job.go:57-108` | an open job is the one its plan's run waits for if and only if it is not an orphan of a crash or a job-table error, and then every other open job of the plan is an orphan |
| `ProtocolJobs.OneOpenJob` | `pkg/controller/plan/agent_job.go:57-108` | two open jobs of one plan mean that one is an orphan and that a crash or a job-table error came earlier |
| `ProtocolWitness.TwoOpenJobs` | `pkg/controller/plan/agent_job.go:87-90` | a behavior in which one plan has two open jobs |
| `ProtocolJobs.SucceededOnce` | `pkg/controller/agent/agent.go:278-289` | a success that a worker relied on was the real status of the job at some earlier state, even if the job flipped since |
| `ProtocolJobs.StepsInOrder` | `pkg/controller/plan/worker.go:336-385` | a job of step k+1 exists only if the same run's job of step k was in status success at a state before it was created |
| `ProtocolJobs.NodeAfterMaster` | `pkg/controller/plan/worker.go:204-215` | no agent is handed deploy-node before deploy-master of the same plan and run succeeded |
| `JobTable.Table.Create` | `pkg/db/job.go:43-54` | appends the job under the next id, or nothing on error |
| `JobTable.Table.Get` | `pkg/db/job.go:56-65` | the status the row has now |
| `JobTable.Table.ClaimNext` | `pkg/db/job.go:73-96` | in one transaction the lowest pending id of the agent becomes running and nothing else moves; none if there is none; an error leaves the table alone |
| `JobTable.Table.Update` | `pkg/db/job.go:67-70` | writes the status of one job whatever it was, or nothing on an error |
| `JobTable.Table.ReportResult` | `pkg/controller/agent/agent.go:278-289` | writes the reported status whatever the row said before, so a terminal job can flip, or nothing on an error |
| `JobTable.RunAgentJob` | `pkg/controller/plan/agent_job.go:57-108` | whatever others do before every access, what the handler meets is one creation, then reads and two-second sleeps by turns until a read fails or finds the job terminal, or, when it wakes up after the deadline, one write; the last of these decides the answer: store failure if and only if the creation or that read failed, success or the hook's failure if and only if it read success, job failure if and only if it read failed, timeout if and only if it wrote; the wait is the minutes given or an hour; a timeout overwrites whatever the row said, success included, or fails unnoticed; no job goes back |
| `JobTable.DeployAgent.OnTick` | `cmd/deploy-agent/main.go:73-90` | claims only while nothing runs, and then exactly one job; it reports an error exactly when the claim failed, and a claim that went through but whose answer is lost leaves the agent idle and the job taken |
| `JobTable.DeployAgent.JobDone` | `cmd/deploy-agent/main.go:91-97` | when the job exits the flag is cleared and nothing is executing |
| `Backoff.IntervalFacts` | `pkg/jobmanager/backoff.go:53-62` | 30s doubled per failure up to four times, always within 30s and 480s; the count capped at 8 gives the same interval as the unbounded one |
| `Backoff.ProbeBackoff.ShouldProbe` | `pkg/jobmanager/backoff.go:65-74` | grants exactly when the interval has passed or the name is new, and then notes the time |
| `Backoff.ProbeBackoff.MarkResult` | `pkg/jobmanager/backoff.go:77-89` | success clears the count, failure adds one up to the cap; other names are untouched |
| `Backoff.ProbeBackoff.Cleanup` | `pkg/jobmanager/backoff.go:92-105` | the loops drop exactly the names that no longer exist, from both maps |
| `Backoff.CountIsCappedStreak` | `pkg/jobmanager/backoff.go:77-89` | over any history the stored count is the number of consecutive failures capped at 8 |
| `Backoff.LastIsGrant` | `pkg/jobmanager/backoff.go:65-74` | the stored time is that of the last granted probe |
| `Backoff.GrantedIff` | `pkg/jobmanager/backoff.go:53-105` | over any history a probe is granted if and only if its name has had none since it is known, or 30s, 1, 2, 4 or 8 minutes have passed since the last one after 0, 1, 2, 3 or more failures in a row |
| `Backoff.SpacedGrants` | `pkg/jobmanager/backoff.go:53-105` | two successive granted probes of a name are at least 30s * 2^min(consecutive failures, 4) apart, for any mix of calls and any clock readings above zero, in whatever order they arrive |
| `Backoff.WindowBound` | `pkg/jobmanager/backoff.go:53-105` | if the granted probes of a name fall into a window W there are at most 1 + W/30s of them, and at most 1 + W/480s after four straight failures; readings of other names are arbitrary |
| `Tunnel.Manager.Authorize` | `pkg/tunnel/manager.go:80-105` | succeeds exactly for a known token and then remembers the cluster |
| `Tunnel.CheckTunnelCluster` | `pkg/jobmanager/tunnel_syncer.go:91-149` | a cluster is probed exactly when it is a tunnel cluster outside Deploy, UnStart and Failed, known by session or earlier authorisation, and due; a probed one counts as connected exactly when there is a session and the cluster answers, and is then asked to be Running if it was Pending or Error, or Error if it was Running and is not connected, or left as it was; backoff table and connected flag on every branch |
| `Tunnel.SeenWasAuthorised` | `pkg/tunnel/manager.go:96-104` | a cluster a process has seen was authorised by it since it last started |
| `Tunnel.OnlyAuthorisedWrites` | `pkg/jobmanager/tunnel_syncer.go:104-110` | over any number of processes, one writes a cluster's row only if it authorised that cluster's tunnel itself earlier |
| `Tunnel.OnlyWritersTouchRows` | `pkg/jobmanager/tunnel_syncer.go:91-149` | no step of the syncer but a write changes the shared table |
| `Tunnel.WriteExact` | `pkg/jobmanager/tunnel_syncer.go:91-149` | every write goes back to a listing and then a probe of the same process and row; it notes whether the cluster answered through a session, sets Running or Error exactly if that calls for a change of the status listed, and changes nothing else |
| `Tunnel.UndisturbedPass` | `pkg/jobmanager/tunnel_syncer.go:118-146` | when the status is still the one listed, the write leaves the row Running and healthy exactly when at the probe of that pass the process had the session and the cluster answered, and it never leaves Deploy, UnStart or Failed |
| `Tunnel.ProtectedLostIff` | `pkg/jobmanager/tunnel_syncer.go:97-102` | under interleaving a late write leaves Deploy, UnStart or Failed if and only if what the probe found called for a change of the status listed before |
| `Tunnel.ProtectedLost` | `pkg/jobmanager/tunnel_syncer.go:97-146` | a behavior in which that happens |
| `ChatStream.ParseChat` | `pkg/controller/assistant/openai_chat.go:141-248` | fails exactly for an empty stream or an error event, with its message; else the deltas passed on, joined, are the text, and the calls are the accumulators in index order |
| `ChatStream.ApplyTools` | `pkg/controller/assistant/openai_chat.go:184-202` | one choice's fragments are merged into the accumulators one by one |
| `ChatStream.SortedKeys` | `pkg/controller/assistant/openai_chat.go:212-216` | the indices in strictly increasing order, each once |
| `ChatStream.AccumulatorsIndependent` | `pkg/controller/assistant/openai_chat.go:184-202` | an accumulator depends only on the fragments of its own index, in their order |
| `ChatRoundTrip.ReassemblyExact` | `pkg/controller/assistant/openai_chat.go:141-248` | round trip by positions: any text cut into any pieces and any calls cut into any fragments, put into events, choices and fragment lists in any way that keeps pieces and the fragments of each call in order, come back as that text, those calls in index order, and those pieces as deltas |
| `ChatRoundTrip.ErrorEnds` | `pkg/controller/assistant/openai_chat.go:170-173` | at the first error event the parser answers its message and has passed on exactly the pieces sent before it |
| `ChatRoundTrip.LastIdSent` | `pkg/controller/assistant/openai_chat.go:164-166` | the id answered is the last non-empty one sent |
| `ChatStream.OrderBetweenCallsIrrelevant` | `pkg/controller/assistant/openai_chat.go:184-230` | two streams that agree on text and, per index, on fragments give the same result |
| `OutputItems.UpsertOutputItem` | `pkg/controller/assistant/respond.go:783-800` | replaces the first item with the key or appends |
| `OutputItems.FoldedRefines` | `pkg/controller/assistant/respond.go:783-816` | after every event the list is the insertion-ordered map of the events so far |
| `OutputItems.FoldIsOrderedMap` | `pkg/controller/assistant/respond.go:783-816` | no non-empty key twice, slots in order of first appearance, last value per key, keyless items all kept in order |
| `OutputItems.LatestIsLast` | `pkg/controller/assistant/respond.go:783-800` | what a slot holds is the last event with its key |
| `OutputItems.KeyTells` | `pkg/controller/assistant/respond.go:802-816` | two items have one key exactly when their ids agree, or without ids their call ids, or without both their type and name, as far as no type contains a colon |
| `OutputItems.FoldById` | `pkg/controller/assistant/respond.go:783-816` | of items with ids exactly one is kept per id, and it is the last one with that id |
| `ResponseStream.ParseResponse` | `pkg/controller/assistant/respond.go:695-781` | deltas emitted up to the first failure; without one they spell the returned text, the items are the fold of all item events, the response is the last one seen |
| `ResponseStream.CompletedItems` | `pkg/controller/assistant/respond.go:741-744` | items announced, updated and completed under distinct keys, interleaved in any way, come back as exactly the completed items in order of announcement |
| `ResponseRoundTrip.ResponseExact` | `pkg/controller/assistant/respond.go:695-781` | round trip by positions: any text cut into any pieces and any items with distinct keys, announced, updated and completed in any number of events, interleaved in any way, come back as that text, the completed items in order of announcement, and those pieces as deltas |
| `ResponseRoundTrip.FailureEnds` | `pkg/controller/assistant/respond.go:749-754` | at the first failure event the parser answers its message and has passed on exactly the pieces sent before it |
| `ResponseRoundTrip.LastResponseSent` | `pkg/controller/assistant/respond.go:721-748` | the response answered is the last one sent |
| `ToolLoops.ChatLoop` | `pkg/controller/assistant/openai_chat.go:52-92` | at most eight requests whatever the model answers; the first is the input, and each next one is the one before, then the answer's text with its calls, then for each call in order its id with what running that very call gave; gives up exactly when the eighth answer still asks for tools |
| `ToolLoops.ChatRequestsAnswered` | `pkg/controller/assistant/openai_chat.go:63-89` | in every request each call is followed by its result, results are in call order, none lacks its call |
| `ToolLoops.ChatRequestsGrow` | `pkg/controller/assistant/openai_chat.go:73-88` | each request strictly extends the one before |
| `ToolLoops.ExtractOutputItems` | `pkg/controller/assistant/respond.go:617-632` | the objects among the output values, in order |
| `ToolLoops.ExtractToolCalls` | `pkg/controller/assistant/respond.go:634-664` | exactly the function calls with id and name, in order |
| `ToolLoops.ResponsesLoop` | `pkg/controller/assistant/respond.go:219-295` | at most eight requests; each is the one before, then the objects among the answer's output values at their positions, then for each callable one in order its id with what running that very call gave; it goes on exactly when an answer holds a function call with id and name, and gives up exactly when the eighth still does |
| `ToolLoops.TranscriptGrows` | `pkg/controller/assistant/respond.go:247-291` | the transcript only grows, strictly at every turn that asks for tools |
| `ToolLoops.TranscriptAnswered` | `pkg/controller/assistant/respond.go:247-291` | if the model sends no result items itself, every extracted call has its result, in call order, and no result lacks its call |
| `ToolLoops.PairedIff` | `pkg/controller/assistant/respond.go:247-291` | calls and results pair up in a request if and only if the model forged no result item |
| `ToolLoops.ExactlyOneResultIff` | `pkg/controller/assistant/respond.go:252-291` | in a request calls and results pair up with exactly one result per call id if and only if the answers so far contain no result item and no call id twice |
| `ToolLoops.ChatOneResultIff` | `pkg/controller/assistant/openai_chat.go:63-89` | the same for the chat loop, whose answers can hold no results: if and only if no call id occurs twice in the answers so far |
| `ToolLoops.ForgedAnswer` | `pkg/controller/assistant/respond.go:617-632` | any result item the model sends itself, after which the request does not pair up |
| `ToolLoops.RepeatedId` | `pkg/controller/assistant/respond.go:634-664` | an answer that repeats a call, after which the call has two results |
| `Licfmt.ScanLines` | `hack/tools/licfmt/licfmt.go:232-267` | the buffer and the number of dropped CRs of the scan |
| `Licfmt.ScanStops` | `hack/tools/licfmt/licfmt.go:257-262` | the scan stops at the first line that starts with the package word |
| `Licfmt.ScanPosition` | `hack/tools/licfmt/licfmt.go:232-267` | buffer length and dropped CRs add up to the position of the package line |
| `Licfmt.ScanBuffer` | `hack/tools/licfmt/licfmt.go:257-266` | the buffer is the LF form of exactly the bytes before the package line |
| `Licfmt.AddLicenseHeader` | `hack/tools/licfmt/licfmt.go:170-227` | rewrites exactly the files that have no licence and are not generated |
| `Licfmt.HasWord` | `hack/tools/licfmt/licfmt.go:159-167` | whether a word occurs in the header |
| `Licfmt.OffsetIff` | `hack/tools/licfmt/licfmt.go:188-193` | the offset is the first byte of the package line if and only if that line has a CR of its own or no header line has one; otherwise it is the newline before |
| `Licfmt.UniformExact` | `hack/tools/licfmt/licfmt.go:170-197` | with uniform LF or uniform CRLF and a newline after the package line, the result is the LF header, the licence, and the original bytes from the package line on |
| `Licfmt.Idempotent` | `hack/tools/licfmt/licfmt.go:170-180` | a second run changes nothing, for any file and any endings |
| `Licfmt.OffsetShort` | `hack/tools/licfmt/licfmt.go:188-193` | a file with CRLF endings and an unterminated package line, for which the offset is one short, for any word to look for |
| `Licfmt.GoOffsetShort` | `hack/tools/licfmt/licfmt.go:188-193` | such a Go file |
| `LicenseHeader.RewrittenIff` | `hack/tools/licfmt/licfmt.go:170-186` | a file is rewritten if and only if the bytes before its package line lack one of the licence words and hold neither word of a generated file; any other is left as it is |
| `LicenseHeader.RewrittenInto` | `hack/tools/licfmt/licfmt.go:188-227` | into its header in LF form, the licence, a newline, and the bytes from the package line on, after one more newline if the header held CR LF and the package line does not end in CR |
| `LicenseHeader.RewrittenWhole` | `hack/tools/licfmt/licfmt.go:182-197` | a file without a package line is rewritten into all of it in LF form, its last line ended, the licence and a newline, and one more newline if it was ended and held CR LF |
| `LicenseHeader.HeaderContains` | `hack/tools/licfmt/licfmt.go:232-267` | the scanned header holds a word exactly when the bytes before the package line do |
| `Nodes.NodeStore.ListNodes` | `pkg/db/plan.go:263-274` | what stands at the places of the plan's rows, all of them, in order |
| `Nodes.NodeStore.DeleteNodesByNames` | `pkg/db/plan.go:229-235` | deletes exactly the plan's rows with these names |
| `Nodes.NodeStore.GetNodeByName` | `pkg/db/plan.go:237-244` | the first row of the plan with the name |
| `Nodes.NodeStore.Surplus` | `pkg/controller/plan/plan_node.go:41-54` | the names of old rows that the request does not mention |
| `Nodes.NodeStore.CreateOrUpdateNode` | `pkg/controller/plan/plan_node.go:112-135` | creates a missing row, updates ip, role and auth of an existing one and bumps its version only if one differs; a storage error leaves the table alone |
| `Nodes.NodeStore.UpdateNodesIfNeeded` | `pkg/controller/plan/plan_node.go:34-73` | all of the reconciliation, or on a storage error or an entry whose credentials cannot be encoded a first part of it; nothing else makes it fail |
| `Nodes.ReconcileExact` | `pkg/controller/plan/plan_node.go:34-73` | exactly the requested names, each with ip, role and auth of its last entry; survivors keep id and other columns, new rows take user and runtime of their first entry and have new ids; other plans untouched; names and ids stay unique |
| `Nodes.RepeatIdleIff` | `pkg/controller/plan/plan_node.go:112-135` | repeating a request changes nothing, versions included, if and only if its entries of one name agree; otherwise every repetition bumps a version |
| `Nodes.RetryResumes` | `pkg/controller/plan/plan_node.go:34-73` | a reconciliation cut short by storage can be sent again: the retry ends in the table an undisturbed run would have left |
| `Inventory.JoinSplit` | `pkg/controller/plan/plan_node.go:155` | writing back what was read from a role column gives the column |
| `Inventory.SplitJoinIff` | `pkg/controller/plan/plan_node.go:85` | reading undoes writing if and only if the list is non-empty and its roles are comma-free |
| `Inventory.LocalRolesIff` | `pkg/planrender/render.go:206-209` | the local reading also undoes the empty list, at the price of the list of one empty role |
| `Inventory.NewPlan` | `pkg/planrender/render.go:169-220` | field by field the stored configuration and nodes, roles split at the commas unless the column is empty; fails exactly when a stored part of either does not decode |
| `Inventory.ListNodes` | `pkg/controller/plan/plan_node.go:92-108` | the nodes an agent gets; fails in the same cases |
| `Inventory.Disk.WriteRSA` | `pkg/planrender/render.go:150-166` | writes the key of a key node and nothing for others; fails without a key |
| `Inventory.BuildMultinode` | `pkg/planrender/render.go:83-148` | succeeds exactly when all credentials are there and all keys can be written; Docker fills the first and containerd the second pair of groups, each group with one line for every time a node names its role, in order, storage always; else the keys before the offending node are left |
| `Inventory.GroupIsFilterIff` | `pkg/planrender/render.go:120-144` | a group is the in-order filter of the nodes by role if and only if no node names the role twice |
| `Inventory.SameInventory` | `pkg/planrender/render.go:201-218` | local constructor and agent path give the same groups, the same failures and the same key files for every stored table |
| `Inventory.RequestedRolesKept` | `pkg/controller/plan/plan_node.go:75-90` | comma-free roles survive the column: either path sees every role as often as it was asked for |
| `Inventory.KeyFilesExact` | `pkg/planrender/render.go:102-110` | with distinct names every key node's file holds its own key and no other file changes |
| `Scopes.KeyInjective` | `pkg/db/role_api_scope.go:144-150` | the key tells all triples apart, also when the type contains the separator |
| `Scopes.PrepareScopeRecords` | `pkg/db/role_api_scope.go:81-102` | exactly the triples some entry asks for with positive ids and a type that is more than white space, trimmed, each once, in the order of the first entries that ask for them |
| `Scopes.PreparedExact` | `pkg/db/role_api_scope.go:81-102` | the records are duplicate-free and are exactly the valid triples asked for |
| `Scopes.PreparedGrows` | `pkg/db/role_api_scope.go:81-102` | records are in order of first mention |
| `Scopes.TrimIff` | `pkg/db/role_api_scope.go:47-49` | trimming takes the white space off both ends and nothing else |
| `Scopes.RoleStore.ReplaceScopes` | `pkg/db/role_api_scope.go:104-115` | the role's rows become the prepared records; the insert cannot conflict |
| `Scopes.RoleStore.AddScopes` | `pkg/db/role_api_scope.go:117-123` | adds the prepared records that are not there yet |
| `Scopes.RoleStore.RemoveScopes` | `pkg/db/role_api_scope.go:125-142` | removes exactly the triples named |
| `Scopes.MergeIDs` | `pkg/rbac/api/merge.go:20-39` | the positive ids of both lists, each once |
| `Scopes.RoleStore.ReplaceByRoleId` | `pkg/db/role_api.go:48-70` | the role's API rows become this list |
| `Scopes.RoleStore.UpdateAPIs` | `pkg/controller/role/role_api.go:74-98` | the API list becomes the ids asked for, each once, without a look at the scopes; it is an error, and changes nothing, if and only if an id is unknown or a storage access failed |
| `Scopes.DedupeInt64` | `pkg/controller/role/role_api.go:117-133` | the same ids, each once, in order of first occurrence |
| `ScopeRuns.RoleRows.SyncRoleAPIsFromScopes` | `pkg/controller/role/role_api_scope.go:118-140` | with other requests in between, the request reads scopes and APIs and writes the positive ones of both, each a separate action, or stops after a first part of that |
| `ScopeRuns.RoleRows.UpdateAPIScopes` | `pkg/controller/role/role_api_scope.go:71-116` | with other requests in between, the request does exactly its statements, two reads and the write, in this order, as actions of a behavior of the role's rows; or, if and only if one of its transactions failed, a proper first part of them |
| `ScopeRuns.StoredSet` | `pkg/db/role_api_scope.go:104-142` | after any interleaving of requests the stored scopes are duplicate-free and exactly the valid triples the actions grant |
| `ScopeRuns.ApisStored` | `pkg/controller/role/role_api_scope.go:118-140` | after any interleaving the API list is exactly what the actions grant: the last write of the list decides, with what its request knew when it read |
| `ScopeRuns.StoredBetween` | `pkg/db/role_api_scope.go:104-142` | a triple that has appeared between two states was stored by an action in between |
| `ScopeRuns.CoveredIff` | `pkg/controller/role/role_api_scope.go:111-139` | after any interleaving of scope updates and manual replacements the APIs cover the scopes if and only if the actions grant the API of every triple they grant |
| `ScopeRuns.CompletedIff` | `pkg/controller/role/role_api_scope.go:118-140` | when a request completes, the role is covered if and only if every triple that was stored between its read of the scopes and its write, and is still there, has an API the request knew |
| `ScopeRuns.UndisturbedCovers` | `pkg/controller/role/role_api_scope.go:111-139` | a request with no other store of scopes between its read and its write ends covered |
| `ScopeRuns.AloneExact` | `pkg/controller/role/role_api_scope.go:71-140` | a request nothing came between replaces the scopes, or removes what it names and then adds what it asks for, and leaves on the API list what was there and the API of every scope |
| `ScopeRuns.OverlapLoses` | `pkg/controller/role/role_api_scope.go:118-140` | an interleaving of two requests, both completed, that ends with a scope whose API is missing |
| `TaskCache.Cache.Get` | `pkg/client/task.go:55-67` | hands out the shared array and notes the use |
| `TaskCache.Cache.Set` | `pkg/client/task.go:69-83` | installs an array |
| `TaskCache.Cache.SetByTask` | `pkg/client/task.go:85-113` | the first element with the id becomes the task, in place, and nothing else of the array changes; other entries are untouched |
| `TaskCache.Cache.Delete` | `pkg/client/task.go:115-120` | drops the entry |
| `TaskCache.Cache.WaitForCacheSync` | `pkg/client/task.go:124-137` | keeps an entry that is there, else installs what the database said |
| `TaskCache.Cache.SyncTasks` | `pkg/client/task.go:139-169` | an entry survives exactly when used within five seconds and the database answered, and then holds that answer in a new array |
| `TaskCache.ServedReal` | `pkg/client/task.go:55-113` | in every interleaving each row served is a version this plan's row really had in the database |
| `TaskCache.ShapeKept` | `pkg/client/task.go:85-113` | an array handed out never gains, loses or reorders rows |
| `TaskCache.PassReloads` | `pkg/client/task.go:145-168` | after a whole pass every surviving entry holds exactly the database's list at a moment of the pass |
| `CacheFreshness.UpToDateByActions` | `pkg/client/task.go:85-137` | in every interleaving an entry is exactly the database's list if and only if, since its array was read, no row of the plan was created or deleted and no row was written without being announced into that array afterwards (two empty lists apart) |
| `CacheFreshness.UpToDateIff` | `pkg/client/task.go:85-137` | the same by the history kept with each array, which only actions change |
| `CacheFreshness.WatchedIff` | `pkg/client/task.go:55-67` | the same for the array a watcher holds, whether or not it is still the entry's |
| `CacheFreshness.GapRowIff` | `pkg/controller/plan/worker.go:342-379` | which row writes an array has missed: those after it was read that were not announced into it since |
| `CacheFreshness.ReshapedIff` | `pkg/controller/plan/worker.go:234-265` | whether an array has missed a creation or deletion of rows |
| `CacheFreshness.StaleAfterInstall` | `pkg/client/task.go:124-137` | an interleaving in which a watcher's late install loses an announced write |
| `Listing.StableSort` | `pkg/controller/cluster/util.go:59-61` | a stable sort, in place |
| `Listing.StrLessIff` | `pkg/controller/cluster/util.go:59-66` | strings are compared by the first character that differs, a proper beginning first |
| `Listing.StableUnique` | `pkg/controller/cluster/util.go:59-66` | sortedness and stability leave only one possible result |
| `Listing.SameFiltersPermute` | `pkg/controller/cluster/util.go:59-66` | a stable sort is a permutation |
| `Listing.SortTwice` | `pkg/controller/cluster/util.go:58-70` | by name and then by namespace, both stable, is one stable sort by namespace and name |
| `Listing.ForSorted` | `pkg/controller/cluster/util.go:58-70` | names never go down, over all namespaces the namespaces do not and names not within one; ties in original order |
| `Listing.OrderIrrelevant` | `pkg/controller/cluster/util.go:58-70` | with distinct keys the listing does not depend on the order the store hands objects out in |
| `Listing.ServedIff` | `pkg/types/meta.go:400-416` | a page request can be served if and only if paging is off, page and limit are positive, or the offset lies behind the list |
| `Listing.PageExact` | `pkg/types/meta.go:400-416` | a positive page request is answered with the objects from (page - 1) * limit on, as many as the limit and the list allow |
| `Listing.PagesConcat` | `pkg/controller/cluster/util.go:46-56` | for any positive limit the first n pages concatenate to the first n * limit objects |
| `Listing.AllPages` | `pkg/types/meta.go:404-416` | enough pages are the whole list, nothing lost or repeated |
| `Listing.ForQuery` | `pkg/controller/cluster/util.go:28-44` | the objects selected by label or name |
| `Listing.ListObjects` | `pkg/controller/cluster/util.go:72-80` | the objects whose labels or name contain what is searched for, at their positions, sorted, their number, and the page asked for |
| `Listing.List` | `pkg/controller/cluster/cluster.go:484-556` | all masters in the order of the query and then the sub-clusters whose owner is not among them, in theirs; the page asked for, where a page below 1 counts as 1, a limit below 1 as 10 and one above 100 as 100; no request can panic |
| `Listing.VisibleExact` | `pkg/controller/cluster/cluster.go:516-536` | masters always, a sub-cluster exactly when its owner is not listed as a master, each as often as the query returned it |
| `Listing.ClusterPagesConcat` | `pkg/controller/cluster/cluster.go:538-546` | for every limit, out-of-range ones included, the pages concatenate to the cluster list |

## Left out

- HTTP, validation and permission checks, CRUD wrappers: thin.
- Docker, SSH, Helm, Kubernetes, mail and websocket calls: their outcomes are arbitrary.
- JSON and YAML codecs and template text: the models start from decoded events and records.
- Server-sent-event framing: `data:` lines, their trimming and the `[DONE]` marker come before decoded events.
- Text taken from a response without text deltas: only when that happens is stated.
- Fields of a failed or repeated event other than those named in the event datatypes.
- Cluster status writes around a run: best effort, their errors are ignored by the code.
- Messages, timestamps and log columns, and log appending.
- Plan deletion and plan updates while a run is in progress.
- The checks before a start other than that the plan is not running.
- Machine integer overflow, scanner token limits and data races on plain variables: numbers are unbounded and each
  such access is atomic.
- Column widths and collations of the database.
- The concrete licence text: every text made of whole lines that contains both licence words and no package line.
- File handling of the licence formatter (temporary file, rename, modes).
- The direct-cluster syncer beyond its use of the backoff table, which any call history covers.
- Listing.StableSort: the library's stable sort is modelled by insertion sort; `Listing.StableUnique` shows that any other stable sort gives the same list.
- Nodes.NodeStore.CreateOrUpdateNode: does not model another writer changing the row between its read and its versioned update. That there is none is an assumption: the node controller updates and deletes rows of the same table.
- Nodes.NodeStore.UpdateNodesIfNeeded: does not model two overlapping requests for one plan, for the same reason; each call runs alone on the plan's rows.
- JobTable.Table.Get: a job row that disappeared, because no code deletes job rows.
- Tunnel.CheckTunnelCluster: the text and time columns of the connectivity condition.
- Token, user and client caches, the alert engine, and the create and delete sagas of permissions and clusters.
