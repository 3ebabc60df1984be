/** The order of the steps, over every behavior of the system. */
module ProtocolOrder {
  import opened Collections
  import opened PlanModel
  import opened StepOrder
  import opened TaskRun
  import opened Protocol
  import opened ProtocolTables
  import opened ProtocolJobs

  lemma RunInTurn(s: State, p: int) returns (mode: ExecMode)
    requires TablesInv(s) && p in s.runs && Known(s.runs[p].hs) && s.runs[p].ph.Executing?
    ensures p in s.db && s.runs[p].ph.i < |s.runs[p].hs|
    ensures InTurn(mode, s.db[p], {s.runs[p].hs[s.runs[p].ph.i].name}) && IsStep(mode, s.runs[p].hs[s.runs[p].ph.i])
  {
    var r := s.runs[p];
    assert RunOf(s, p) == Some(r);
    mode := if r.hs == BuildAgentHandlers() then AgentMode else LocalMode;
    StepInTurn(mode, s.db[p], r.ph.i);
  }

  /** In every reachable state, whatever errors, crashes and restarts came before: a step that is being
      executed has all the steps it builds on done, in the rows as they are. */
  lemma ExecutedInTurn(ss: seq<State>, acts: seq<Action>, k: nat, p: int) returns (mode: ExecMode)
    requires Behavior(ss, acts) && k < |ss| && p in ss[k].runs && ss[k].runs[p].ph.Executing?
    ensures p in ss[k].db && ss[k].runs[p].ph.i < |ss[k].runs[p].hs|
    ensures InTurn(mode, ss[k].db[p], {ss[k].runs[p].hs[ss[k].runs[p].ph.i].name})
    ensures IsStep(mode, ss[k].runs[p].hs[ss[k].runs[p].ph.i])
  {
    BehaviorTables(ss, acts, k);
    BehaviorActions(ss, acts, k);
    mode := RunInTurn(ss[k], p);
  }
}
