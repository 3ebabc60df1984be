/** The tunnel syncer: what one process decides about one cluster, and what several processes sharing
    one cluster table can do to it. */
module Tunnel {
  import Backoff

  datatype ClusterStatus = Running | Deploy | UnStart | Failed | Error | Pending

  datatype Cluster = Cluster(name: string, permissionId: int, tunnel: bool, status: ClusterStatus, healthy: bool)

  predicate Protected(s: ClusterStatus) {
    s.Deploy? || s.UnStart? || s.Failed?
  }

  datatype Verdict = NoWrite | Update(connected: bool, status: ClusterStatus)

  /** The status a probe result asks for, given the status read. */
  function Desired(status: ClusterStatus, connected: bool): ClusterStatus {
    if connected && (status.Pending? || status.Error?) then Running
    else if !connected && status.Running? then Error
    else status
  }

  /** The decision taken for a listed cluster; `reachable` is what the request through the tunnel finds. */
  function Check(obj: Cluster, hasSession: bool, seen: bool, granted: bool, reachable: bool): Verdict {
    if obj.permissionId != 0 || Protected(obj.status) || (!hasSession && !seen) || !granted then NoWrite
    else Update(hasSession && reachable, Desired(obj.status, hasSession && reachable))
  }

  /** What a probe may ask for: a cluster that answers is Running, one that was Running and does not is in
      Error, any other is left as it was read. */
  predicate Asked(read: ClusterStatus, connected: bool, status: ClusterStatus) {
    && (connected && (read.Pending? || read.Error?) ==> status == Running)
    && (!connected && read.Running? ==> status == Error)
    && (!(connected && (read.Pending? || read.Error?)) && !(!connected && read.Running?) ==> status == read)
  }

  /** `InternalUpdate`: the probe result is always written, the status only when it was meant to change. */
  function Written(row: Cluster, read: ClusterStatus, v: Verdict): Cluster
    requires v.Update?
  {
    row.(healthy := v.connected, status := if v.status != read then v.status else row.status)
  }

  // ---------------------------------------------------------------- one process

  class Manager {
    var seen: set<string>
    var sessions: set<string>
    var connected: map<string, bool>

    constructor ()
      ensures seen == {} && sessions == {} && connected == map[]
    {
      seen, sessions, connected := {}, {}, map[];
    }

    /** `authorize`: `name` is what the token resolves to, empty when it resolves to nothing. */
    method Authorize(token: string, name: string, lookupFails: bool) returns (ok: bool)
      modifies this`seen
      ensures ok == (token != "" && !lookupFails && name != "")
      ensures seen == if ok then old(seen) + {name} else old(seen)
    {
      if token == "" || lookupFails || name == "" { return false; }
      seen := seen + {name};
      ok := true;
    }

    method SetAgentConnected(name: string, c: bool)
      modifies this`connected
      ensures connected == if name == "" then old(connected) else old(connected)[name := c]
    {
      if name == "" { return; }
      connected := connected[name := c];
    }
  }

  /** `checkTunnelCluster`, up to the row update it asks for. The backoff table is consulted only for a
      cluster that is going to be probed, and a probed cluster's result is recorded. */
  method CheckTunnelCluster(tm: Manager, backoff: Backoff.ProbeBackoff, obj: Cluster, now: nat, reachable: bool) returns (v: Verdict)
    modifies tm`connected, backoff
    ensures var b := old(backoff.View());
            var has, seen := obj.name in tm.sessions, obj.name in tm.seen;
            var skipped := obj.status.Deploy? || obj.status.UnStart? || obj.status.Failed?;
            var probed := obj.permissionId == 0 && !skipped && (has || seen) && Backoff.Grants(b, obj.name, now);
            && v == Check(obj, has, seen, Backoff.Grants(b, obj.name, now), reachable)
            && (v.Update? <==> probed)
            && (probed ==> v.connected == (has && reachable) && Asked(obj.status, v.connected, v.status))
            && backoff.View() == (if probed then
                                    Backoff.Do(Backoff.Do(b, Backoff.ShouldProbe(obj.name, now)),
                                               Backoff.MarkResult(obj.name, has && reachable))
                                  else b)
            && tm.connected == (if obj.name == "" || obj.permissionId != 0 then old(tm.connected)
                                else if probed then old(tm.connected)[obj.name := has && reachable]
                                else if skipped || !(has || seen) then old(tm.connected)[obj.name := false]
                                else old(tm.connected))
  {
    if obj.permissionId != 0 { return NoWrite; }
    match obj.status {
      case Deploy => tm.SetAgentConnected(obj.name, false); return NoWrite;
      case UnStart => tm.SetAgentConnected(obj.name, false); return NoWrite;
      case Failed => tm.SetAgentConnected(obj.name, false); return NoWrite;
      case _ =>
    }
    if obj.name !in tm.sessions && obj.name !in tm.seen {
      tm.SetAgentConnected(obj.name, false);
      return NoWrite;
    }
    var due := backoff.ShouldProbe(obj.name, now);
    if !due { return NoWrite; }
    var connected := obj.name in tm.sessions && reachable;
    backoff.MarkResult(obj.name, connected);
    tm.SetAgentConnected(obj.name, connected);
    var desired := obj.status;
    if connected && (obj.status.Pending? || obj.status.Error?) {
      desired := Running;
    } else if !connected && obj.status.Running? {
      desired := Error;
    }
    v := Update(connected, desired);
  }

  // ---------------------------------------------------------------- many processes, one table

  /** A cluster this pass of a process has listed: still to be checked, or checked and about to be written. */
  datatype Item = Listed(obj: Cluster) | ToWrite(obj: Cluster, v: Verdict)

  datatype Server = Server(seen: set<string>, sessions: set<string>, pass: map<int, Item>)

  datatype State = State(rows: map<int, Cluster>, servers: map<int, Server>)

  datatype Action =
    | Restart(q: int)
    | Authorize(q: int, name: string)
    | Connect(q: int, name: string)
    | Disconnect(q: int, name: string)
    | List(q: int)
    | Probe(q: int, id: int, granted: bool, reachable: bool)
    | Write(q: int, id: int)
    | Other(id: int, row: Cluster) // any other writer: create or overwrite
    | Remove(id: int)

  ghost predicate Init(s: State) {
    s.servers == map[]
  }

  ghost predicate Next(s: State, a: Action, s': State) {
    match a
    case Restart(q) => s' == s.(servers := s.servers[q := Server({}, {}, map[])])
    case Authorize(q, n) =>
      q in s.servers && s' == s.(servers := s.servers[q := s.servers[q].(seen := s.servers[q].seen + {n})])
    case Connect(q, n) => // a session exists only after authorisation by the same process
      && q in s.servers && n in s.servers[q].seen
      && s' == s.(servers := s.servers[q := s.servers[q].(sessions := s.servers[q].sessions + {n})])
    case Disconnect(q, n) =>
      q in s.servers && s' == s.(servers := s.servers[q := s.servers[q].(sessions := s.servers[q].sessions - {n})])
    case List(q) =>
      && q in s.servers
      && s' == s.(servers := s.servers[q := s.servers[q].(pass :=
                   map i | i in s.rows && s.rows[i].tunnel && s.rows[i].permissionId == 0 :: Listed(s.rows[i]))])
    case Probe(q, id, granted, reachable) =>
      && q in s.servers && id in s.servers[q].pass && s.servers[q].pass[id].Listed?
      && var c, obj := s.servers[q], s.servers[q].pass[id].obj;
         var v := Check(obj, obj.name in c.sessions, obj.name in c.seen, granted, reachable);
         s' == s.(servers := s.servers[q := c.(pass := if v.NoWrite? then c.pass - {id} else c.pass[id := ToWrite(obj, v)])])
    case Write(q, id) =>
      && q in s.servers && id in s.servers[q].pass && s.servers[q].pass[id].ToWrite? && s.servers[q].pass[id].v.Update?
      && var c, item := s.servers[q], s.servers[q].pass[id];
         s' == State(if id in s.rows then s.rows[id := Written(s.rows[id], item.obj.status, item.v)] else s.rows,
                     s.servers[q := c.(pass := c.pass - {id})])
    case Other(id, row) => s' == s.(rows := s.rows[id := row])
    case Remove(id) => s' == s.(rows := s.rows - {id})
  }

  ghost predicate Behavior(ss: seq<State>, acts: seq<Action>) {
    && |ss| == |acts| + 1 && Init(ss[0])
    && forall k :: 0 <= k < |acts| ==> Next(ss[k], acts[k], ss[k + 1])
  }

  /** Everything a process knows of a cluster it learned by authorising it. */
  ghost predicate ServerInv(c: Server) {
    && c.sessions <= c.seen
    && forall id :: id in c.pass && c.pass[id].ToWrite? ==>
         var item := c.pass[id];
         && item.obj.name in c.seen && item.v.Update? && !Protected(item.obj.status)
         && item.v.status == Desired(item.obj.status, item.v.connected)
  }

  lemma NextKeepsServers(s: State, a: Action, s': State)
    requires Next(s, a, s') && forall q :: q in s.servers ==> ServerInv(s.servers[q])
    ensures forall q :: q in s'.servers ==> ServerInv(s'.servers[q])
  {
  }

  lemma {:induction false} BehaviorServers(ss: seq<State>, acts: seq<Action>, k: nat)
    requires Behavior(ss, acts) && k < |ss|
    ensures forall q :: q in ss[k].servers ==> ServerInv(ss[k].servers[q])
  {
    if k > 0 {
      BehaviorServers(ss, acts, k - 1);
      NextKeepsServers(ss[k - 1], acts[k - 1], ss[k]);
    }
  }

  lemma {:induction false} SeenWasAuthorised(ss: seq<State>, acts: seq<Action>, k: nat, q: int, n: string) returns (i: nat)
    requires Behavior(ss, acts) && k < |ss| && q in ss[k].servers && n in ss[k].servers[q].seen
    ensures i < k && acts[i] == Authorize(q, n)
    ensures forall m :: i < m < k ==> acts[m] != Restart(q)
  {
    assert k > 0;
    if acts[k - 1] == Authorize(q, n) {
      i := k - 1;
    } else {
      SeenBefore(ss[k - 1], acts[k - 1], ss[k], q, n);
      i := SeenWasAuthorised(ss, acts, k - 1, q, n);
    }
  }

  lemma SeenBefore(s: State, a: Action, s': State, q: int, n: string)
    requires Next(s, a, s') && q in s'.servers && n in s'.servers[q].seen && a != Authorize(q, n)
    ensures q in s.servers && n in s.servers[q].seen && a != Restart(q)
  {
  }

  /** A process writes a cluster's row only if, since it last started, it authorised that cluster's
      tunnel itself; and no syncer step but a write touches the table. */
  lemma OnlyAuthorisedWrites(ss: seq<State>, acts: seq<Action>, k: nat, q: int, id: int) returns (i: nat)
    requires Behavior(ss, acts) && k < |acts| && acts[k] == Write(q, id)
    ensures q in ss[k].servers && id in ss[k].servers[q].pass
    ensures i < k && acts[i] == Authorize(q, ss[k].servers[q].pass[id].obj.name)
    ensures forall m :: i < m < k ==> acts[m] != Restart(q)
  {
    BehaviorServers(ss, acts, k);
    assert Next(ss[k], acts[k], ss[k + 1]);
    i := SeenWasAuthorised(ss, acts, k, q, ss[k].servers[q].pass[id].obj.name);
  }

  lemma OnlyWritersTouchRows(s: State, a: Action, s': State)
    requires Next(s, a, s') && s'.rows != s.rows
    ensures a.Write? || a.Other? || a.Remove?
  {
  }

  /** The action in which the item of a pass was listed, and the row it was listed as. */
  ghost predicate ListedAt(ss: seq<State>, acts: seq<Action>, l: nat, k: nat, q: int, id: int, obj: Cluster) {
    && l < k <= |acts| && k < |ss| && acts[l] == List(q) && id in ss[l].rows && ss[l].rows[id] == obj
    && (forall m :: l < m < k ==> acts[m] != List(q) && acts[m] != Restart(q) && acts[m] != Write(q, id))
  }

  /** The action in which an item about to be written was probed, and what the probe found. */
  ghost predicate ProbedAt(ss: seq<State>, acts: seq<Action>, i: nat, k: nat, q: int, id: int, obj: Cluster, v: Verdict) {
    && i < k <= |acts| && k < |ss| && acts[i].Probe? && acts[i].q == q && acts[i].id == id && acts[i].granted
    && (forall m :: i < m < k ==> acts[m] != List(q) && acts[m] != Restart(q) && acts[m] != Write(q, id))
    && q in ss[i].servers && v.Update? && !Protected(obj.status)
    && (v.connected <==> obj.name in ss[i].servers[q].sessions && acts[i].reachable)
    && Asked(obj.status, v.connected, v.status)
  }

  predicate InPass(s: State, q: int, id: int) {
    q in s.servers && id in s.servers[q].pass
  }

  /** What a step does to an item of a pass: it stays, or it was just listed or probed. */
  lemma ItemStep(s: State, a: Action, s': State, q: int, id: int)
    requires Next(s, a, s') && InPass(s', q, id)
    ensures a != Restart(q) && a != Write(q, id)
    ensures a == List(q) ==> id in s.rows && s'.servers[q].pass[id] == Listed(s.rows[id])
    ensures a != List(q) ==> InPass(s, q, id) && s'.servers[q].pass[id].obj == s.servers[q].pass[id].obj
    ensures s'.servers[q].pass[id].ToWrite? ==>
              var obj, v := s'.servers[q].pass[id].obj, s'.servers[q].pass[id].v;
              || (a != List(q) && s.servers[q].pass[id] == s'.servers[q].pass[id])
              || (a.Probe? && a.q == q && a.id == id && a.granted && v.Update? && !Protected(obj.status)
                  && (v.connected <==> obj.name in s.servers[q].sessions && a.reachable) && Asked(obj.status, v.connected, v.status))
  {
  }

  lemma {:induction false} WasListed(ss: seq<State>, acts: seq<Action>, k: nat, q: int, id: int) returns (l: nat)
    requires Behavior(ss, acts) && k < |ss| && InPass(ss[k], q, id)
    ensures ListedAt(ss, acts, l, k, q, id, ss[k].servers[q].pass[id].obj)
  {
    assert k > 0;
    assert Next(ss[k - 1], acts[k - 1], ss[k]);
    ItemStep(ss[k - 1], acts[k - 1], ss[k], q, id);
    if acts[k - 1] == List(q) { l := k - 1; } else { l := WasListed(ss, acts, k - 1, q, id); }
  }

  lemma {:induction false} WasProbed(ss: seq<State>, acts: seq<Action>, k: nat, q: int, id: int) returns (i: nat)
    requires Behavior(ss, acts) && k < |ss| && InPass(ss[k], q, id) && ss[k].servers[q].pass[id].ToWrite?
    ensures ProbedAt(ss, acts, i, k, q, id, ss[k].servers[q].pass[id].obj, ss[k].servers[q].pass[id].v)
  {
    assert k > 0;
    var s, a := ss[k - 1], acts[k - 1];
    assert Next(s, a, ss[k]);
    ItemStep(s, a, ss[k], q, id);
    if a != List(q) && s.servers[q].pass[id] == ss[k].servers[q].pass[id] {
      i := WasProbed(ss, acts, k - 1, q, id);
    } else {
      i := k - 1;
    }
  }

  /** What the probe at action i found: the cluster answers through a session of this very process. */
  predicate Answers(ss: seq<State>, acts: seq<Action>, i: nat, q: int, name: string) {
    i < |acts| && i < |ss| && acts[i].Probe? && q in ss[i].servers && name in ss[i].servers[q].sessions && acts[i].reachable
  }

  /** Whether a probe calls for a change of the status listed. */
  predicate CallsForChange(read: ClusterStatus, answers: bool) {
    (answers && (read.Pending? || read.Error?)) || (!answers && read.Running?)
  }

  /** Every write of a process goes back to a listing and a probe of the same pass, in this order, and does
      exactly this: it notes what the probe found, sets Running or Error if that calls for a change of the
      status listed, and leaves everything else as it is, whatever others have written since. */
  lemma WriteExact(ss: seq<State>, acts: seq<Action>, k: nat, q: int, id: int) returns (l: nat, i: nat)
    requires Behavior(ss, acts) && k < |acts| && acts[k] == Write(q, id)
    ensures l < i < k && acts[l] == List(q) && id in ss[l].rows && acts[i].Probe? && acts[i].q == q && acts[i].id == id
    ensures ss[k + 1].rows.Keys == ss[k].rows.Keys && forall j :: j in ss[k].rows && j != id ==> ss[k + 1].rows[j] == ss[k].rows[j]
    ensures id in ss[k].rows ==>
              var read, answers := ss[l].rows[id].status, Answers(ss, acts, i, q, ss[l].rows[id].name);
              ss[k + 1].rows[id] == ss[k].rows[id].(healthy := answers,
                status := if !CallsForChange(read, answers) then ss[k].rows[id].status else if answers then Running else Error)
    ensures !ss[l].rows[id].status.Deploy? && !ss[l].rows[id].status.UnStart? && !ss[l].rows[id].status.Failed?
  {
    assert Next(ss[k], acts[k], ss[k + 1]);
    l := WasListed(ss, acts, k, q, id);
    i := WasProbed(ss, acts, k, q, id);
    assert i != l;
  }

  /** When the status is still the one that was listed, a probed pass leaves the row Running and healthy exactly
      when the process had the tunnel session at the probe and the cluster answered, and never takes it out of
      Deploy, UnStart or Failed. */
  lemma UndisturbedPass(ss: seq<State>, acts: seq<Action>, k: nat, q: int, id: int) returns (l: nat, i: nat)
    requires Behavior(ss, acts) && k < |acts| && acts[k] == Write(q, id) && id in ss[k].rows
    ensures l < i < k && acts[l] == List(q) && id in ss[l].rows && acts[i].Probe? && acts[i].q == q && acts[i].id == id
    ensures id in ss[k + 1].rows && (ss[k + 1].rows[id].healthy <==> Answers(ss, acts, i, q, ss[l].rows[id].name))
    ensures ss[k].rows[id].status == ss[l].rows[id].status ==>
              && (ss[k + 1].rows[id].status.Running? <==> Answers(ss, acts, i, q, ss[l].rows[id].name))
              && !Protected(ss[k].rows[id].status) && !Protected(ss[k + 1].rows[id].status)
  {
    l, i := WriteExact(ss, acts, k, q, id);
  }

  /** Under interleaving the claim about protected statuses fails; this is exactly when. A syncer write
      takes a row out of Deploy, UnStart or Failed if and only if the row went there after it was listed
      and what the probe found called for a change of the status listed. */
  lemma ProtectedLostIff(ss: seq<State>, acts: seq<Action>, k: nat, q: int, id: int) returns (l: nat, i: nat)
    requires Behavior(ss, acts) && k < |acts| && acts[k] == Write(q, id) && id in ss[k].rows && Protected(ss[k].rows[id].status)
    ensures l < i < k && acts[l] == List(q) && id in ss[l].rows && acts[i].Probe? && acts[i].q == q && acts[i].id == id
    ensures id in ss[k + 1].rows
    ensures ss[k + 1].rows[id].status != ss[k].rows[id].status <==>
            CallsForChange(ss[l].rows[id].status, Answers(ss, acts, i, q, ss[l].rows[id].name))
  {
    l, i := WriteExact(ss, acts, k, q, id);
  }

  lemma LostStart(c: Cluster) returns (s0: State, s1: State, s2: State, s3: State)
    requires c == Cluster("c", 0, true, Pending, false)
    ensures Init(s0) && Next(s0, Restart(1), s1) && Next(s1, Authorize(1, "c"), s2) && Next(s2, Connect(1, "c"), s3)
    ensures s3.rows == map[7 := c] && 1 in s3.servers && s3.servers[1] == Server({"c"}, {"c"}, map[])
  {
    s0 := State(map[7 := c], map[]);
    s1 := s0.(servers := s0.servers[1 := Server({}, {}, map[])]);
    s2 := s1.(servers := s1.servers[1 := s1.servers[1].(seen := s1.servers[1].seen + {"c"})]);
    s3 := s2.(servers := s2.servers[1 := s2.servers[1].(sessions := s2.servers[1].sessions + {"c"})]);
  }

  lemma LostMiddle(c: Cluster, v: Verdict, s3: State) returns (s4: State, s5: State)
    requires c == Cluster("c", 0, true, Pending, false) && v == Update(true, Running)
    requires s3.rows == map[7 := c] && 1 in s3.servers && s3.servers[1] == Server({"c"}, {"c"}, map[])
    ensures Next(s3, List(1), s4) && Next(s4, Probe(1, 7, true, true), s5)
    ensures s5.rows == s3.rows && 1 in s5.servers && 7 in s5.servers[1].pass && s5.servers[1].pass[7] == ToWrite(c, v)
  {
    var pass := map i | i in s3.rows && s3.rows[i].tunnel && s3.rows[i].permissionId == 0 :: Listed(s3.rows[i]);
    s4 := s3.(servers := s3.servers[1 := s3.servers[1].(pass := pass)]);
    s5 := s4.(servers := s4.servers[1 := s4.servers[1].(pass := pass[7 := ToWrite(c, v)])]);
    assert Check(c, "c" in s4.servers[1].sessions, "c" in s4.servers[1].seen, true, true) == v;
  }

  /** Such a behavior: the cluster is read Pending, a deployment starts, the late write says Running. */
  lemma ProtectedLost() returns (ss: seq<State>, acts: seq<Action>)
    ensures Behavior(ss, acts) && |acts| == 7 && acts[6] == Write(1, 7)
    ensures 7 in ss[6].rows && 7 in ss[7].rows && ss[6].rows[7].status.Deploy? && ss[7].rows[7].status.Running?
  {
    var c := Cluster("c", 0, true, Pending, false);
    var d := c.(status := Deploy);
    var v := Update(true, Running);
    acts := [Restart(1), Authorize(1, "c"), Connect(1, "c"), List(1), Probe(1, 7, true, true), Other(7, d), Write(1, 7)];
    var s0, s1, s2, s3 := LostStart(c);
    var s4, s5 := LostMiddle(c, v, s3);
    var s6 := s5.(rows := s5.rows[7 := d]);
    var s7 := State(s6.rows[7 := Written(d, Pending, v)],
                    s6.servers[1 := s6.servers[1].(pass := s6.servers[1].pass - {7})]);
    ss := [s0, s1, s2, s3, s4, s5, s6, s7];
    assert Next(ss[3], acts[3], ss[4]) && Next(ss[4], acts[4], ss[5]) && Next(ss[5], acts[5], ss[6]);
    assert Next(ss[6], acts[6], ss[7]);
  }
}
