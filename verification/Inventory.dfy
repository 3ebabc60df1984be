/** Rendering the inventory: role columns, the two plan constructors and the groups built from their nodes. */
module Inventory {
  import opened Collections
  import opened Nodes

  datatype Result<T> = Ok(value: T) | Error

  // ---------------------------------------------------------------- role columns

  predicate CommaFree(s: string) {
    ',' !in s
  }

  /** `strings.Split(s, ",")`: never empty, the empty text gives one empty part. */
  function Split(s: string): (parts: seq<string>)
    ensures |parts| >= 1 && forall k :: 0 <= k < |parts| ==> CommaFree(parts[k])
  {
    var i := Comma(s);
    if i == |s| then [s] else [s[..i]] + Split(s[i + 1..])
  }

  function Comma(s: string): (i: nat)
    ensures i <= |s| && CommaFree(s[..i]) && (i < |s| ==> s[i] == ',')
  {
    if s == "" || s[0] == ',' then 0 else
      assert s[..Comma(s[1..]) + 1] == [s[0]] + s[1..][..Comma(s[1..])];
      1 + Comma(s[1..])
  }

  lemma {:induction false} JoinSplit(s: string)
    ensures Join(Split(s)) == s
    decreases |s|
  {
    var i := Comma(s);
    if i < |s| {
      var part, rest := s[..i], s[i + 1..];
      JoinSplit(rest);
      JoinFirst(part, Split(rest));
      Cut(s, i);
      assert Split(s) == [part] + Split(rest);
    }
  }

  lemma Cut(s: string, i: nat)
    requires i < |s| && s[i] == ','
    ensures s == s[..i] + "," + s[i + 1..]
  {
  }

  lemma JoinFirst(part: string, rest: seq<string>)
    requires rest != []
    ensures Join([part] + rest) == part + "," + Join(rest)
  {
    assert ([part] + rest)[1..] == rest;
  }

  lemma CommaAfter(a: string, b: string)
    requires CommaFree(a)
    ensures Comma(a + "," + b) == |a|
  {
    var s := a + "," + b;
    assert s[|a|] == ',';
    assert s[..|a|] == a;
  }

  lemma {:induction false} SplitJoin(parts: seq<string>)
    requires parts != [] && forall k :: 0 <= k < |parts| ==> CommaFree(parts[k])
    ensures Split(Join(parts)) == parts
  {
    if |parts| == 1 {
      assert CommaFree(parts[0]);
      assert Comma(parts[0]) == |parts[0]|;
    } else {
      var rest := Join(parts[1..]);
      assert Join(parts) == parts[0] + "," + rest;
      CommaAfter(parts[0], rest);
      assert Join(parts)[..|parts[0]|] == parts[0] && Join(parts)[|parts[0]| + 1..] == rest;
      SplitJoin(parts[1..]);
    }
  }

  /** The agent path's reading of a role column undoes the writing exactly for non-empty lists of
      comma-free roles. */
  lemma SplitJoinIff(parts: seq<string>)
    ensures Split(Join(parts)) == parts <==> parts != [] && forall k :: 0 <= k < |parts| ==> CommaFree(parts[k])
  {
    if parts != [] && forall k :: 0 <= k < |parts| ==> CommaFree(parts[k]) { SplitJoin(parts); }
  }

  /** The local constructor's reading: no roles for the empty column. */
  function LocalRoles(column: string): seq<string> {
    if column == "" then [] else Split(column)
  }

  /** The local reading also undoes the empty list, at the price of the list of one empty role. */
  lemma LocalRolesIff(parts: seq<string>)
    ensures LocalRoles(Join(parts)) == parts <==> parts != [""] && forall k :: 0 <= k < |parts| ==> CommaFree(parts[k])
  {
    if parts == [] || parts == [""] {
    } else {
      assert Join(parts) != "";
      SplitJoinIff(parts);
    }
  }

  function Count(roles: seq<string>, role: string): nat {
    if roles == [] then 0 else Count(roles[..|roles| - 1], role) + if roles[|roles| - 1] == role then 1 else 0
  }

  /** Both readings of a column hold a non-empty role equally often. */
  lemma ReadingsAgree(column: string, role: string)
    requires role != ""
    ensures Count(LocalRoles(column), role) == Count(Split(column), role)
  {
    if column == "" { assert Split(column) == [""] && Count([""], role) == Count([], role); }
  }

  // ---------------------------------------------------------------- the two constructors

  datatype AuthType = KeyAuth | PasswordAuth | OtherAuth
  datatype Key = Key(data: string, file: string)
  datatype Auth = Auth(kind: AuthType, port: int, key: Option<Key>, password: Option<string>)

  /** A node row; `auth` is None when the stored text does not decode. */
  datatype Stored = Stored(name: string, role: string, cri: string, ip: string, auth: Option<Auth>)
  datatype PlanNode = PlanNode(name: string, roles: seq<string>, cri: string, ip: string, auth: Auth)

  ghost predicate Decodes(rows: seq<Stored>) {
    forall k :: 0 <= k < |rows| ==> rows[k].auth.Some?
  }

  /** A configuration row: four columns of encoded text, None where the text does not decode, and two plain
      ones. A number stands for a decoded value other than the runtime. */
  datatype StoredConfig = StoredConfig(region: string, osImage: string, kubernetes: Option<int>, network: Option<int>,
                                       runtime: Option<Runtime>, component: Option<int>)

  datatype Config = Config(region: string, osImage: string, kubernetes: int, network: int, runtime: Runtime, component: int)

  /** `config` is None for a plan without one. */
  datatype Plan = Plan(config: Option<Config>, nodes: seq<PlanNode>)

  predicate ConfigDecodes(c: StoredConfig) {
    c.kubernetes.Some? && c.network.Some? && c.runtime.Some? && c.component.Some?
  }

  function ConfigOf(c: StoredConfig): Config
    requires ConfigDecodes(c)
  {
    Config(c.region, c.osImage, c.kubernetes.value, c.network.value, c.runtime.value, c.component.value)
  }

  /** `planrender.NewPlan`. */
  method NewPlan(cfg: Option<StoredConfig>, rows: seq<Stored>) returns (r: Result<Plan>)
    ensures r.Ok? <==>
            && (cfg.Some? ==> cfg.value.kubernetes.Some? && cfg.value.network.Some? && cfg.value.runtime.Some? && cfg.value.component.Some?)
            && forall k :: 0 <= k < |rows| ==> rows[k].auth.Some?
    ensures r.Ok? ==> (r.value.config.Some? <==> cfg.Some?)
    ensures r.Ok? && cfg.Some? ==>
              var c, s := r.value.config.value, cfg.value;
              && c.region == s.region && c.osImage == s.osImage && Some(c.kubernetes) == s.kubernetes
              && Some(c.network) == s.network && Some(c.runtime) == s.runtime && Some(c.component) == s.component
    ensures r.Ok? ==> |r.value.nodes| == |rows|
    ensures r.Ok? ==> forall k :: 0 <= k < |rows| ==>
              var n, s := r.value.nodes[k], rows[k];
              && n == LocalNode(s) && n.name == s.name && n.cri == s.cri && n.ip == s.ip && Some(n.auth) == s.auth
              && (s.role == "" ==> n.roles == []) && (s.role != "" ==> n.roles == Split(s.role))
  {
    var config: Option<Config> := None;
    if cfg.Some? {
      var c := cfg.value;
      if c.kubernetes.None? { return Error; }
      if c.network.None? { return Error; }
      if c.runtime.None? { return Error; }
      if c.component.None? { return Error; }
      config := Some(ConfigOf(c));
    }
    var nodes: seq<PlanNode> := [];
    for k := 0 to |rows|
      invariant |nodes| == k && Decodes(rows[..k])
      invariant forall j :: 0 <= j < k ==> nodes[j] == LocalNode(rows[j])
    {
      if rows[k].auth.None? { return Error; }
      var roles := [];
      if rows[k].role != "" { roles := Split(rows[k].role); }
      nodes := nodes + [PlanNode(rows[k].name, roles, rows[k].cri, rows[k].ip, rows[k].auth.value)];
      assert rows[..k + 1] == rows[..k] + [rows[k]];
    }
    assert rows[..|rows|] == rows;
    r := Ok(Plan(config, nodes));
  }

  /** The nodes an agent gets: `ListNodes` over `modelNode2Type`, which leaves the runtime column out. */
  method ListNodes(rows: seq<Stored>) returns (r: Result<seq<PlanNode>>)
    ensures r.Ok? <==> forall k :: 0 <= k < |rows| ==> rows[k].auth.Some?
    ensures r.Ok? ==> |r.value| == |rows|
    ensures r.Ok? ==> forall k :: 0 <= k < |rows| ==>
              var n, s := r.value[k], rows[k];
              && n == AgentNode(s) && n.name == s.name && n.cri == "" && n.ip == s.ip && Some(n.auth) == s.auth
              && n.roles == Split(s.role)
  {
    var nodes: seq<PlanNode> := [];
    for k := 0 to |rows|
      invariant |nodes| == k && Decodes(rows[..k])
      invariant forall j :: 0 <= j < k ==> nodes[j] == AgentNode(rows[j])
    {
      if rows[k].auth.None? { return Error; }
      nodes := nodes + [PlanNode(rows[k].name, Split(rows[k].role), "", rows[k].ip, rows[k].auth.value)];
      assert rows[..k + 1] == rows[..k] + [rows[k]];
    }
    assert rows[..|rows|] == rows;
    r := Ok(nodes);
  }

  function LocalNode(n: Stored): PlanNode
    requires n.auth.Some?
  {
    PlanNode(n.name, LocalRoles(n.role), n.cri, n.ip, n.auth.value)
  }

  function AgentNode(n: Stored): PlanNode
    requires n.auth.Some?
  {
    PlanNode(n.name, Split(n.role), "", n.ip, n.auth.value)
  }

  // ---------------------------------------------------------------- building the groups

  const MASTER := "master"
  const NODE := "node"
  const STORAGE := "storage"

  datatype Runtime = Docker | Containerd | OtherRuntime

  /** One line of a group: the copied node, which keeps only name and credentials. */
  datatype Entry = Entry(name: string, auth: Auth)

  datatype Groups = Groups(dockerMaster: seq<Entry>, dockerNode: seq<Entry>,
                           containerdMaster: seq<Entry>, containerdNode: seq<Entry>, storage: seq<Entry>)

  predicate Usable(a: Auth) {
    (a.kind == KeyAuth ==> a.key.Some?) && (a.kind == PasswordAuth ==> a.password.Some?)
  }

  /** A key node refers to its key file by the path inside the engine container. */
  function Rendered(n: PlanNode): Entry {
    Entry(n.name,
          if n.auth.kind == KeyAuth && n.auth.key.Some?
          then n.auth.(key := Some(n.auth.key.value.(file := "/configs/ssh/" + n.name + "/id_rsa")))
          else n.auth)
  }

  function Copies(e: Entry, n: nat): seq<Entry> {
    if n == 0 then [] else Copies(e, n - 1) + [e]
  }

  /** The group of a role: every node in order, once for each time it has the role. */
  function Group(nodes: seq<PlanNode>, role: string): seq<Entry> {
    if nodes == [] then []
    else Group(nodes[..|nodes| - 1], role) + Copies(Rendered(nodes[|nodes| - 1]), Count(nodes[|nodes| - 1].roles, role))
  }

  function GroupsOf(runtime: Runtime, nodes: seq<PlanNode>): Groups {
    Groups(if runtime == Docker then Group(nodes, MASTER) else [],
           if runtime == Docker then Group(nodes, NODE) else [],
           if runtime == Containerd then Group(nodes, MASTER) else [],
           if runtime == Containerd then Group(nodes, NODE) else [],
           Group(nodes, STORAGE))
  }

  function KeyCount(nodes: seq<PlanNode>): nat {
    if nodes == [] then 0 else KeyCount(nodes[..|nodes| - 1]) + if nodes[|nodes| - 1].auth.kind == KeyAuth then 1 else 0
  }

  /** The key files after the nodes, by node name. */
  function KeyFiles(files: map<string, string>, nodes: seq<PlanNode>): map<string, string> {
    if nodes == [] then files
    else
      var n := nodes[|nodes| - 1];
      var before := KeyFiles(files, nodes[..|nodes| - 1]);
      if n.auth.kind == KeyAuth && n.auth.key.Some? then before[n.name := n.auth.key.value.data] else before
  }

  ghost predicate AllUsable(nodes: seq<PlanNode>) {
    forall k :: 0 <= k < |nodes| ==> Usable(nodes[k].auth)
  }

  /** Node k is where building stops: its credentials are missing, or its key cannot be written. */
  ghost predicate Stops(nodes: seq<PlanNode>, budget: nat, k: nat) {
    && k < |nodes| && AllUsable(nodes[..k]) && KeyCount(nodes[..k]) <= budget
    && (!Usable(nodes[k].auth) || (nodes[k].auth.kind == KeyAuth && KeyCount(nodes[..k]) == budget))
  }

  // ---------------------------------------------------------------- which lines a group has

  /** The role-th role of the node-th node. */
  datatype Slot = Slot(node: nat, role: nat)

  predicate Holds(nodes: seq<PlanNode>, s: Slot, role: string) {
    s.node < |nodes| && s.role < |nodes[s.node].roles| && nodes[s.node].roles[s.role] == role
  }

  predicate Sooner(s: Slot, t: Slot) {
    s.node < t.node || (s.node == t.node && s.role < t.role)
  }

  /** All the places where a node names the role, in order. */
  ghost predicate Places(nodes: seq<PlanNode>, role: string, at: seq<Slot>) {
    && (forall j, k :: 0 <= j < k < |at| ==> Sooner(at[j], at[k]))
    && (forall k :: 0 <= k < |at| ==> Holds(nodes, at[k], role))
    && (forall s :: Holds(nodes, s, role) ==> s in at)
  }

  /** The line of a node: its name and credentials, the key file replaced by its path inside the engine container. */
  predicate Line(n: PlanNode, e: Entry) {
    && e.name == n.name && e.auth.kind == n.auth.kind && e.auth.port == n.auth.port && e.auth.password == n.auth.password
    && (n.auth.kind == KeyAuth && n.auth.key.Some? ==>
          e.auth.key == Some(Key(n.auth.key.value.data, "/configs/ssh/" + n.name + "/id_rsa")))
    && (n.auth.kind != KeyAuth || n.auth.key.None? ==> e.auth.key == n.auth.key)
  }

  ghost predicate LinesAt(nodes: seq<PlanNode>, group: seq<Entry>, at: seq<Slot>) {
    |group| == |at| && forall k :: 0 <= k < |at| ==> at[k].node < |nodes| && Line(nodes[at[k].node], group[k])
  }

  /** A group has one line for every time a node names the role, in order. */
  ghost predicate IsGroup(nodes: seq<PlanNode>, role: string, group: seq<Entry>) {
    exists at :: Places(nodes, role, at) && LinesAt(nodes, group, at)
  }

  /** The runtime decides which pair of groups gets the masters and the nodes; storage nodes are listed always. */
  ghost predicate Sorted(runtime: Runtime, nodes: seq<PlanNode>, g: Groups) {
    && (if runtime.Docker? then IsGroup(nodes, "master", g.dockerMaster) && IsGroup(nodes, "node", g.dockerNode)
        else g.dockerMaster == [] && g.dockerNode == [])
    && (if runtime.Containerd? then IsGroup(nodes, "master", g.containerdMaster) && IsGroup(nodes, "node", g.containerdNode)
        else g.containerdMaster == [] && g.containerdNode == [])
    && IsGroup(nodes, "storage", g.storage)
  }

  /** All positions of a role in a list, in order. */
  ghost predicate RolesAt(roles: seq<string>, role: string, pos: seq<nat>) {
    && (forall j, k :: 0 <= j < k < |pos| ==> pos[j] < pos[k])
    && (forall k :: 0 <= k < |pos| ==> pos[k] < |roles| && roles[pos[k]] == role)
    && (forall h: nat :: h < |roles| && roles[h] == role ==> h in pos)
  }

  lemma {:induction false} RolePositions(roles: seq<string>, role: string) returns (pos: seq<nat>)
    ensures RolesAt(roles, role, pos) && |pos| == Count(roles, role)
  {
    if roles == [] {
      pos := [];
    } else {
      var n := |roles| - 1;
      pos := RolePositions(roles[..n], role);
      if roles[n] == role {
        RolesAtMore(roles, role, pos);
        pos := pos + [n];
      }
    }
  }

  lemma RolesAtMore(roles: seq<string>, role: string, pos: seq<nat>)
    requires roles != [] && roles[|roles| - 1] == role && RolesAt(roles[..|roles| - 1], role, pos)
    ensures RolesAt(roles, role, pos + [|roles| - 1])
  {
    var n := |roles| - 1;
    var more := pos + [n];
    forall h: nat | h < |roles| && roles[h] == role ensures h in more {
      assert h < n ==> roles[..n][h] == roles[h] && h in pos;
      InMore(pos, n, h);
    }
  }

  /** The places in node n, by the positions in its role list. */
  function SlotsIn(n: nat, pos: seq<nat>): seq<Slot> {
    seq(|pos|, k requires 0 <= k < |pos| => Slot(n, pos[k]))
  }

  lemma {:induction false} CopiesAt(e: Entry, n: nat)
    ensures |Copies(e, n)| == n && forall k :: 0 <= k < n ==> Copies(e, n)[k] == e
  {
    if n > 0 { CopiesAt(e, n - 1); }
  }

  lemma PlacesMore(nodes: seq<PlanNode>, role: string, at: seq<Slot>, pos: seq<nat>)
    requires nodes != [] && Places(nodes[..|nodes| - 1], role, at) && RolesAt(nodes[|nodes| - 1].roles, role, pos)
    ensures Places(nodes, role, at + SlotsIn(|nodes| - 1, pos))
  {
    var n := |nodes| - 1;
    var more := at + SlotsIn(n, pos);
    forall s | Holds(nodes, s, role) ensures s in more {
      if s.node == n {
        assert s.role in pos;
        var k :| 0 <= k < |pos| && pos[k] == s.role;
        assert more[|at| + k] == s;
      } else {
        assert Holds(nodes[..n], s, role);
        var k :| 0 <= k < |at| && at[k] == s;
        assert more[k] == s;
      }
    }
    forall k | 0 <= k < |more| ensures Holds(nodes, more[k], role) {
      if k < |at| { assert Holds(nodes[..n], at[k], role); }
    }
    forall j, k | 0 <= j < k < |more| ensures Sooner(more[j], more[k]) {
      if j < |at| { assert Holds(nodes[..n], at[j], role); }
    }
  }

  lemma {:induction false} GroupPlaces(nodes: seq<PlanNode>, role: string) returns (at: seq<Slot>)
    ensures Places(nodes, role, at) && LinesAt(nodes, Group(nodes, role), at)
  {
    if nodes == [] {
      at := [];
    } else {
      var n := |nodes| - 1;
      at := GroupPlaces(nodes[..n], role);
      var pos := RolePositions(nodes[n].roles, role);
      PlacesMore(nodes, role, at, pos);
      LinesMore(nodes, Group(nodes[..n], role), at, Rendered(nodes[n]), pos);
      at := at + SlotsIn(n, pos);
    }
  }

  lemma LinesMore(nodes: seq<PlanNode>, group: seq<Entry>, at: seq<Slot>, e: Entry, pos: seq<nat>)
    requires nodes != [] && LinesAt(nodes[..|nodes| - 1], group, at) && e == Rendered(nodes[|nodes| - 1])
    ensures LinesAt(nodes, group + Copies(e, |pos|), at + SlotsIn(|nodes| - 1, pos))
  {
    CopiesAt(e, |pos|);
    assert forall k :: 0 <= k < |at| ==> nodes[..|nodes| - 1][at[k].node] == nodes[at[k].node];
  }

  lemma GroupsSorted(runtime: Runtime, nodes: seq<PlanNode>)
    ensures Sorted(runtime, nodes, GroupsOf(runtime, nodes))
  {
    var m := GroupPlaces(nodes, "master");
    var n := GroupPlaces(nodes, "node");
    var s := GroupPlaces(nodes, "storage");
  }

  /** The work directory's key files; after `budget` writes the disk fails. */
  class Disk {
    var files: map<string, string>
    var budget: nat

    constructor (files: map<string, string>, budget: nat)
      ensures this.files == files && this.budget == budget
    {
      this.files, this.budget := files, budget;
    }

    /** `writeRSA`. */
    method WriteRSA(name: string, a: Auth) returns (ok: bool)
      modifies this
      ensures ok == (a.kind == KeyAuth ==> a.key.Some? && old(budget) > 0)
      ensures files == if ok && a.kind == KeyAuth then old(files)[name := a.key.value.data] else old(files)
      ensures budget == if ok && a.kind == KeyAuth then old(budget) - 1 else old(budget)
    {
      if a.kind != KeyAuth { return true; }
      if a.key.None? || budget == 0 { return false; }
      files, budget := files[name := a.key.value.data], budget - 1;
      ok := true;
    }
  }

  /** `buildMultinode`. It succeeds exactly when every node has its credentials and every key can be
      written; the groups are then the role groups of the configured runtime. Otherwise the keys of the
      nodes before the offending one are left behind. */
  method BuildMultinode(disk: Disk, runtime: Runtime, nodes: seq<PlanNode>) returns (r: Result<Groups>)
    modifies disk
    ensures r.Ok? <==> KeyCount(nodes) <= old(disk.budget) && forall k :: 0 <= k < |nodes| ==>
              var a := nodes[k].auth;
              (a.kind == KeyAuth ==> a.key.Some?) && (a.kind == PasswordAuth ==> a.password.Some?)
    ensures r.Ok? ==> Sorted(runtime, nodes, r.value)
    ensures r.Ok? ==> r.value == GroupsOf(runtime, nodes) && disk.files == KeyFiles(old(disk.files), nodes)
    ensures !r.Ok? ==> exists k: nat :: Stops(nodes, old(disk.budget), k) && disk.files == KeyFiles(old(disk.files), nodes[..k])
  {
    var dm, dn, cm, cn, st := [], [], [], [], [];
    for k := 0 to |nodes|
      invariant AllUsable(nodes[..k]) && KeyCount(nodes[..k]) + disk.budget == old(disk.budget)
      invariant disk.files == KeyFiles(old(disk.files), nodes[..k])
      invariant Groups(dm, dn, cm, cn, st) == GroupsOf(runtime, nodes[..k])
    {
      var node := nodes[k];
      NextNode(nodes, k);
      var auth := node.auth;
      var written := disk.WriteRSA(node.name, auth);
      if !written {
        StopsHere(nodes, old(disk.budget), k);
        return Error;
      }
      if auth.kind == KeyAuth {
        auth := auth.(key := Some(auth.key.value.(file := "/configs/ssh/" + node.name + "/id_rsa")));
      }
      if auth.kind == PasswordAuth && auth.password.None? {
        StopsHere(nodes, old(disk.budget), k);
        return Error;
      }
      var entry := Entry(node.name, auth);
      if runtime == Docker {
        dm := AddForRole(dm, entry, node.roles, MASTER);
        dn := AddForRole(dn, entry, node.roles, NODE);
      }
      if runtime == Containerd {
        cm := AddForRole(cm, entry, node.roles, MASTER);
        cn := AddForRole(cn, entry, node.roles, NODE);
      }
      st := AddForRole(st, entry, node.roles, STORAGE);
    }
    assert nodes[..|nodes|] == nodes;
    r := Ok(Groups(dm, dn, cm, cn, st));
    GroupsSorted(runtime, nodes);
  }

  /** The inner loop over a node's roles. */
  method AddForRole(group: seq<Entry>, e: Entry, roles: seq<string>, role: string) returns (r: seq<Entry>)
    ensures r == group + Copies(e, Count(roles, role))
  {
    r := group;
    for k := 0 to |roles|
      invariant r == group + Copies(e, Count(roles[..k], role))
    {
      assert roles[..k + 1][..k] == roles[..k];
      if roles[k] == role { r := r + [e]; }
    }
    assert roles[..|roles|] == roles;
  }

  lemma NextNode(nodes: seq<PlanNode>, k: nat)
    requires k < |nodes|
    ensures nodes[..k + 1] != [] && nodes[..k + 1][..k] == nodes[..k] && nodes[..k + 1][k] == nodes[k]
    ensures AllUsable(nodes[..k + 1]) <==> AllUsable(nodes[..k]) && Usable(nodes[k].auth)
    ensures KeyCount(nodes[..k + 1]) <= KeyCount(nodes)
    decreases |nodes|
  {
    assert nodes[..k + 1] == nodes[..k] + [nodes[k]];
    if k < |nodes| - 1 {
      NextNode(nodes[..|nodes| - 1], k);
      assert nodes[..|nodes| - 1][..k + 1] == nodes[..k + 1];
    } else {
      assert nodes[..k + 1] == nodes;
    }
  }

  lemma StopsHere(nodes: seq<PlanNode>, budget: nat, k: nat)
    requires Stops(nodes, budget, k)
    ensures !(AllUsable(nodes) && KeyCount(nodes) <= budget)
  {
    NextNode(nodes, k);
  }

  // ---------------------------------------------------------------- what the inventory holds

  /** The nodes with a role, in order. */
  function Holders(nodes: seq<PlanNode>, role: string): seq<Entry> {
    if nodes == [] then []
    else Holders(nodes[..|nodes| - 1], role) + if role in nodes[|nodes| - 1].roles then [Rendered(nodes[|nodes| - 1])] else []
  }

  lemma {:induction false} CountPositive(roles: seq<string>, role: string)
    ensures Count(roles, role) > 0 <==> role in roles
  {
    if roles != [] {
      CountPositive(roles[..|roles| - 1], role);
      assert roles == roles[..|roles| - 1] + [roles[|roles| - 1]];
    }
  }

  lemma {:induction false} GroupLength(nodes: seq<PlanNode>, role: string)
    ensures |Group(nodes, role)| >= |Holders(nodes, role)|
    ensures |Group(nodes, role)| == |Holders(nodes, role)| <==> forall k :: 0 <= k < |nodes| ==> Count(nodes[k].roles, role) <= 1
  {
    if nodes != [] {
      var front, last := nodes[..|nodes| - 1], nodes[|nodes| - 1];
      GroupLength(front, role);
      CountPositive(last.roles, role);
      CopiesAt(Rendered(last), Count(last.roles, role));
      assert forall k :: 0 <= k < |front| ==> front[k] == nodes[k];
    }
  }

  lemma {:induction false} GroupFilter(nodes: seq<PlanNode>, role: string)
    requires forall k :: 0 <= k < |nodes| ==> Count(nodes[k].roles, role) <= 1
    ensures Group(nodes, role) == Holders(nodes, role)
  {
    if nodes != [] {
      var front, last := nodes[..|nodes| - 1], nodes[|nodes| - 1];
      assert forall k :: 0 <= k < |front| ==> front[k] == nodes[k];
      GroupFilter(front, role);
      CountPositive(last.roles, role);
      FewCopies(Rendered(last));
      assert Count(last.roles, role) == if role in last.roles then 1 else 0;
    }
  }

  lemma FewCopies(e: Entry)
    ensures Copies(e, 0) == [] && Copies(e, 1) == [e]
  {
    assert Copies(e, 1) == Copies(e, 0) + [e];
  }

  /** A group is the in-order filter of the nodes by role exactly when no node names the role twice. */
  lemma GroupIsFilterIff(nodes: seq<PlanNode>, role: string)
    ensures Group(nodes, role) == Holders(nodes, role) <==> forall k :: 0 <= k < |nodes| ==> Count(nodes[k].roles, role) <= 1
  {
    GroupLength(nodes, role);
    if forall k :: 0 <= k < |nodes| ==> Count(nodes[k].roles, role) <= 1 { GroupFilter(nodes, role); }
  }

  /** Two nodes the inventory cannot tell apart. */
  ghost predicate Alike(a: PlanNode, b: PlanNode) {
    a.name == b.name && a.auth == b.auth && forall role :: role != "" ==> Count(a.roles, role) == Count(b.roles, role)
  }

  lemma {:induction false} AlikeGroup(a: seq<PlanNode>, b: seq<PlanNode>, role: string)
    requires |a| == |b| && role != "" && forall k :: 0 <= k < |a| ==> Alike(a[k], b[k])
    ensures Group(a, role) == Group(b, role)
  {
    if a != [] {
      assert Alike(a[|a| - 1], b[|b| - 1]);
      assert forall k :: 0 <= k < |a| - 1 ==> a[..|a| - 1][k] == a[k] && b[..|b| - 1][k] == b[k];
      AlikeGroup(a[..|a| - 1], b[..|b| - 1], role);
    }
  }

  lemma {:induction false} AlikeKeys(a: seq<PlanNode>, b: seq<PlanNode>, files: map<string, string>)
    requires |a| == |b| && forall k :: 0 <= k < |a| ==> Alike(a[k], b[k])
    ensures KeyCount(a) == KeyCount(b) && KeyFiles(files, a) == KeyFiles(files, b)
  {
    if a != [] {
      assert Alike(a[|a| - 1], b[|b| - 1]);
      assert forall k :: 0 <= k < |a| - 1 ==> a[..|a| - 1][k] == a[k] && b[..|b| - 1][k] == b[k];
      AlikeKeys(a[..|a| - 1], b[..|b| - 1], files);
    }
  }

  /** The local constructor and the agent path read an empty role column differently, yet for every
      stored table they give the same inventory, the same failures and the same key files. */
  lemma SameInventory(rows: seq<Stored>, local: seq<PlanNode>, agent: seq<PlanNode>, runtime: Runtime, files: map<string, string>)
    requires Decodes(rows) && |local| == |agent| == |rows|
    requires forall k :: 0 <= k < |rows| ==> local[k] == LocalNode(rows[k]) && agent[k] == AgentNode(rows[k])
    ensures GroupsOf(runtime, local) == GroupsOf(runtime, agent)
    ensures AllUsable(local) <==> AllUsable(agent)
    ensures KeyCount(local) == KeyCount(agent) && KeyFiles(files, local) == KeyFiles(files, agent)
  {
    forall k | 0 <= k < |rows| ensures Alike(local[k], agent[k]) {
      forall role | role != "" ensures Count(local[k].roles, role) == Count(agent[k].roles, role) {
        ReadingsAgree(rows[k].role, role);
      }
    }
    AlikeGroup(local, agent, MASTER);
    AlikeGroup(local, agent, NODE);
    AlikeGroup(local, agent, STORAGE);
    AlikeKeys(local, agent, files);
  }

  /** What a request asked for is what the inventory holds: for comma-free roles, writing the column and
      reading it back by either path keeps every non-empty role as often as it was asked for. */
  lemma RequestedRolesKept(roles: seq<string>, role: string)
    requires role != "" && forall k :: 0 <= k < |roles| ==> CommaFree(roles[k])
    ensures Count(Split(Join(roles)), role) == Count(LocalRoles(Join(roles)), role) == Count(roles, role)
  {
    ReadingsAgree(Join(roles), role);
    if roles == [] {
      assert Split("") == [""] && Count([""], role) == Count([], role);
    } else {
      SplitJoinIff(roles);
    }
  }

  /** With distinct names every key node's file holds its own key, and no other file is touched. */
  lemma {:induction false} KeyFilesExact(files: map<string, string>, nodes: seq<PlanNode>, name: string)
    requires AllUsable(nodes) && forall j, k :: 0 <= j < k < |nodes| ==> nodes[j].name != nodes[k].name
    ensures forall k :: 0 <= k < |nodes| && nodes[k].name == name && nodes[k].auth.kind == KeyAuth ==>
              name in KeyFiles(files, nodes) && KeyFiles(files, nodes)[name] == nodes[k].auth.key.value.data
    ensures (forall k :: 0 <= k < |nodes| ==> nodes[k].name != name || nodes[k].auth.kind != KeyAuth) ==>
              (name in KeyFiles(files, nodes) <==> name in files) && (name in files ==> KeyFiles(files, nodes)[name] == files[name])
  {
    if nodes != [] {
      var front := nodes[..|nodes| - 1];
      assert forall k :: 0 <= k < |front| ==> front[k] == nodes[k];
      KeyFilesExact(files, front, name);
    }
  }
}
