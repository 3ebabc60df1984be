/** Node reconciliation: bringing a plan's node rows in line with an update request. */
module Nodes {

  datatype Node = Node(id: nat, plan: int, name: string, user: int, role: string, cri: string, ip: string, auth: string, version: nat)

  /** `auth` is the encoded credentials, if `encodes`. */
  datatype Request = Request(name: string, user: int, roles: seq<string>, cri: string, ip: string, auth: string, encodes: bool)

  function Join(parts: seq<string>): string {
    if parts == [] then "" else if |parts| == 1 then parts[0] else parts[0] + "," + Join(parts[1..])
  }

  /** The node table, rows in id order, and the next id. */
  datatype Table = Table(rows: seq<Node>, nextId: nat)

  predicate Is(n: Node, p: int, name: string) {
    n.plan == p && n.name == name
  }

  /** The first row of the plan with the name, or the table size. */
  function Find(rows: seq<Node>, p: int, name: string): (i: nat)
    ensures i <= |rows| && (i < |rows| ==> Is(rows[i], p, name)) && forall k :: 0 <= k < i ==> !Is(rows[k], p, name)
  {
    if rows == [] || Is(rows[0], p, name) then 0 else 1 + Find(rows[1..], p, name)
  }

  predicate Has(rows: seq<Node>, p: int, name: string) {
    Find(rows, p, name) < |rows|
  }

  function Built(t: Table, p: int, r: Request): Node {
    Node(t.nextId, p, r.name, r.user, Join(r.roles), r.cri, r.ip, r.auth, 0)
  }

  predicate Matches(n: Node, r: Request) {
    n.ip == r.ip && n.role == Join(r.roles) && n.auth == r.auth
  }

  /** `CreateOrUpdateNode` of the node built from the request. */
  function Put(t: Table, p: int, r: Request): Table {
    var i := Find(t.rows, p, r.name);
    if i == |t.rows| then Table(t.rows + [Built(t, p, r)], t.nextId + 1)
    else if Matches(t.rows[i], r) then t
    else t.(rows := t.rows[i := t.rows[i].(ip := r.ip, role := Join(r.roles), auth := r.auth, version := t.rows[i].version + 1)])
  }

  function PutAll(t: Table, p: int, rs: seq<Request>): Table {
    if rs == [] then t else Put(PutAll(t, p, rs[..|rs| - 1]), p, rs[|rs| - 1])
  }

  lemma PutAllNext(t: Table, p: int, rs: seq<Request>, i: nat)
    requires i < |rs|
    ensures PutAll(t, p, rs[..i + 1]) == Put(PutAll(t, p, rs[..i]), p, rs[i]) && rs[..i + 1] == rs[..i] + [rs[i]]
  {
    assert rs[..i + 1][..i] == rs[..i];
  }

  predicate Requested(rs: seq<Request>, name: string) {
    exists k :: 0 <= k < |rs| && rs[k].name == name
  }

  /** The rows left once the plan's rows that are not requested are deleted. */
  function Kept(rows: seq<Node>, p: int, rs: seq<Request>): seq<Node> {
    if rows == [] then []
    else Kept(rows[..|rows| - 1], p, rs) +
         if Stays(rows[|rows| - 1], p, rs) then [rows[|rows| - 1]] else []
  }

  function Reconciled(t: Table, p: int, rs: seq<Request>): Table {
    PutAll(t.(rows := Kept(t.rows, p, rs)), p, rs)
  }

  // ---------------------------------------------------------------- the code

  /** The node table of the database. After `budget` statements the storage fails. */
  class NodeStore {
    var rows: seq<Node>
    var nextId: nat
    var budget: nat

    constructor (budget: nat)
      ensures View() == Table([], 1) && this.budget == budget
    {
      rows, nextId, this.budget := [], 1, budget;
    }

    function View(): Table
      reads this
    {
      Table(rows, nextId)
    }

    method Spend() returns (ok: bool)
      modifies this`budget
      ensures ok == (old(budget) > 0) && budget <= old(budget) && (old(budget) < 1 || budget == old(budget) - 1)
    {
      ok := budget > 0;
      if ok { budget := budget - 1; }
    }

    method ListNodes(p: int) returns (list: seq<Node>)
      ensures list == PlanRows(rows, p)
      ensures exists at :: RowsAt(rows, p, at, list)
    {
      list := [];
      for k := 0 to |rows|
        invariant list == PlanRows(rows[..k], p)
      {
        assert rows[..k + 1][..k] == rows[..k];
        if rows[k].plan == p { list := list + [rows[k]]; }
      }
      assert rows[..|rows|] == rows;
      ghost var at := PlanRowsAt(rows, p);
    }

    /** `DELETE ... WHERE plan_id = ? AND name IN (?)`. */
    method DeleteNodesByNames(p: int, names: set<string>, ghost rs: seq<Request>)
      requires forall n :: n in rows && n.plan == p ==> (n.name in names <==> !Requested(rs, n.name))
      modifies this`rows
      ensures rows == Kept(old(rows), p, rs)
    {
      var kept, k := [], 0;
      while k < |rows|
        invariant 0 <= k <= |rows| && kept == Kept(rows[..k], p, rs)
      {
        assert rows[..k + 1][..k] == rows[..k] && rows[k] in rows;
        if rows[k].plan != p || rows[k].name !in names { kept := kept + [rows[k]]; }
        k := k + 1;
      }
      assert rows[..|rows|] == rows;
      rows := kept;
    }

    method GetNodeByName(p: int, name: string) returns (i: nat)
      ensures i == Find(rows, p, name)
    {
      i := 0;
      while i < |rows| && !Is(rows[i], p, name)
        invariant 0 <= i <= |rows| && Find(rows, p, name) == i + Find(rows[i..], p, name)
      {
        assert rows[i..][1..] == rows[i + 1..];
        i := i + 1;
      }
    }

    /** A read, then at most one write; a failure of either leaves the table as it was. */
    method CreateOrUpdateNode(p: int, r: Request) returns (ok: bool)
      modifies this
      ensures View() == if ok then Put(old(View()), p, r) else old(View())
      ensures (!ok ==> old(budget) < 2) && budget + 2 >= old(budget)
    {
      ok := Spend();
      if !ok { return; }
      var i := GetNodeByName(p, r.name);
      if i == |rows| {
        ok := Spend();
        if ok {
          rows := rows + [Node(nextId, p, r.name, r.user, Join(r.roles), r.cri, r.ip, r.auth, 0)];
          nextId := nextId + 1;
        }
        return;
      }
      var row := rows[i];
      var updates := false;
      if row.ip != r.ip { row := row.(ip := r.ip); updates := true; }
      if row.role != Join(r.roles) { row := row.(role := Join(r.roles)); updates := true; }
      if row.auth != r.auth { row := row.(auth := r.auth); updates := true; }
      if !updates { return; }
      ok := Spend();
      if ok { rows := rows[i := row.(version := row.version + 1)]; }
    }

    /** The names of the old rows that the request does not mention. */
    static method Surplus(oldNodes: seq<Node>, rs: seq<Request>) returns (del: set<string>)
      ensures forall n :: n in oldNodes ==> (n.name in del <==> !Requested(rs, n.name))
    {
      var newNames, k := {}, 0;
      while k < |rs|
        invariant 0 <= k <= |rs| && forall n :: n in newNames <==> Requested(rs[..k], n)
      {
        RequestedNext(rs, k);
        newNames := newNames + {rs[k].name};
        k := k + 1;
      }
      assert rs[..|rs|] == rs;
      del, k := {}, 0;
      while k < |oldNodes|
        invariant 0 <= k <= |oldNodes|
        invariant forall n :: n in del ==> n !in newNames
        invariant forall j :: 0 <= j < k ==> oldNodes[j].name in newNames || oldNodes[j].name in del
      {
        if oldNodes[k].name !in newNames { del := del + {oldNodes[k].name}; }
        k := k + 1;
      }
    }

    /** The entries one by one, up to the first whose credentials do not encode or whose storage fails. */
    method PutNodes(p: int, rs: seq<Request>) returns (ok: bool, ghost k: nat)
      modifies this
      ensures k <= |rs| && View() == PutAll(old(View()), p, rs[..k]) && (ok ==> k == |rs|)
      ensures old(budget) >= 2 * |rs| && AllEncode(rs) ==> ok
      ensures ok ==> AllEncode(rs)
    {
      k, ok := 0, true;
      for i := 0 to |rs|
        invariant k == i && View() == PutAll(old(View()), p, rs[..i])
        invariant old(budget) >= 2 * |rs| ==> budget >= 2 * (|rs| - i)
        invariant ok && AllEncode(rs[..i])
      {
        PutAllNext(old(View()), p, rs, i);
        if !rs[i].encodes { return false, k; }
        ok := CreateOrUpdateNode(p, rs[i]);
        if !ok { return; }
        k := k + 1;
      }
    }

    /** `updateNodesIfNeeded`: all of the reconciliation, or a first part of it. */
    method UpdateNodesIfNeeded(p: int, rs: seq<Request>) returns (ok: bool)
      modifies this
      ensures ok ==> View() == Reconciled(old(View()), p, rs)
      ensures !ok ==> View() == old(View()) || exists k :: PartlyReconciled(old(View()), View(), p, rs, k)
      ensures old(budget) >= 2 + 2 * |rs| && (forall k :: 0 <= k < |rs| ==> rs[k].encodes) ==> ok
      ensures ok ==> forall k :: 0 <= k < |rs| ==> rs[k].encodes
    {
      ok := Spend();
      if !ok { return; }
      var oldNodes := ListNodes(p);
      forall n ensures n in oldNodes <==> n in rows && n.plan == p { PlanRowsIn(rows, p, n); }
      var del := Surplus(oldNodes, rs);
      if del != {} {
        ok := Spend();
        if !ok { return; }
        DeleteNodesByNames(p, del, rs);
      } else {
        KeptAll(rows, p, rs);
      }
      ghost var k;
      ok, k := PutNodes(p, rs);
      assert rs[..|rs|] == rs;
      assert PartlyReconciled(old(View()), View(), p, rs, k);
    }
  }

  ghost predicate AllEncode(rs: seq<Request>) {
    forall k :: 0 <= k < |rs| ==> rs[k].encodes
  }

  /** The deletion and the first `k` entries are done. */
  ghost predicate PartlyReconciled(t: Table, t': Table, p: int, rs: seq<Request>, k: nat) {
    k <= |rs| && t' == PutAll(t.(rows := Kept(t.rows, p, rs)), p, rs[..k])
  }

  lemma RequestedNext(rs: seq<Request>, k: nat)
    requires k < |rs|
    ensures forall n :: Requested(rs[..k + 1], n) <==> Requested(rs[..k], n) || n == rs[k].name
  {
    forall n ensures Requested(rs[..k + 1], n) <==> Requested(rs[..k], n) || n == rs[k].name {
      if Requested(rs[..k], n) {
        var j :| 0 <= j < k && rs[..k][j].name == n;
        assert rs[..k + 1][j].name == n;
      }
      assert rs[..k + 1][k] == rs[k];
      if Requested(rs[..k + 1], n) && n != rs[k].name {
        var j :| 0 <= j <= k && rs[..k + 1][j].name == n;
        assert rs[..k][j].name == n;
      }
    }
  }

  lemma {:induction false} KeptAll(rows: seq<Node>, p: int, rs: seq<Request>)
    requires forall i :: 0 <= i < |rows| ==> Stays(rows[i], p, rs)
    ensures Kept(rows, p, rs) == rows
  {
    if rows != [] {
      assert Stays(rows[|rows| - 1], p, rs);
      KeptAll(rows[..|rows| - 1], p, rs);
    }
  }

  /** The rows of the plan, in id order. */
  function PlanRows(rows: seq<Node>, p: int): seq<Node> {
    if rows == [] then []
    else PlanRows(rows[..|rows| - 1], p) + if rows[|rows| - 1].plan == p then [rows[|rows| - 1]] else []
  }

  /** `at` are the places of all the plan's rows, in order, and `list` is what stands there. */
  ghost predicate RowsAt(rows: seq<Node>, p: int, at: seq<nat>, list: seq<Node>) {
    && |list| == |at| && (forall j, k :: 0 <= j < k < |at| ==> at[j] < at[k])
    && (forall k :: 0 <= k < |at| ==> at[k] < |rows| && rows[at[k]].plan == p && list[k] == rows[at[k]])
    && (forall i :: 0 <= i < |rows| && rows[i].plan == p ==> i in at)
  }

  lemma {:induction false} PlanRowsAt(rows: seq<Node>, p: int) returns (at: seq<nat>)
    ensures RowsAt(rows, p, at, PlanRows(rows, p))
  {
    at := [];
    if rows != [] {
      var n := |rows| - 1;
      var before := PlanRowsAt(rows[..n], p);
      at := before + if rows[n].plan == p then [n] else [];
      forall i | 0 <= i < |rows| && rows[i].plan == p ensures i in at {
        if i < n { assert rows[..n][i] == rows[i] && i in before; } else { assert at[|before|] == n; }
      }
    }
  }

  lemma {:induction false} PlanRowsIn(rows: seq<Node>, p: int, n: Node)
    ensures n in PlanRows(rows, p) <==> n in rows && n.plan == p
  {
    if rows != [] {
      PlanRowsIn(rows[..|rows| - 1], p, n);
      assert rows == rows[..|rows| - 1] + [rows[|rows| - 1]];
    }
  }

  predicate Stays(n: Node, p: int, rs: seq<Request>) {
    n.plan != p || Requested(rs, n.name)
  }

  // ---------------------------------------------------------------- uniqueness and other plans

  predicate Differ(a: Node, b: Node) {
    a.id != b.id && (a.plan != b.plan || a.name != b.name)
  }

  /** Distinct ids, all below the next one, and no name twice in one plan. */
  ghost predicate Unique(t: Table) {
    && (forall i, j :: 0 <= i < j < |t.rows| ==> Differ(t.rows[i], t.rows[j]))
    && (forall i :: 0 <= i < |t.rows| ==> t.rows[i].id < t.nextId)
  }

  /** The rows of the other plans, in order. */
  function Others(rows: seq<Node>, p: int): seq<Node> {
    if rows == [] then []
    else Others(rows[..|rows| - 1], p) + if rows[|rows| - 1].plan == p then [] else [rows[|rows| - 1]]
  }

  /** The row of the plan with this name. */
  function Row(t: Table, p: int, name: string): Node
    requires Has(t.rows, p, name)
  {
    t.rows[Find(t.rows, p, name)]
  }

  lemma FindUnique(t: Table, p: int, name: string, i: nat)
    requires Unique(t) && i < |t.rows| && Is(t.rows[i], p, name)
    ensures Find(t.rows, p, name) == i
  {
  }

  lemma {:induction false} KeptRows(rows: seq<Node>, p: int, rs: seq<Request>, n: Node)
    ensures n in Kept(rows, p, rs) <==> n in rows && (n.plan != p || Requested(rs, n.name))
  {
    if rows != [] {
      var front, last := rows[..|rows| - 1], rows[|rows| - 1];
      KeptRows(front, p, rs, n);
      assert rows == front + [last];
    }
  }

  lemma {:induction false} KeptOthers(rows: seq<Node>, p: int, rs: seq<Request>)
    ensures Others(Kept(rows, p, rs), p) == Others(rows, p)
  {
    if rows != [] {
      var front, last := rows[..|rows| - 1], rows[|rows| - 1];
      KeptOthers(front, p, rs);
      OthersJoin(Kept(front, p, rs), last, p);
      assert Kept(front, p, rs) + [] == Kept(front, p, rs) && Others(front, p) + [] == Others(front, p);
    }
  }

  lemma OthersJoin(rows: seq<Node>, n: Node, p: int)
    ensures Others(rows + [n], p) == Others(rows, p) + if n.plan == p then [] else [n]
  {
    assert (rows + [n])[..|rows|] == rows;
  }

  lemma {:induction false} OthersUpdate(rows: seq<Node>, p: int, i: nat, n: Node)
    requires i < |rows| && rows[i].plan == p && n.plan == p
    ensures Others(rows[i := n], p) == Others(rows, p)
  {
    if i < |rows| - 1 {
      OthersUpdate(rows[..|rows| - 1], p, i, n);
      assert rows[i := n][..|rows| - 1] == rows[..|rows| - 1][i := n];
    } else {
      assert rows[i := n][..|rows| - 1] == rows[..|rows| - 1];
    }
  }

  /** Adding a row that differs from every row. */
  lemma UniqueAdd(t: Table, n: Node, nextId: nat)
    requires Unique(t) && t.nextId <= nextId && n.id < nextId && forall m :: m in t.rows ==> Differ(m, n)
    ensures Unique(Table(t.rows + [n], nextId))
  {
  }

  lemma {:induction false} KeptUnique(rows: seq<Node>, nextId: nat, p: int, rs: seq<Request>)
    requires Unique(Table(rows, nextId))
    ensures Unique(Table(Kept(rows, p, rs), nextId))
  {
    if rows != [] {
      var front, last := rows[..|rows| - 1], rows[|rows| - 1];
      assert forall i :: 0 <= i < |front| ==> front[i] == rows[i];
      KeptUnique(front, nextId, p, rs);
      var k := Kept(front, p, rs);
      assert k + [] == k;
      forall m | m in k ensures Differ(m, last) {
        KeptRows(front, p, rs, m);
        var j :| 0 <= j < |front| && front[j] == m;
        assert Differ(rows[j], rows[|rows| - 1]);
      }
      UniqueAdd(Table(k, nextId), last, nextId);
    }
  }

  /** Which names are left by the deletion, and that their rows are the old ones. */
  lemma KeptRow(t: Table, p: int, rs: seq<Request>, name: string)
    requires Unique(t)
    ensures var k := t.(rows := Kept(t.rows, p, rs));
            && (Has(k.rows, p, name) <==> Has(t.rows, p, name) && Requested(rs, name))
            && (Has(k.rows, p, name) ==> Row(k, p, name) == Row(t, p, name))
  {
    var k := t.(rows := Kept(t.rows, p, rs));
    KeptUnique(t.rows, t.nextId, p, rs);
    if Has(t.rows, p, name) && Requested(rs, name) {
      KeptRows(t.rows, p, rs, Row(t, p, name));
      var i :| 0 <= i < |k.rows| && k.rows[i] == Row(t, p, name);
      FindUnique(k, p, name, i);
    } else if Has(k.rows, p, name) {
      KeptRows(t.rows, p, rs, Row(k, p, name));
    }
  }

  // ---------------------------------------------------------------- one entry

  lemma PutKeepsUnique(t: Table, p: int, r: Request)
    requires Unique(t)
    ensures Unique(Put(t, p, r)) && t.nextId <= Put(t, p, r).nextId
  {
    var i := Find(t.rows, p, r.name);
    if i == |t.rows| {
      forall m | m in t.rows ensures Differ(m, Built(t, p, r)) {
        var j :| 0 <= j < |t.rows| && t.rows[j] == m;
        assert !Is(t.rows[j], p, r.name);
      }
      UniqueAdd(t, Built(t, p, r), t.nextId + 1);
    } else {
      UniqueUpdate(t, i, Put(t, p, r).rows[i]);
    }
  }

  lemma UniqueUpdate(t: Table, i: nat, n: Node)
    requires Unique(t) && i < |t.rows| && SameIdentity(t.rows[i], n)
    ensures Unique(t.(rows := t.rows[i := n]))
  {
    var rows := t.rows[i := n];
    forall j, k | 0 <= j < k < |rows| ensures Differ(rows[j], rows[k]) {
      assert Differ(t.rows[j], t.rows[k]);
    }
  }

  lemma PutKeepsOthers(t: Table, p: int, r: Request)
    ensures Others(Put(t, p, r).rows, p) == Others(t.rows, p)
  {
    var i := Find(t.rows, p, r.name);
    if i == |t.rows| {
      OthersJoin(t.rows, Built(t, p, r), p);
    } else if Put(t, p, r) != t {
      OthersUpdate(t.rows, p, i, Put(t, p, r).rows[i]);
    }
  }

  /** A surviving row: the columns a request may not change, and those creation set from it. */
  predicate SameIdentity(a: Node, b: Node) {
    a.id == b.id && a.plan == b.plan && a.name == b.name && a.user == b.user && a.cri == b.cri
  }

  /** The row of the entry's name after the entry. */
  lemma PutRow(t: Table, p: int, r: Request)
    requires Unique(t)
    ensures var t' := Put(t, p, r);
            && Has(t'.rows, p, r.name) && Matches(Row(t', p, r.name), r)
            && (if Has(t.rows, p, r.name) then SameIdentity(Row(t, p, r.name), Row(t', p, r.name)) else Row(t', p, r.name) == Built(t, p, r))
  {
    PutKeepsUnique(t, p, r);
    FindUnique(Put(t, p, r), p, r.name, Find(t.rows, p, r.name));
  }

  /** Every other name after the entry. */
  lemma PutOther(t: Table, p: int, r: Request, name: string)
    requires Unique(t) && name != r.name
    ensures var t' := Put(t, p, r);
            && Has(t'.rows, p, name) == Has(t.rows, p, name)
            && (Has(t.rows, p, name) ==> Row(t', p, name) == Row(t, p, name))
  {
    var t' := Put(t, p, r);
    PutKeepsUnique(t, p, r);
    if Has(t.rows, p, name) {
      FindUnique(t', p, name, Find(t.rows, p, name));
    }
  }

  // ---------------------------------------------------------------- a whole request

  lemma RequestedLast(rs: seq<Request>, name: string)
    requires rs != []
    ensures Requested(rs, name) <==> Requested(rs[..|rs| - 1], name) || name == rs[|rs| - 1].name
  {
    RequestedNext(rs, |rs| - 1);
    assert rs[..|rs|] == rs;
  }

  /** The last entry of the name. */
  function LastFor(rs: seq<Request>, name: string): (k: nat)
    requires Requested(rs, name)
    ensures k < |rs| && rs[k].name == name && forall j :: k < j < |rs| ==> rs[j].name != name
  {
    RequestedLast(rs, name);
    if rs[|rs| - 1].name == name then |rs| - 1 else LastFor(rs[..|rs| - 1], name)
  }

  /** The first entry of the name. */
  function FirstFor(rs: seq<Request>, name: string): (k: nat)
    requires Requested(rs, name)
    ensures k < |rs| && rs[k].name == name && forall j :: 0 <= j < k ==> rs[j].name != name
  {
    RequestedLast(rs, name);
    if Requested(rs[..|rs| - 1], name) then FirstFor(rs[..|rs| - 1], name) else |rs| - 1
  }

  lemma {:induction false} PutAllKeeps(t: Table, p: int, rs: seq<Request>)
    requires Unique(t)
    ensures Unique(PutAll(t, p, rs)) && t.nextId <= PutAll(t, p, rs).nextId
    ensures Others(PutAll(t, p, rs).rows, p) == Others(t.rows, p)
  {
    if rs != [] {
      PutAllKeeps(t, p, rs[..|rs| - 1]);
      PutKeepsUnique(PutAll(t, p, rs[..|rs| - 1]), p, rs[|rs| - 1]);
      PutKeepsOthers(PutAll(t, p, rs[..|rs| - 1]), p, rs[|rs| - 1]);
    }
  }

  /** What the request makes of one name. */
  ghost predicate NamePut(t: Table, t': Table, p: int, rs: seq<Request>, name: string) {
    && (Has(t'.rows, p, name) <==> Has(t.rows, p, name) || Requested(rs, name))
    && (Requested(rs, name) ==> Matches(Row(t', p, name), rs[LastFor(rs, name)]))
    && (!Requested(rs, name) && Has(t.rows, p, name) ==> Row(t', p, name) == Row(t, p, name))
    && (Has(t.rows, p, name) ==> SameIdentity(Row(t, p, name), Row(t', p, name)))
    && (Requested(rs, name) && !Has(t.rows, p, name) ==>
          var n, first := Row(t', p, name), rs[FirstFor(rs, name)];
          n.id >= t.nextId && n.user == first.user && n.cri == first.cri)
  }

  lemma FirstForNext(front: seq<Request>, r: Request, name: string)
    ensures Requested(front + [r], name) <==> Requested(front, name) || r.name == name
    ensures Requested(front, name) ==> FirstFor(front + [r], name) == FirstFor(front, name)
    ensures !Requested(front, name) && r.name == name ==> FirstFor(front + [r], name) == |front|
  {
    RequestedLast(front + [r], name);
    assert (front + [r])[..|front|] == front;
  }

  lemma {:induction false} PutAllName(t: Table, p: int, rs: seq<Request>, name: string)
    requires Unique(t)
    ensures NamePut(t, PutAll(t, p, rs), p, rs, name)
  {
    if rs != [] {
      var front, r := rs[..|rs| - 1], rs[|rs| - 1];
      PutAllName(t, p, front, name);
      PutAllKeeps(t, p, front);
      RequestedLast(rs, name);
      FirstForNext(front, r, name);
      assert rs == front + [r];
      if name == r.name {
        PutRow(PutAll(t, p, front), p, r);
      } else {
        PutOther(PutAll(t, p, front), p, r, name);
      }
    }
  }

  /** What reconciliation makes of one name: there if and only if requested, with address, role and
      credentials of the last entry of the name; a survivor keeps its id and the other columns, a new
      row has a new id and takes them from the first entry of the name. */
  ghost predicate NameReconciled(t: Table, t': Table, p: int, rs: seq<Request>, name: string) {
    && (Has(t'.rows, p, name) <==> Requested(rs, name))
    && (Requested(rs, name) ==>
          var n, first, last := Row(t', p, name), rs[FirstFor(rs, name)], rs[LastFor(rs, name)];
          && n.ip == last.ip && n.role == Join(last.roles) && n.auth == last.auth
          && if Has(t.rows, p, name) then
               var was := Row(t, p, name);
               n.id == was.id && n.user == was.user && n.cri == was.cri
             else n.id >= t.nextId && n.user == first.user && n.cri == first.cri)
  }

  /** Reconciliation leaves the plan with exactly the requested names, each as its last entry says, touches
      no other plan and keeps names and ids unique. */
  lemma ReconcileExact(t: Table, p: int, rs: seq<Request>)
    requires Unique(t)
    ensures var t' := Reconciled(t, p, rs);
            && Unique(t') && Others(t'.rows, p) == Others(t.rows, p)
            && (forall name :: NameReconciled(t, t', p, rs, name))
  {
    var k := t.(rows := Kept(t.rows, p, rs));
    KeptUnique(t.rows, t.nextId, p, rs);
    KeptOthers(t.rows, p, rs);
    PutAllKeeps(k, p, rs);
    forall name ensures NameReconciled(t, Reconciled(t, p, rs), p, rs, name) {
      KeptRow(t, p, rs, name);
      PutAllName(k, p, rs, name);
    }
  }

  // ---------------------------------------------------------------- repeating a request

  function SumVersions(rows: seq<Node>): nat {
    if rows == [] then 0 else SumVersions(rows[..|rows| - 1]) + rows[|rows| - 1].version
  }

  lemma {:induction false} SumUpdate(rows: seq<Node>, i: nat, n: Node)
    requires i < |rows| && n.version == rows[i].version + 1
    ensures SumVersions(rows[i := n]) == SumVersions(rows) + 1
  {
    if i < |rows| - 1 {
      SumUpdate(rows[..|rows| - 1], i, n);
      assert rows[i := n][..|rows| - 1] == rows[..|rows| - 1][i := n];
    } else {
      assert rows[i := n][..|rows| - 1] == rows[..|rows| - 1];
    }
  }

  /** The row of each entry's name already says what the entry asks for. */
  ghost predicate Settled(t: Table, p: int, rs: seq<Request>) {
    forall k :: 0 <= k < |rs| ==> Says(t, p, rs[k])
  }

  predicate Says(t: Table, p: int, r: Request) {
    Has(t.rows, p, r.name) && Matches(Row(t, p, r.name), r)
  }

  lemma {:induction false} SettledIdle(t: Table, p: int, rs: seq<Request>)
    requires Settled(t, p, rs)
    ensures PutAll(t, p, rs) == t
  {
    if rs != [] {
      assert forall k :: 0 <= k < |rs| - 1 ==> rs[..|rs| - 1][k] == rs[k];
      SettledIdle(t, p, rs[..|rs| - 1]);
    }
  }

  lemma PutVersions(t: Table, p: int, r: Request)
    requires Has(t.rows, p, r.name)
    ensures SumVersions(Put(t, p, r).rows) == SumVersions(t.rows) + if Matches(Row(t, p, r.name), r) then 0 else 1
  {
    var i := Find(t.rows, p, r.name);
    if !Matches(t.rows[i], r) { SumUpdate(t.rows, i, Put(t, p, r).rows[i]); }
  }

  /** A request whose names are all there never lowers versions, and keeps them only when it is settled. */
  lemma {:induction false} PutAllVersions(t: Table, p: int, rs: seq<Request>)
    requires Unique(t) && forall k :: 0 <= k < |rs| ==> Has(t.rows, p, rs[k].name)
    ensures SumVersions(PutAll(t, p, rs).rows) >= SumVersions(t.rows)
    ensures SumVersions(PutAll(t, p, rs).rows) == SumVersions(t.rows) ==> Settled(t, p, rs)
  {
    if rs != [] {
      var front, r := rs[..|rs| - 1], rs[|rs| - 1];
      assert forall k :: 0 <= k < |front| ==> front[k] == rs[k];
      PutAllVersions(t, p, front);
      LastVersions(t, p, front, r, PutAll(t, p, front));
      if SumVersions(PutAll(t, p, rs).rows) == SumVersions(t.rows) { SettledIdle(t, p, front); }
    }
  }

  lemma LastVersions(t: Table, p: int, front: seq<Request>, r: Request, m: Table)
    requires Unique(t) && Has(t.rows, p, r.name) && m == PutAll(t, p, front)
    ensures SumVersions(Put(m, p, r).rows) == SumVersions(m.rows) + if Says(m, p, r) then 0 else 1
  {
    PutAllName(t, p, front, r.name);
    PutVersions(m, p, r);
  }

  /** Entries of one name ask for the same. */
  ghost predicate Consistent(rs: seq<Request>) {
    forall j, k :: 0 <= j < |rs| && 0 <= k < |rs| && rs[j].name == rs[k].name ==> SameRequest(rs[j], rs[k])
  }

  /** What two entries ask for, apart from the columns only creation sets. */
  predicate SameRequest(a: Request, b: Request) {
    a.ip == b.ip && Join(a.roles) == Join(b.roles) && a.auth == b.auth
  }

  lemma SettledIff(t: Table, p: int, rs: seq<Request>)
    requires Unique(t)
    ensures Settled(PutAll(t, p, rs), p, rs) <==> Consistent(rs)
  {
    var t' := PutAll(t, p, rs);
    forall k | 0 <= k < |rs|
      ensures Requested(rs, rs[k].name) && NamePut(t, t', p, rs, rs[k].name) {
      assert rs[k].name == rs[k].name;
      PutAllName(t, p, rs, rs[k].name);
    }
    if Settled(t', p, rs) {
      forall j, k | 0 <= j < |rs| && 0 <= k < |rs| && rs[j].name == rs[k].name ensures SameRequest(rs[j], rs[k]) {
        assert Says(t', p, rs[j]) && Says(t', p, rs[k]);
      }
    }
    if Consistent(rs) {
      forall k | 0 <= k < |rs| ensures Says(t', p, rs[k]) {
        assert SameRequest(rs[LastFor(rs, rs[k].name)], rs[k]);
      }
    }
  }

  lemma KeptAfter(t: Table, p: int, rs: seq<Request>)
    requires Unique(t) && forall name :: Has(t.rows, p, name) ==> Requested(rs, name)
    ensures Kept(t.rows, p, rs) == t.rows
  {
    forall i | 0 <= i < |t.rows| ensures Stays(t.rows[i], p, rs) {
      if t.rows[i].plan == p { FindUnique(t, p, t.rows[i].name, i); }
    }
    KeptAll(t.rows, p, rs);
  }

  /** Repeating a request changes nothing, versions included, exactly when its entries of one name agree
      (distinct names always do). Otherwise every repetition bumps some version. */
  lemma RepeatIdleIff(t: Table, p: int, rs: seq<Request>)
    requires Unique(t)
    ensures var t' := Reconciled(t, p, rs);
            && (Reconciled(t', p, rs) == t' <==> Consistent(rs))
            && (!Consistent(rs) ==> SumVersions(Reconciled(t', p, rs).rows) > SumVersions(t'.rows))
  {
    var t' := Reconciled(t, p, rs);
    ReconcileExact(t, p, rs);
    forall name | Has(t'.rows, p, name) ensures Requested(rs, name) {
      assert NameReconciled(t, t', p, rs, name);
    }
    KeptAfter(t', p, rs);
    forall k | 0 <= k < |rs| ensures Has(t'.rows, p, rs[k].name) {
      assert Requested(rs, rs[k].name) && NameReconciled(t, t', p, rs, rs[k].name);
    }
    if Settled(t', p, rs) { SettledIdle(t', p, rs); }
    PutAllVersions(t', p, rs);
    KeptUnique(t.rows, t.nextId, p, rs);
    SettledIff(t.(rows := Kept(t.rows, p, rs)), p, rs);
  }

  lemma PutAllLast(t: Table, p: int, rs: seq<Request>, r: Request)
    ensures PutAll(t, p, rs + [r]) == Put(PutAll(t, p, rs), p, r)
  {
    assert (rs + [r])[..|rs|] == rs;
  }

  lemma {:induction false} PutAllJoin(t: Table, p: int, a: seq<Request>, b: seq<Request>, m: Table)
    requires m == PutAll(t, p, a)
    ensures PutAll(t, p, a + b) == PutAll(m, p, b)
  {
    if b == [] {
      assert a + b == a;
    } else {
      var front, r := b[..|b| - 1], b[|b| - 1];
      PutAllJoin(t, p, a, front, m);
      assert b == front + [r] && a + b == a + front + [r];
      PutAllLast(t, p, a + front, r);
      PutAllLast(m, p, front, r);
    }
  }

  lemma PartNames(t: Table, p: int, rs: seq<Request>, k: nat, name: string)
    requires Unique(t) && k <= |rs|
    requires Has(PutAll(t.(rows := Kept(t.rows, p, rs)), p, rs[..k]).rows, p, name)
    ensures Requested(rs, name)
  {
    var kept := t.(rows := Kept(t.rows, p, rs));
    KeptUnique(t.rows, t.nextId, p, rs);
    KeptRow(t, p, rs, name);
    PutAllName(kept, p, rs[..k], name);
    if Requested(rs[..k], name) {
      var j :| 0 <= j < |rs[..k]| && rs[..k][j].name == name;
      assert rs[j].name == name;
    }
  }

  lemma ConsistentPrefix(rs: seq<Request>, k: nat)
    requires Consistent(rs) && k <= |rs|
    ensures Consistent(rs[..k])
  {
    assert forall j :: 0 <= j < k ==> rs[..k][j] == rs[j];
  }

  lemma Resumed(t: Table, m: Table, p: int, rs: seq<Request>, k: nat)
    requires Unique(t) && k <= |rs| && Consistent(rs[..k]) && m == PutAll(t, p, rs[..k])
    ensures PutAll(m, p, rs) == PutAll(t, p, rs)
  {
    var done, rest := rs[..k], rs[k..];
    assert rs == done + rest;
    SettledIff(t, p, done);
    SettledIdle(m, p, done);
    PutAllJoin(m, p, done, rest, m);
    PutAllJoin(t, p, done, rest, m);
  }

  lemma KeptWhenPart(t: Table, t': Table, p: int, rs: seq<Request>, k: nat)
    requires Unique(t) && Unique(t') && k <= |rs| && t' == PutAll(t.(rows := Kept(t.rows, p, rs)), p, rs[..k])
    ensures Reconciled(t', p, rs) == PutAll(t', p, rs)
  {
    forall name | Has(t'.rows, p, name) ensures Requested(rs, name) {
      PartNames(t, p, rs, k, name);
    }
    KeptAfter(t', p, rs);
    assert t'.(rows := Kept(t'.rows, p, rs)) == t';
  }

  /** A reconciliation that storage cut short can simply be sent again: with entries that agree, the
      retry ends in the very table, ids and versions included, that an undisturbed run would have left. */
  lemma RetryResumes(t: Table, t': Table, p: int, rs: seq<Request>, k: nat)
    requires Unique(t) && Consistent(rs) && PartlyReconciled(t, t', p, rs, k)
    ensures Reconciled(t', p, rs) == Reconciled(t, p, rs)
  {
    var kept := t.(rows := Kept(t.rows, p, rs));
    KeptUnique(t.rows, t.nextId, p, rs);
    PutAllKeeps(kept, p, rs[..k]);
    KeptWhenPart(t, t', p, rs, k);
    ConsistentPrefix(rs, k);
    Resumed(kept, t', p, rs, k);
  }
}
