/** Requests that change one role's scopes and API list. A request is several transactions with reads in
    between, and nothing keeps other requests for the role out. */
module ScopeRuns {
  import opened Collections
  import opened Scopes

  /** What a request has read when it comes to write the API list. */
  datatype Read = ScopesRead(scopes: seq<Scope>) | BothRead(scopes: seq<Scope>, apis: seq<int>)

  datatype Role = Role(scopes: seq<Scope>, apis: seq<int>, held: map<nat, Read>)

  datatype Action =
    | Replace(q: nat, list: seq<Scope>)
    | Remove(q: nat, list: seq<Scope>)
    | Add(q: nat, list: seq<Scope>)
    | ReadScopes(q: nat)
    | ReadApis(q: nat)
    | WriteApis(q: nat)
    | Drop(q: nat)              // request q ends with an error
    | SetAPIs(ids: seq<int>)    // the API list is replaced by hand

  predicate Known(rd: Read, id: int)
    requires rd.BothRead?
  {
    id > 0 && (id in rd.apis || id in ApiIds(rd.scopes))
  }

  ghost predicate Next(r: Role, a: Action, r': Role) {
    match a
    case Replace(q, list) => q !in r.held && r' == r.(scopes := Prepared(list))
    case Remove(q, list) => q !in r.held && r' == r.(scopes := Removed(r.scopes, list))
    case Add(q, list) => q !in r.held && r' == r.(scopes := Added(r.scopes, Prepared(list)))
    case ReadScopes(q) => q !in r.held && r' == r.(held := r.held[q := ScopesRead(r.scopes)])
    case ReadApis(q) =>
      && q in r.held && r.held[q].ScopesRead?
      && r' == r.(held := r.held[q := BothRead(r.held[q].scopes, r.apis)])
    case WriteApis(q) =>
      && q in r.held && r.held[q].BothRead?
      && NoDup(r'.apis) && (forall id :: id in r'.apis <==> Known(r.held[q], id))
      && r' == r.(apis := r'.apis, held := r.held - {q})
    case Drop(q) => r' == r.(held := r.held - {q})
    case SetAPIs(ids) => r' == r.(apis := ids)
  }

  ghost predicate Behavior(roles: seq<Role>, acts: seq<Action>) {
    && |roles| == |acts| + 1 && roles[0] == Role([], [], map[])
    && forall k :: 0 <= k < |acts| ==> Next(roles[k], acts[k], roles[k + 1])
  }

  /** A behavior under construction, by its last state. */
  ghost predicate Ends(roles: seq<Role>, acts: seq<Action>, r: Role) {
    Behavior(roles, acts) && roles[|acts|] == r
  }

  lemma Append(roles: seq<Role>, acts: seq<Action>, r: Role, a: Action, r': Role)
    requires Ends(roles, acts, r) && Next(r, a, r')
    ensures Ends(roles + [r'], acts + [a], r')
  {
    forall k | 0 <= k < |acts| + 1 ensures Next((roles + [r'])[k], (acts + [a])[k], (roles + [r'])[k + 1]) {
      if k < |acts| { assert Next(roles[k], acts[k], roles[k + 1]); }
    }
  }

  // ---------------------------------------------------------------- the code

  predicate By(a: Action, q: nat) {
    !a.SetAPIs? && a.q == q
  }

  /** The actions of request q, in order. */
  function Own(acts: seq<Action>, q: nat): seq<Action> {
    if acts == [] then []
    else Own(acts[..|acts| - 1], q) + if By(acts[|acts| - 1], q) then [acts[|acts| - 1]] else []
  }

  lemma OwnNext(acts: seq<Action>, a: Action, q: nat)
    ensures Own(acts + [a], q) == Own(acts, q) + if By(a, q) then [a] else []
  {
    assert (acts + [a])[..|acts|] == acts;
  }

  /** What a request does: the scope statements it asks for, then the two reads and the write of the list. */
  function Program(q: nat, replace: Option<seq<Scope>>, remove: seq<Scope>, add: seq<Scope>): seq<Action> {
    Statements(q, replace, remove, add) + Sync(q)
  }

  function Statements(q: nat, replace: Option<seq<Scope>>, remove: seq<Scope>, add: seq<Scope>): seq<Action> {
    if replace.Some? then [Replace(q, replace.value)]
    else Removal(q, remove) + Addition(q, add)
  }

  function Removal(q: nat, remove: seq<Scope>): seq<Action> {
    if remove == [] then [] else [Remove(q, remove)]
  }

  function Addition(q: nat, add: seq<Scope>): seq<Action> {
    if add == [] then [] else [Add(q, add)]
  }

  function Sync(q: nat): (r: seq<Action>)
    ensures |r| == 3
  {
    [ReadScopes(q), ReadApis(q), WriteApis(q)]
  }

  lemma PartOfProgram(done: seq<Action>, q: nat, replace: Option<seq<Scope>>, remove: seq<Scope>, add: seq<Scope>)
    requires done <= Statements(q, replace, remove, add)
    ensures done < Program(q, replace, remove, add)
  {
  }

  lemma SyncParts(q: nat, done: seq<Action>)
    ensures done + [ReadScopes(q)] + [ReadApis(q)] + [WriteApis(q)] == done + Sync(q)
    ensures done < done + Sync(q) && done + [ReadScopes(q)] < done + Sync(q)
    ensures done + [ReadScopes(q)] + [ReadApis(q)] < done + Sync(q)
  {
  }

  /** One role's rows in the store, with the history of what was done to them. */
  class RoleRows {
    const role: int
    const db: RoleStore
    ghost var roles: seq<Role>
    ghost var acts: seq<Action>

    constructor (role: int, db: RoleStore)
      requires db.ScopesOf(role) == [] && db.ApisOf(role) == []
      ensures this.role == role && this.db == db && Traced() && acts == []
    {
      this.role, this.db := role, db;
      roles, acts := [Role([], [], map[])], [];
    }

    /** The history is a behavior that ends in the rows as they are. */
    ghost predicate Traced()
      reads this, db
    {
      Behavior(roles, acts) && Now().scopes == db.ScopesOf(role) && Now().apis == db.ApisOf(role)
    }

    ghost function Now(): Role
      requires |roles| == |acts| + 1
      reads this
    {
      roles[|acts|]
    }

    /** Since `base`, request q has done exactly `done`. */
    ghost predicate Did(base: seq<Action>, q: nat, done: seq<Action>)
      reads this
    {
      base <= acts && Own(acts, q) == Own(base, q) + done
    }

    ghost method Record(a: Action, r: Role, base: seq<Action>, q: nat, done: seq<Action>)
      requires Behavior(roles, acts) && Next(Now(), a, r) && By(a, q) && Did(base, q, done)
      modifies this
      ensures Behavior(roles, acts) && Now() == r && acts == old(acts) + [a] && Did(base, q, done + [a])
    {
      Append(roles, acts, Now(), a, r);
      OwnNext(acts, a, q);
      Regroup(Own(base, q), done, [a]);
      roles, acts := roles + [r], acts + [a];
    }

    /** Other requests for the role do what they like. Their failures do not count. */
    method Others(q: nat, ghost base: seq<Action>, ghost done: seq<Action>)
      requires Traced() && Did(base, q, done)
      modifies this, db
      ensures Traced() && Did(base, q, done) && old(acts) <= acts && db.failures == old(db.failures)
      ensures (q in Now().held <==> q in old(Now().held)) && (q in Now().held ==> Now().held[q] == old(Now().held[q]))
    {
    }

    /** One scope statement: it goes through and is recorded, or fails and changes nothing. */
    method WriteScopes(a: Action, ghost base: seq<Action>, ghost done: seq<Action>) returns (err: bool)
      requires (a.Replace? || a.Remove? || a.Add?) && Traced() && a.q !in Now().held && Did(base, a.q, done)
      modifies this, db
      ensures Traced() && Now().held == old(Now().held) && Did(base, a.q, if err then done else done + [a])
      ensures db.failures == old(db.failures) + if err then 1 else 0
    {
      match a {
        case Replace(_, list) => err := db.ReplaceScopes(role, list);
        case Remove(_, list) => err := db.RemoveScopes(role, list);
        case Add(_, list) => err := db.AddScopes(role, list);
      }
      if !err { Record(a, Now().(scopes := db.ScopesOf(role)), base, a.q, done); }
    }

    /** The removal and the addition of a request, with others in between. */
    method RemoveThenAdd(q: nat, remove: seq<Scope>, add: seq<Scope>) returns (err: bool, ghost done: seq<Action>)
      requires Traced() && q !in Now().held
      modifies this, db
      ensures Traced() && q !in Now().held && Did(old(acts), q, done)
      ensures done <= Removal(q, remove) + Addition(q, add) && (err <==> done != Removal(q, remove) + Addition(q, add))
      ensures db.failures == old(db.failures) + if err then 1 else 0
    {
      ghost var base := acts;
      err, done := false, [];
      assert Own(base, q) + [] == Own(base, q);
      if |remove| > 0 {
        err := WriteScopes(Remove(q, remove), base, done);
        if err { return; }
        done := done + [Remove(q, remove)];
        Others(q, base, done);
      }
      if |add| > 0 {
        err := WriteScopes(Add(q, add), base, done);
        if !err { done := done + [Add(q, add)]; }
      }
    }

    /** The scope statements of a request. */
    method WriteAll(q: nat, replace: Option<seq<Scope>>, remove: seq<Scope>, add: seq<Scope>)
      returns (err: bool, ghost done: seq<Action>)
      requires Traced() && q !in Now().held
      modifies this, db
      ensures Traced() && q !in Now().held && Did(old(acts), q, done)
      ensures done <= Statements(q, replace, remove, add) && (err <==> done != Statements(q, replace, remove, add))
      ensures db.failures == old(db.failures) + if err then 1 else 0
    {
      if replace.Some? {
        done := [];
        assert Own(acts, q) + [] == Own(acts, q);
        err := WriteScopes(Replace(q, replace.value), acts, done);
        if !err { done := done + [Replace(q, replace.value)]; }
      } else {
        err, done := RemoveThenAdd(q, remove, add);
      }
    }

    method ReadScopeRows(q: nat, ghost base: seq<Action>, ghost done: seq<Action>) returns (err: bool, list: seq<Scope>)
      requires Traced() && q !in Now().held && Did(base, q, done)
      modifies this, db
      ensures Traced() && if err then Did(base, q, done)
              else Did(base, q, done + [ReadScopes(q)]) && q in Now().held && Now().held[q] == ScopesRead(list)
      ensures db.failures == old(db.failures) + if err then 1 else 0
    {
      var ok := db.Spend();
      list := db.ScopesOf(role);
      if ok { Record(ReadScopes(q), Now().(held := Now().held[q := ScopesRead(list)]), base, q, done); }
      err := !ok;
    }

    method ReadApiRows(q: nat, ghost list: seq<Scope>, ghost base: seq<Action>, ghost done: seq<Action>)
      returns (err: bool, existing: seq<int>)
      requires Traced() && q in Now().held && Now().held[q] == ScopesRead(list) && Did(base, q, done)
      modifies this, db
      ensures Traced() && if err then Did(base, q, done)
              else Did(base, q, done + [ReadApis(q)]) && q in Now().held && Now().held[q] == BothRead(list, existing)
      ensures db.failures == old(db.failures) + if err then 1 else 0
    {
      var ok := db.Spend();
      existing := db.ApisOf(role);
      if ok { Record(ReadApis(q), Now().(held := Now().held[q := BothRead(list, existing)]), base, q, done); }
      err := !ok;
    }

    method WriteApiRows(q: nat, list: seq<Scope>, existing: seq<int>, ghost base: seq<Action>, ghost done: seq<Action>)
      returns (err: bool)
      requires Traced() && q in Now().held && Now().held[q] == BothRead(list, existing) && Did(base, q, done)
      modifies this, db
      ensures Traced() && if err then Did(base, q, done)
              else Did(base, q, done + [WriteApis(q)]) && q !in Now().held && acts[|acts| - 1] == WriteApis(q)
      ensures db.failures == old(db.failures) + if err then 1 else 0
    {
      var ids := IdsOf(list);
      var merged := MergeIDs(existing, ids);
      err := db.ReplaceByRoleId(role, merged);
      if !err { Record(WriteApis(q), Now().(apis := merged, held := Now().held - {q}), base, q, done); }
    }

    /** `syncRoleAPIsFromScopes`; `all` is what the request has done when it ends. */
    method SyncRoleAPIsFromScopes(q: nat, ghost base: seq<Action>, ghost done: seq<Action>) returns (err: bool, ghost all: seq<Action>)
      requires Traced() && q !in Now().held && Did(base, q, done)
      modifies this, db
      ensures Traced() && Did(base, q, all) && if err then all < done + Sync(q)
              else all == done + Sync(q) && acts[|acts| - 1] == WriteApis(q) && q !in Now().held
      ensures db.failures == old(db.failures) + if err then 1 else 0
    {
      all := done;
      var list, existing;
      err, list := ReadScopeRows(q, base, all);
      if err { SyncParts(q, done); return; }
      all := all + [ReadScopes(q)];
      Others(q, base, all);
      err, existing := ReadApiRows(q, list, base, all);
      if err { SyncParts(q, done); return; }
      all := all + [ReadApis(q)];
      Others(q, base, all);
      err := WriteApiRows(q, list, existing, base, all);
      SyncParts(q, done);
      if !err { all := all + [WriteApis(q)]; }
    }

    /** Since `base`, request q has done a proper first part of its program and dropped what it read. */
    ghost predicate GaveUp(base: seq<Action>, q: nat, program: seq<Action>)
      reads this
    {
      exists part :: part < program && Did(base, q, part + [Drop(q)])
    }

    /** A request that met an error: nothing of what it read is used. */
    ghost method GiveUp(q: nat, base: seq<Action>, done: seq<Action>, program: seq<Action>)
      requires Traced() && Did(base, q, done) && done < program
      modifies this
      ensures Traced() && q !in Now().held && GaveUp(base, q, program)
    {
      Record(Drop(q), Now().(held := Now().held - {q}), base, q, done);
    }

    /** The transactions of a request, up to the first that fails. */
    method RunProgram(q: nat, replace: Option<seq<Scope>>, remove: seq<Scope>, add: seq<Scope>)
      returns (err: bool, ghost done: seq<Action>)
      requires Traced() && q !in Now().held
      modifies this, db
      ensures Traced() && Did(old(acts), q, done) && db.failures == old(db.failures) + if err then 1 else 0
      ensures if err then done < Program(q, replace, remove, add)
              else done == Program(q, replace, remove, add) && acts[|acts| - 1] == WriteApis(q) && q !in Now().held
    {
      ghost var base := acts;
      err, done := WriteAll(q, replace, remove, add);
      if err {
        PartOfProgram(done, q, replace, remove, add);
        return;
      }
      Others(q, base, done);
      err, done := SyncRoleAPIsFromScopes(q, base, done);
    }

    /** `UpdateAPIScopes` of an existing role, among other requests for it: every transaction is an action of
        a behavior, and request q does its program, or a first part of it and then gives up, which it does if and
        only if one of its transactions failed. */
    method UpdateAPIScopes(q: nat, replace: Option<seq<Scope>>, remove: seq<Scope>, add: seq<Scope>) returns (err: bool)
      requires Traced() && q !in Now().held
      modifies this, db
      ensures Traced() && q !in Now().held
      ensures !err ==> Did(old(acts), q, Program(q, replace, remove, add)) && acts[|acts| - 1] == WriteApis(q)
      ensures err ==> GaveUp(old(acts), q, Program(q, replace, remove, add))
      ensures db.failures == old(db.failures) + if err then 1 else 0
    {
      ghost var base, done := acts, [];
      err, done := RunProgram(q, replace, remove, add);
      if err { GiveUp(q, base, done, Program(q, replace, remove, add)); }
    }
  }

  method IdsOf(list: seq<Scope>) returns (ids: seq<int>)
    ensures ids == ApiIds(list)
  {
    ids := [];
    for i := 0 to |list|
      invariant ids == ApiIds(list[..i])
    {
      assert list[..i + 1][..i] == list[..i];
      ids := ids + [list[i].api];
    }
    assert list[..|list|] == list;
  }

  // ---------------------------------------------------------------- what the actions grant

  /** The last occurrence of an action before n, or 0. */
  function LastAt(acts: seq<Action>, n: nat, a: Action): (m: nat)
    requires n <= |acts|
    ensures m <= n && (n > 0 ==> m < n)
  {
    if n == 0 then 0 else if acts[n - 1] == a then n - 1 else LastAt(acts, n - 1, a)
  }

  /** Whether the first n actions grant a triple: the last one that says so decides. */
  predicate Granted(acts: seq<Action>, n: nat, x: Scope)
    requires n <= |acts|
  {
    n > 0 &&
    match acts[n - 1]
    case Replace(_, list) => Mentioned(list, x)
    case Remove(_, list) => Granted(acts, n - 1, x) && !Mentioned(list, x)
    case Add(_, list) => Mentioned(list, x) || Granted(acts, n - 1, x)
    case _ => Granted(acts, n - 1, x)
  }

  ghost predicate ScopeGranted(acts: seq<Action>, n: nat, id: int)
    requires n <= |acts|
  {
    exists x :: Valid(x) && x.api == id && Granted(acts, n, x)
  }

  /** Whether the first n actions put an API on the list: the last one that wrote the list decides, and a
      request writes what it knew when it read. */
  ghost predicate ApiGranted(acts: seq<Action>, n: nat, id: int)
    requires n <= |acts|
    decreases n
  {
    n > 0 &&
    match acts[n - 1]
    case SetAPIs(ids) => id in ids
    case WriteApis(q) =>
      && id > 0
      && (ApiGranted(acts, LastAt(acts, n - 1, ReadApis(q)), id) || ScopeGranted(acts, LastAt(acts, n - 1, ReadScopes(q)), id))
    case _ => ApiGranted(acts, n - 1, id)
  }

  /** After any interleaving the stored scopes are duplicate-free and are exactly the valid triples granted. */
  lemma {:induction false} StoredSet(roles: seq<Role>, acts: seq<Action>, n: nat, x: Scope)
    requires Behavior(roles, acts) && n <= |acts|
    ensures NoDup(roles[n].scopes) && (x in roles[n].scopes <==> Valid(x) && Granted(acts, n, x))
  {
    if n > 0 {
      StoredSet(roles, acts, n - 1, x);
      StepScopes(roles[n - 1], acts[n - 1], roles[n], x);
    }
  }

  lemma StepScopes(r: Role, a: Action, r': Role, x: Scope)
    requires Next(r, a, r') && NoDup(r.scopes)
    ensures NoDup(r'.scopes)
    ensures x in r'.scopes <==>
            match a
            case Replace(_, list) => Valid(x) && Mentioned(list, x)
            case Remove(_, list) => x in r.scopes && !Mentioned(list, x)
            case Add(_, list) => x in r.scopes || (Valid(x) && Mentioned(list, x))
            case _ => x in r.scopes
  {
    match a
    case Replace(_, list) => PreparedExact(list, x);
    case Remove(_, list) => RemovedExact(r.scopes, list, x);
    case Add(_, list) =>
      PreparedExact(list, x);
      AddedExact(r.scopes, Prepared(list), x);
    case _ =>
  }

  /** What request q holds is what the rows were when it read them. */
  ghost predicate ReadOk(roles: seq<Role>, acts: seq<Action>, n: nat, q: nat)
    requires n <= |acts| && n < |roles|
  {
    q in roles[n].held ==>
      var a := LastAt(acts, n, ReadScopes(q));
      && a < n && a < |roles| && acts[a] == ReadScopes(q) && roles[n].held[q].scopes == roles[a].scopes
      && (roles[n].held[q].BothRead? ==>
            var b := LastAt(acts, n, ReadApis(q));
            b < n && b < |roles| && acts[b] == ReadApis(q) && roles[n].held[q].apis == roles[b].apis)
  }

  lemma BehaviorReads(roles: seq<Role>, acts: seq<Action>, n: nat, q: nat)
    requires Behavior(roles, acts) && n <= |acts|
    ensures ReadOk(roles, acts, n, q)
  {
    var j := 0;
    while j < n
      invariant j <= n && ReadOk(roles, acts, j, q)
    {
      StepReads(roles, acts, j, j + 1, q);
      j := j + 1;
    }
  }

  lemma StepReads(roles: seq<Role>, acts: seq<Action>, n: nat, n': nat, q: nat)
    requires Behavior(roles, acts) && n' == n + 1 <= |acts| && ReadOk(roles, acts, n, q)
    ensures ReadOk(roles, acts, n', q)
  {
    assert Next(roles[n], acts[n], roles[n']);
  }

  lemma ReadScopesIds(roles: seq<Role>, acts: seq<Action>, n: nat, id: int)
    requires Behavior(roles, acts) && n <= |acts| && id > 0
    ensures id in ApiIds(roles[n].scopes) <==> ScopeGranted(acts, n, id)
  {
    ApiIdsExact(roles[n].scopes, id);
    forall x ensures x in roles[n].scopes <==> Valid(x) && Granted(acts, n, x) { StoredSet(roles, acts, n, x); }
  }

  /** After any interleaving the role's API list is exactly what the actions grant. */
  lemma {:induction false} ApisStored(roles: seq<Role>, acts: seq<Action>, n: nat, id: int)
    requires Behavior(roles, acts) && n <= |acts|
    ensures id in roles[n].apis <==> ApiGranted(acts, n, id)
    decreases n
  {
    if n == 0 { return; }
    assert Next(roles[n - 1], acts[n - 1], roles[n]);
    if acts[n - 1].WriteApis? {
      var q := acts[n - 1].q;
      BehaviorReads(roles, acts, n - 1, q);
      ApisStored(roles, acts, LastAt(acts, n - 1, ReadApis(q)), id);
      if id > 0 { ReadScopesIds(roles, acts, LastAt(acts, n - 1, ReadScopes(q)), id); }
    } else {
      ApisStored(roles, acts, n - 1, id);
    }
  }

  // ---------------------------------------------------------------- coverage

  /** Every scope's API is among the role's APIs. */
  ghost predicate Covered(r: Role) {
    forall x :: x in r.scopes ==> x.api in r.apis
  }

  /** Whether the APIs cover the scopes after any interleaving of requests, by the actions alone. */
  lemma CoveredIff(roles: seq<Role>, acts: seq<Action>, n: nat)
    requires Behavior(roles, acts) && n <= |acts|
    ensures Covered(roles[n]) <==> forall x :: Valid(x) && Granted(acts, n, x) ==> ApiGranted(acts, n, x.api)
  {
    forall x ensures x in roles[n].scopes <==> Valid(x) && Granted(acts, n, x)
             ensures x.api in roles[n].apis <==> ApiGranted(acts, n, x.api) {
      StoredSet(roles, acts, n, x);
      ApisStored(roles, acts, n, x.api);
    }
  }

  /** Action m stores triples, and x is one of them. */
  predicate Stores(a: Action, x: Scope) {
    match a
    case Replace(_, list) => Valid(x) && Mentioned(list, x)
    case Add(_, list) => Valid(x) && Mentioned(list, x)
    case _ => false
  }

  /** A triple that is stored at n and was not at a was stored in between. */
  lemma {:induction false} StoredBetween(roles: seq<Role>, acts: seq<Action>, a: nat, n: nat, x: Scope) returns (m: nat)
    requires Behavior(roles, acts) && a <= n <= |acts| && x in roles[n].scopes && x !in roles[a].scopes
    ensures a <= m < n && Stores(acts[m], x)
  {
    StoredSet(roles, acts, n - 1, x);
    StepScopes(roles[n - 1], acts[n - 1], roles[n], x);
    if x in roles[n - 1].scopes { m := StoredBetween(roles, acts, a, n - 1, x); } else { m := n - 1; }
  }

  /** When request q completes, the role is covered if and only if whatever other requests stored between q's
      read and its write, and is still there, has an API that q knew. */
  lemma CompletedIff(roles: seq<Role>, acts: seq<Action>, n: nat, q: nat)
    requires Behavior(roles, acts) && n < |acts| && acts[n] == WriteApis(q)
    ensures var a := LastAt(acts, n, ReadScopes(q));
            && a < n && acts[a] == ReadScopes(q) && q in roles[n].held && roles[n].held[q].BothRead?
            && (Covered(roles[n + 1]) <==>
                forall m, x :: a <= m < n && Stores(acts[m], x) && x in roles[n].scopes ==> Known(roles[n].held[q], x.api))
  {
    var a := LastAt(acts, n, ReadScopes(q));
    var r, r' := roles[n], roles[n + 1];
    BehaviorReads(roles, acts, n, q);
    assert Next(r, acts[n], r');
    if forall m, x :: a <= m < n && Stores(acts[m], x) && x in r.scopes ==> Known(r.held[q], x.api) {
      forall x | x in r'.scopes ensures x.api in r'.apis {
        StoredSet(roles, acts, n, x);
        if x in roles[a].scopes {
          ApiIdsExact(roles[a].scopes, x.api);
        } else {
          var m := StoredBetween(roles, acts, a, n, x);
        }
      }
    }
  }

  /** A request that no other one overtook with new scopes ends covered; so do requests one after the other. */
  lemma UndisturbedCovers(roles: seq<Role>, acts: seq<Action>, n: nat, q: nat)
    requires Behavior(roles, acts) && n < |acts| && acts[n] == WriteApis(q)
    requires forall m :: LastAt(acts, n, ReadScopes(q)) <= m < n ==> !acts[m].Replace? && !acts[m].Add?
    ensures Covered(roles[n + 1])
  {
    CompletedIff(roles, acts, n, q);
  }

  /** The end of a request that nothing came between. */
  lemma SyncAlone(roles: seq<Role>, acts: seq<Action>, m: nat, q: nat, id: int)
    requires Behavior(roles, acts) && m + 3 == |acts| && acts[m..] == Sync(q)
    ensures roles[m + 3].scopes == roles[m].scopes && Covered(roles[m + 3])
    ensures id in roles[m + 3].apis <==> id > 0 && (id in roles[m].apis || exists x :: x in roles[m].scopes && x.api == id)
  {
    assert acts[m] == acts[m..][0] && acts[m + 1] == acts[m..][1] && acts[m + 2] == acts[m..][2];
    assert Next(roles[m], acts[m], roles[m + 1]) && Next(roles[m + 1], acts[m + 1], roles[m + 2]);
    assert Next(roles[m + 2], acts[m + 2], roles[m + 3]);
    ApiIdsExact(roles[m].scopes, id);
    UndisturbedCovers(roles, acts, m + 2, q);
  }

  /** A request that nothing came between replaces the scopes, or removes what it names and then adds what it
      asks for, and leaves on the API list what was there and the API of every scope. */
  lemma AloneExact(roles: seq<Role>, acts: seq<Action>, m: nat, q: nat,
      replace: Option<seq<Scope>>, remove: seq<Scope>, add: seq<Scope>, x: Scope, id: int)
    requires Behavior(roles, acts) && m <= |acts| && acts[m..] == Program(q, replace, remove, add)
    ensures var r, r' := roles[m], roles[|acts|];
            && Covered(r')
            && (x in r'.scopes <==> if replace.Some? then Wanted(replace.value, x)
                                    else Wanted(add, x) || (x in r.scopes && !Named(remove, x)))
            && (id in r'.apis <==> id > 0 && (id in r.apis || exists y :: y in r'.scopes && y.api == id))
  {
    var k := |acts| - 3;
    var st := Statements(q, replace, remove, add);
    assert k == m + |st| && acts[k..] == Sync(q) by { assert acts[k..] == acts[m..][|st|..]; }
    assert forall j :: m <= j < k ==> acts[j] == acts[m..][j - m] == st[j - m];
    SyncAlone(roles, acts, k, q, id);
    NamedIff(remove, x);
    WantedIff(add, x);
    if replace.Some? { WantedIff(replace.value, x); }
    var j := m;
    while j < k
      invariant m <= j <= k && roles[j].apis == roles[m].apis
      invariant x in roles[j].scopes <==>
                if j == m then x in roles[m].scopes
                else if replace.Some? then Wanted(replace.value, x)
                else if st[j - m - 1].Remove? then x in roles[m].scopes && !Named(remove, x)
                else Wanted(add, x) || (x in roles[m].scopes && (remove == [] || !Named(remove, x)))
    {
      assert Next(roles[j], acts[j], roles[j + 1]);
      StoredSet(roles, acts, j, x);
      StepScopes(roles[j], acts[j], roles[j + 1], x);
      j := j + 1;
    }
  }

  lemma OneScope(x: Scope)
    requires Valid(x)
    ensures Prepared([x]) == [x] && Added([], [x]) == [x] && ApiIds([x]) == [x.api]
  {
    assert [x][..0] == [] && Norm(x) == x;
  }

  lemma TwoScopes(x: Scope, y: Scope)
    requires Valid(x) && Valid(y) && x != y
    ensures Added([x], Prepared([y])) == [x, y] && ApiIds([x, y]) == [x.api, y.api]
  {
    OneScope(x);
    OneScope(y);
    assert [x, y][..1] == [x];
    assert [y][..0] == [] && Added([x], []) == [x];
  }

  /** Request q adds a scope and reads both lists. */
  lemma AddAndRead(roles: seq<Role>, acts: seq<Action>, r: Role, q: nat, x: Scope, after: seq<Scope>)
    returns (roles': seq<Role>, acts': seq<Action>, r': Role)
    requires Ends(roles, acts, r) && q !in r.held && after == Added(r.scopes, Prepared([x]))
    ensures Ends(roles', acts', r') && acts' == acts + [Add(q, [x]), ReadScopes(q), ReadApis(q)]
    ensures r' == Role(after, r.apis, r.held[q := BothRead(after, r.apis)])
  {
    var a := r.(scopes := after);
    Append(roles, acts, r, Add(q, [x]), a);
    var b := a.(held := a.held[q := ScopesRead(after)]);
    Append(roles + [a], acts + [Add(q, [x])], a, ReadScopes(q), b);
    r' := b.(held := b.held[q := BothRead(after, b.apis)]);
    Append(roles + [a] + [b], acts + [Add(q, [x])] + [ReadScopes(q)], b, ReadApis(q), r');
    roles', acts' := roles + [a] + [b] + [r'], acts + [Add(q, [x])] + [ReadScopes(q)] + [ReadApis(q)];
    assert r.held[q := ScopesRead(after)][q := BothRead(after, r.apis)] == r.held[q := BothRead(after, r.apis)];
  }

  /** Request q writes the list it knows. */
  lemma Write(roles: seq<Role>, acts: seq<Action>, r: Role, q: nat, ids: seq<int>) returns (r': Role)
    requires Ends(roles, acts, r) && q in r.held && r.held[q].BothRead?
    requires NoDup(ids) && forall id :: id in ids <==> Known(r.held[q], id)
    ensures r' == r.(apis := ids, held := r.held - {q}) && Ends(roles + [r'], acts + [WriteApis(q)], r')
  {
    r' := r.(apis := ids, held := r.held - {q});
    Append(roles, acts, r, WriteApis(q), r');
  }

  /** Both requests have added their scope and read, the first before the second added its own. */
  lemma BothHaveRead(x: Scope, y: Scope) returns (roles: seq<Role>, acts: seq<Action>, r: Role)
    requires Valid(x) && Valid(y) && x.api != y.api
    ensures Ends(roles, acts, r) && |acts| == 6
    ensures r == Role([x, y], [], map[1 := BothRead([x], []), 2 := BothRead([x, y], [])])
  {
    OneScope(x);
    TwoScopes(x, y);
    r := Role([], [], map[]);
    roles, acts, r := AddAndRead([r], [], r, 1, x, [x]);
    roles, acts, r := AddAndRead(roles, acts, r, 2, y, [x, y]);
  }

  lemma KnownIds(x: Scope, y: Scope)
    requires Valid(x) && Valid(y)
    ensures forall id :: Known(BothRead([x], []), id) <==> id in [x.api]
    ensures forall id :: Known(BothRead([x, y], []), id) <==> id in [x.api, y.api]
  {
    OneScope(x);
    if x != y { TwoScopes(x, y); } else { assert [x, x][..1] == [x] && ApiIds([x, x]) == [x.api, x.api]; }
  }

  /** Two requests each add a scope. The first reads before the second writes, and writes the API list last:
      both complete, and the second one's scope is stored without its API. */
  lemma OverlapLoses(x: Scope, y: Scope) returns (roles: seq<Role>, acts: seq<Action>)
    requires Valid(x) && Valid(y) && x.api != y.api
    ensures Behavior(roles, acts) && |acts| == 8 && acts[6] == WriteApis(2) && acts[7] == WriteApis(1)
    ensures Covered(roles[7]) && !Covered(roles[8])
  {
    var r;
    roles, acts, r := BothHaveRead(x, y);
    KnownIds(x, y);
    var s := Write(roles, acts, r, 2, [x.api, y.api]);
    var t := Write(roles + [s], acts + [WriteApis(2)], s, 1, [x.api]);
    assert y in t.scopes;
    roles, acts := roles + [s] + [t], acts + [WriteApis(2)] + [WriteApis(1)];
  }
}
