/** Role scopes: record preparation with its string key, the stored set, and the role's API list. */
module Scopes {
  import opened Collections

  datatype Scope = Scope(api: int, kind: string, id: int)

  // ---------------------------------------------------------------- the key

  /** `strconv.FormatInt(n, 10)`. */
  function Itoa(n: int): string {
    if n < 0 then "-" + Digits(-n) else Digits(n)
  }

  predicate IsDigit(c: char) {
    '0' <= c <= '9'
  }

  function Digit(d: nat): (c: char)
    requires d < 10
    ensures IsDigit(c)
  {
    ('0' as int + d) as char
  }

  function Digits(n: nat): (s: string)
    ensures s != "" && forall k :: 0 <= k < |s| ==> IsDigit(s[k])
  {
    if n < 10 then [Digit(n)] else Digits(n / 10) + [Digit(n % 10)]
  }

  function Value(s: string): int {
    if s == "" then 0 else 10 * Value(s[..|s| - 1]) + (s[|s| - 1] as int - '0' as int)
  }

  lemma {:induction false} DigitsValue(n: nat)
    ensures Value(Digits(n)) == n
  {
    if n < 10 {
      assert Value([Digit(n)]) == 10 * Value([Digit(n)][..0]) + n;
    } else {
      var s := Digits(n / 10);
      DigitsValue(n / 10);
      assert (s + [Digit(n % 10)])[..|s|] == s;
    }
  }

  /** `strconv.ParseInt` of such a text. */
  function Parsed(s: string): int {
    if s != "" && s[0] == '-' then -Value(s[1..]) else Value(s)
  }

  lemma ItoaBack(n: int)
    ensures Parsed(Itoa(n)) == n
  {
    if n < 0 {
      ParsedMinus(Digits(-n));
      DigitsValue(-n);
    } else {
      DigitsValue(n);
      assert IsDigit(Digits(n)[0]);
    }
  }

  lemma ParsedMinus(s: string)
    ensures Parsed("-" + s) == -Value(s)
  {
    assert ("-" + s)[1..] == s;
  }

  lemma ItoaBarFree(n: int)
    ensures forall k :: 0 <= k < |Itoa(n)| ==> Itoa(n)[k] != '|'
  {
  }

  function ScopeKey(s: Scope): string {
    Itoa(s.api) + "|" + s.kind + "|" + Itoa(s.id)
  }

  /** The first bar ends the first number, wherever else bars are. */
  lemma FirstBar(a: string, rest: string, b: string, other: string)
    requires '|' !in a && '|' !in b && a + "|" + rest == b + "|" + other
    ensures a == b && rest == other
  {
    var s := a + "|" + rest;
    var t := b + "|" + other;
    assert s[|a|] == '|' && t[|b|] == '|';
    assert s[..|a|] == a && t[..|b|] == b && s[|a| + 1..] == rest && t[|b| + 1..] == other;
  }

  lemma LastBar(front: string, a: string, other: string, b: string)
    requires '|' !in a && '|' !in b && front + "|" + a == other + "|" + b
    ensures front == other && a == b
  {
    var s := front + "|" + a;
    var t := other + "|" + b;
    assert s[|front|] == '|' && t[|other|] == '|';
    assert s[..|front|] == front && t[..|other|] == other && s[|front| + 1..] == a && t[|other| + 1..] == b;
  }

  /** The key tells all triples apart, also when the resource type contains the separator. */
  lemma KeyInjective(s: Scope, t: Scope)
    ensures ScopeKey(s) == ScopeKey(t) <==> s == t
  {
    if ScopeKey(s) == ScopeKey(t) {
      ItoaBarFree(s.api);
      ItoaBarFree(t.api);
      ItoaBarFree(s.id);
      ItoaBarFree(t.id);
      var x, y := s.kind + "|" + Itoa(s.id), t.kind + "|" + Itoa(t.id);
      assert ScopeKey(s) == Itoa(s.api) + "|" + x && ScopeKey(t) == Itoa(t.api) + "|" + y;
      FirstBar(Itoa(s.api), x, Itoa(t.api), y);
      LastBar(s.kind, Itoa(s.id), t.kind, Itoa(t.id));
      ItoaBack(s.api);
      ItoaBack(t.api);
      ItoaBack(s.id);
      ItoaBack(t.id);
    }
  }

  // ---------------------------------------------------------------- record preparation

  /** `unicode.IsSpace`. */
  predicate Space(c: char) {
    || c in {'\t', '\n', '\U{000B}', '\U{000C}', '\r', ' ', '\U{0085}', '\U{00A0}', '\U{1680}'}
    || '\U{2000}' <= c <= '\U{200A}'
    || c in {'\U{2028}', '\U{2029}', '\U{202F}', '\U{205F}', '\U{3000}'}
  }

  function TrimLeft(s: string): (r: string)
    ensures r == "" || !Space(r[0])
  {
    if s != "" && Space(s[0]) then TrimLeft(s[1..]) else s
  }

  function TrimRight(s: string): (r: string)
    ensures (r == "" || !Space(r[|r| - 1])) && (s != "" && !Space(s[0]) ==> r != "" && r[0] == s[0])
  {
    if s != "" && Space(s[|s| - 1]) then TrimRight(s[..|s| - 1]) else s
  }

  /** `strings.TrimSpace`. */
  function Trim(s: string): string {
    TrimRight(TrimLeft(s))
  }

  lemma TrimTwice(s: string)
    ensures Trim(Trim(s)) == Trim(s)
  {
  }

  /** t is s without its first a characters and what follows the b-th, all white space; t neither starts nor
      ends with white space. */
  ghost predicate TrimmedAt(s: string, t: string, a: nat, b: nat) {
    && a <= b <= |s| && t == s[a..b]
    && (forall k :: 0 <= k < a || b <= k < |s| ==> Space(s[k]))
    && (t != "" ==> !Space(t[0]) && !Space(t[|t| - 1]))
  }

  ghost predicate Trimmed(s: string, t: string) {
    exists a, b :: TrimmedAt(s, t, a, b)
  }

  lemma {:induction false} TrimLeftAt(s: string) returns (a: nat)
    ensures a <= |s| && TrimLeft(s) == s[a..] && forall k :: 0 <= k < a ==> Space(s[k])
  {
    a := 0;
    if s != "" && Space(s[0]) {
      a := TrimLeftAt(s[1..]);
      a := a + 1;
      assert forall k :: 1 <= k < a ==> s[k] == s[1..][k - 1];
    }
  }

  lemma {:induction false} TrimRightAt(s: string) returns (b: nat)
    ensures b <= |s| && TrimRight(s) == s[..b] && forall k :: b <= k < |s| ==> Space(s[k])
  {
    b := |s|;
    if s != "" && Space(s[|s| - 1]) {
      b := TrimRightAt(s[..|s| - 1]);
    } else {
      assert s[..b] == s;
    }
  }

  /** Trimming takes the white space off both ends and nothing else. */
  lemma TrimIff(s: string, t: string)
    ensures Trim(s) == t <==> Trimmed(s, t)
  {
    var a := TrimLeftAt(s);
    var b := TrimRightAt(s[a..]);
    assert TrimmedAt(s, Trim(s), a, a + b) by {
      assert s[a..][..b] == s[a..a + b];
      assert forall k :: a + b <= k < |s| ==> s[k] == s[a..][k - a];
    }
    if Trimmed(s, t) {
      var c, d :| TrimmedAt(s, t, c, d);
      OneTrim(s, Trim(s), a, a + b, t, c, d);
    }
  }

  lemma OneTrim(s: string, t: string, a: nat, b: nat, t': string, a': nat, b': nat)
    requires TrimmedAt(s, t, a, b) && TrimmedAt(s, t', a', b')
    ensures t == t'
  {
    if t != "" { assert t[0] == s[a] && t[|t| - 1] == s[b - 1]; }
    if t' != "" { assert t'[0] == s[a'] && t'[|t'| - 1] == s[b' - 1]; }
  }

  /** `normalizeScope`. */
  function Norm(s: Scope): Scope {
    s.(kind := Trim(s.kind))
  }

  predicate Valid(s: Scope) {
    s.api > 0 && s.id > 0 && s.kind != "" && Trim(s.kind) == s.kind
  }

  /** The first occurrences of the valid normalised triples, in order. */
  function Prepared(list: seq<Scope>): seq<Scope> {
    if list == [] then []
    else
      var before, item := Prepared(list[..|list| - 1]), Norm(list[|list| - 1]);
      if Valid(item) && item !in before then before + [item] else before
  }

  /** Entry s of a request asks for the record x. */
  ghost predicate AsksFor(s: Scope, x: Scope) {
    s.api == x.api > 0 && s.id == x.id > 0 && x.kind != "" && Trimmed(s.kind, x.kind)
  }

  ghost predicate Wanted(list: seq<Scope>, x: Scope) {
    exists k :: 0 <= k < |list| && AsksFor(list[k], x)
  }

  /** Some entry asks for x, and up to it none asks for y. */
  ghost predicate AskedFirst(list: seq<Scope>, x: Scope, y: Scope) {
    exists i :: 0 <= i < |list| && AsksFor(list[i], x) && forall m :: 0 <= m <= i ==> !AsksFor(list[m], y)
  }

  /** Some entry names the triple x, up to white space around the resource type. */
  ghost predicate Named(list: seq<Scope>, x: Scope) {
    exists k :: 0 <= k < |list| && list[k].api == x.api && list[k].id == x.id && Trimmed(list[k].kind, x.kind)
  }

  lemma NamedIff(list: seq<Scope>, x: Scope)
    ensures Named(list, x) <==> Mentioned(list, x)
  {
    forall k | 0 <= k < |list| ensures Trimmed(list[k].kind, x.kind) <==> Norm(list[k]).kind == x.kind {
      TrimIff(list[k].kind, x.kind);
    }
    assert forall k :: 0 <= k < |list| ==> Norm(list[k]).api == list[k].api && Norm(list[k]).id == list[k].id;
    if Mentioned(list, x) {
      var k :| 0 <= k < |list| && Norm(list[k]) == x;
      assert Trimmed(list[k].kind, x.kind);
    }
    if Named(list, x) {
      var k :| 0 <= k < |list| && list[k].api == x.api && list[k].id == x.id && Trimmed(list[k].kind, x.kind);
      assert Norm(list[k]) == x;
    }
  }

  lemma AsksIff(s: Scope, x: Scope)
    ensures AsksFor(s, x) <==> Valid(x) && Norm(s) == x
  {
    TrimIff(s.kind, x.kind);
    TrimTwice(s.kind);
  }

  /** What the valid triples mentioned are. */
  lemma WantedIff(list: seq<Scope>, x: Scope)
    ensures Wanted(list, x) <==> Valid(x) && Mentioned(list, x)
  {
    forall s ensures AsksFor(s, x) <==> Valid(x) && Norm(s) == x { AsksIff(s, x); }
  }

  lemma {:induction false} PreparedInOrder(list: seq<Scope>, j: nat, k: nat)
    requires j < k < |Prepared(list)|
    ensures AskedFirst(list, Prepared(list)[j], Prepared(list)[k])
  {
    var front := list[..|list| - 1];
    var x, y := Prepared(list)[j], Prepared(list)[k];
    if k < |Prepared(front)| {
      PreparedInOrder(front, j, k);
      var i :| 0 <= i < |front| && AsksFor(front[i], x) && forall m :: 0 <= m <= i ==> !AsksFor(front[m], y);
      assert list[i] == front[i] && forall m :: 0 <= m <= i ==> list[m] == front[m];
    } else {
      PreparedExact(front, x);
      PreparedExact(front, y);
      WantedIff(front, x);
      WantedIff(front, y);
      var i :| 0 <= i < |front| && AsksFor(front[i], x);
      assert list[i] == front[i] && forall m :: 0 <= m <= i ==> list[m] == front[m];
    }
  }

  /** Each triple asked for with positive ids and a resource type other than white space, once, trimmed, in the
      order of the first entries that ask for them. */
  method PrepareScopeRecords(scopes: seq<Scope>) returns (records: seq<Scope>)
    ensures records == Prepared(scopes)
    ensures NoDup(records) && forall x :: x in records <==> Wanted(scopes, x)
    ensures forall j, k :: 0 <= j < k < |records| ==> AskedFirst(scopes, records[j], records[k])
  {
    records := [];
    var seen: set<string> := {};
    for i := 0 to |scopes|
      invariant records == Prepared(scopes[..i])
      invariant forall s :: ScopeKey(s) in seen <==> s in records
    {
      assert scopes[..i + 1][..i] == scopes[..i];
      var item := Norm(scopes[i]);
      TrimTwice(scopes[i].kind);
      if item.api <= 0 || Trim(item.kind) == "" || item.id <= 0 { continue; }
      var key := ScopeKey(item);
      forall s ensures ScopeKey(s) == key <==> s == item { KeyInjective(s, item); }
      if key in seen { continue; }
      seen := seen + {key};
      records := records + [item];
    }
    assert scopes[..|scopes|] == scopes;
    forall x ensures NoDup(records) && (x in records <==> Wanted(scopes, x)) {
      PreparedExact(scopes, x);
      WantedIff(scopes, x);
    }
    forall j, k | 0 <= j < k < |records| ensures AskedFirst(scopes, records[j], records[k]) {
      PreparedInOrder(scopes, j, k);
    }
  }

  ghost predicate NoDup<T>(s: seq<T>) {
    forall j, k :: 0 <= j < k < |s| ==> s[j] != s[k]
  }

  /** The triple is asked for, once trimmed. */
  predicate Mentioned(list: seq<Scope>, x: Scope) {
    exists k :: 0 <= k < |list| && Norm(list[k]) == x
  }

  lemma MentionedLast(list: seq<Scope>, x: Scope)
    requires list != []
    ensures Mentioned(list, x) <==> Mentioned(list[..|list| - 1], x) || Norm(list[|list| - 1]) == x
  {
    var front := list[..|list| - 1];
    if Mentioned(front, x) {
      var k :| 0 <= k < |front| && Norm(front[k]) == x;
      assert Norm(list[k]) == x;
    }
    if Mentioned(list, x) {
      var k :| 0 <= k < |list| && Norm(list[k]) == x;
      assert k < |front| ==> Norm(front[k]) == x;
    }
  }

  lemma {:induction false} PreparedExact(list: seq<Scope>, x: Scope)
    ensures NoDup(Prepared(list))
    ensures x in Prepared(list) <==> Valid(x) && Mentioned(list, x)
  {
    if list != [] {
      PreparedExact(list[..|list| - 1], x);
      PreparedExact(list[..|list| - 1], Norm(list[|list| - 1]));
      MentionedLast(list, x);
    }
  }

  /** Records are ordered by first mention: what a list prepares, any longer list prepares first. */
  lemma {:induction false} PreparedGrows(list: seq<Scope>, k: nat)
    requires k <= |list|
    ensures Prepared(list[..k]) <= Prepared(list)
  {
    if k == |list| {
      assert list[..k] == list;
    } else {
      PreparedGrows(list[..|list| - 1], k);
      assert list[..|list| - 1][..k] == list[..k];
    }
  }

  // ---------------------------------------------------------------- the tables

  /** `INSERT ... ON CONFLICT DO NOTHING`. */
  function Added(rows: seq<Scope>, records: seq<Scope>): seq<Scope> {
    if records == [] then rows
    else
      var before := Added(rows, records[..|records| - 1]);
      if records[|records| - 1] in before then before else before + [records[|records| - 1]]
  }

  function Deleted(rows: seq<Scope>, x: Scope): seq<Scope> {
    if rows == [] then []
    else Deleted(rows[..|rows| - 1], x) + if rows[|rows| - 1] == x then [] else [rows[|rows| - 1]]
  }

  function Removed(rows: seq<Scope>, list: seq<Scope>): seq<Scope> {
    if list == [] then rows else Deleted(Removed(rows, list[..|list| - 1]), Norm(list[|list| - 1]))
  }

  lemma {:induction false} AddedExact(rows: seq<Scope>, records: seq<Scope>, x: Scope)
    requires NoDup(rows)
    ensures NoDup(Added(rows, records)) && rows <= Added(rows, records)
    ensures x in Added(rows, records) <==> x in rows || x in records
  {
    if records != [] {
      var front, last := records[..|records| - 1], records[|records| - 1];
      AddedExact(rows, front, x);
      assert records == front + [last];
    }
  }

  lemma {:induction false} DeletedExact(rows: seq<Scope>, d: Scope, x: Scope)
    requires NoDup(rows)
    ensures NoDup(Deleted(rows, d)) && (x in Deleted(rows, d) <==> x in rows && x != d)
  {
    if rows != [] {
      var front, last := rows[..|rows| - 1], rows[|rows| - 1];
      assert rows == front + [last];
      DeletedExact(front, d, x);
      DeletedExact(front, d, last);
    }
  }

  lemma {:induction false} RemovedExact(rows: seq<Scope>, list: seq<Scope>, x: Scope)
    requires NoDup(rows)
    ensures NoDup(Removed(rows, list)) && (x in Removed(rows, list) <==> x in rows && !Mentioned(list, x))
  {
    if list != [] {
      RemovedExact(rows, list[..|list| - 1], x);
      DeletedExact(Removed(rows, list[..|list| - 1]), Norm(list[|list| - 1]), x);
      MentionedLast(list, x);
    }
  }

  /** The scope and API rows of every role; after `budget` statements the storage fails. `failures` counts the
      transactions that failed. */
  class RoleStore {
    var scopes: map<int, seq<Scope>>
    var apis: map<int, seq<int>>
    var budget: nat
    ghost var failures: nat

    constructor (budget: nat)
      ensures scopes == map[] && apis == map[] && this.budget == budget && failures == 0
    {
      scopes, apis, this.budget, failures := map[], map[], budget, 0;
    }

    function ScopesOf(role: int): seq<Scope>
      reads this
    {
      if role in scopes then scopes[role] else []
    }

    function ApisOf(role: int): seq<int>
      reads this
    {
      if role in apis then apis[role] else []
    }

    /** Only this role's rows have changed. */
    twostate predicate OnlyRole(role: int)
      reads this
    {
      forall r :: r != role ==> ScopesOf(r) == old(ScopesOf(r)) && ApisOf(r) == old(ApisOf(r))
    }

    /** The error says whether a transaction failed. */
    twostate predicate Tells(err: bool)
      reads this
    {
      failures == old(failures) + if err then 1 else 0
    }

    method Spend() returns (ok: bool)
      modifies this`budget, this`failures
      ensures ok == (old(budget) > 0) && budget == if ok then old(budget) - 1 else 0
      ensures failures == old(failures) + if ok then 0 else 1
    {
      ok := budget > 0;
      if ok { budget := budget - 1; } else { failures := failures + 1; }
    }

    /** Delete, then insert under the unique index, in one transaction. The insert cannot conflict. */
    method ReplaceScopes(role: int, list: seq<Scope>) returns (err: bool)
      modifies this
      ensures OnlyRole(role) && ApisOf(role) == old(ApisOf(role))
      ensures ScopesOf(role) == if err then old(ScopesOf(role)) else Prepared(list)
      ensures err == (old(budget) == 0) && old(budget) <= budget + 1 && Tells(err)
    {
      var ok := Spend();
      if !ok { return true; }
      var records := PrepareScopeRecords(list);
      var rows, conflict := [], false;
      for i := 0 to |records|
        modifies {}
        invariant !conflict && rows == records[..i]
      {
        if records[i] in rows {
          conflict := true;
          assert false;
        }
        rows := rows + [records[i]];
      }
      if conflict { return true; }
      scopes := scopes[role := rows];
      err := false;
    }

    method AddScopes(role: int, list: seq<Scope>) returns (err: bool)
      modifies this
      ensures OnlyRole(role) && ApisOf(role) == old(ApisOf(role))
      ensures ScopesOf(role) == if err then old(ScopesOf(role)) else Added(old(ScopesOf(role)), Prepared(list))
      ensures (old(budget) > 0 ==> !err) && old(budget) <= budget + 1 && Tells(err)
    {
      var records := PrepareScopeRecords(list);
      if records == [] { return false; }
      var ok := Spend();
      if !ok { return true; }
      var rows := ScopesOf(role);
      for i := 0 to |records|
        modifies {}
        invariant rows == Added(old(ScopesOf(role)), records[..i])
      {
        assert records[..i + 1][..i] == records[..i];
        if records[i] !in rows { rows := rows + [records[i]]; }
      }
      assert records[..|records|] == records;
      scopes := scopes[role := rows];
      err := false;
    }

    /** One delete per triple, all in one transaction. */
    method RemoveScopes(role: int, list: seq<Scope>) returns (err: bool)
      modifies this
      ensures OnlyRole(role) && ApisOf(role) == old(ApisOf(role))
      ensures ScopesOf(role) == if err then old(ScopesOf(role)) else Removed(old(ScopesOf(role)), list)
      ensures (old(budget) > 0 ==> !err) && old(budget) <= budget + 1 && Tells(err)
    {
      if list == [] { return false; }
      var ok := Spend();
      if !ok { return true; }
      var rows := ScopesOf(role);
      for i := 0 to |list|
        modifies {}
        invariant rows == Removed(old(ScopesOf(role)), list[..i])
      {
        assert list[..i + 1][..i] == list[..i];
        rows := DeleteRow(rows, Norm(list[i]));
      }
      assert list[..|list|] == list;
      scopes := scopes[role := rows];
      err := false;
    }

    static method DeleteRow(rows: seq<Scope>, x: Scope) returns (r: seq<Scope>)
      ensures r == Deleted(rows, x)
    {
      r := [];
      for i := 0 to |rows|
        invariant r == Deleted(rows[..i], x)
      {
        assert rows[..i + 1][..i] == rows[..i];
        if rows[i] != x { r := r + [rows[i]]; }
      }
      assert rows[..|rows|] == rows;
    }

    method ReplaceByRoleId(role: int, ids: seq<int>) returns (err: bool)
      modifies this
      ensures OnlyRole(role) && ScopesOf(role) == old(ScopesOf(role))
      ensures ApisOf(role) == if err then old(ApisOf(role)) else ids
      ensures err == (old(budget) == 0) && Tells(err)
    {
      var ok := Spend();
      if ok { apis := apis[role := ids]; }
      err := !ok;
    }

    /** `UpdateAPIs` of an existing role; `known` are the ids of the API table. It does not look at the scopes. */
    method UpdateAPIs(role: int, ids: seq<int>, known: set<int>) returns (err: bool)
      modifies this
      ensures OnlyRole(role) && ScopesOf(role) == old(ScopesOf(role))
      ensures ApisOf(role) == if err then old(ApisOf(role)) else Deduped(ids)
      ensures err <==> failures > old(failures) || exists n :: n in ids && n !in known
      ensures (forall n :: n in ids ==> n in known) && old(budget) > |ids| ==> !err
    {
      var list := DedupeInt64(ids);
      for k := 0 to |list|
        invariant scopes == old(scopes) && apis == old(apis) && failures == old(failures)
        invariant forall j :: 0 <= j < k ==> list[j] in known
        invariant old(budget) > |ids| ==> budget >= old(budget) - k
      {
        var ok := Spend();
        if !ok { return true; }
        if list[k] !in known {
          var n := list[k];
          assert n in list && n in ids;
          return true;
        }
      }
      assert forall n :: n in list ==> n in known;
      err := ReplaceByRoleId(role, list);
    }
  }

  /** The first occurrences, in order. */
  function Deduped(ids: seq<int>): seq<int> {
    if ids == [] then []
    else
      var front := Deduped(ids[..|ids| - 1]);
      if ids[|ids| - 1] in front then front else front + [ids[|ids| - 1]]
  }

  lemma {:induction false} DedupedExact(ids: seq<int>)
    ensures NoDup(Deduped(ids)) && |Deduped(ids)| <= |ids| && forall n :: n in Deduped(ids) <==> n in ids
  {
    if ids != [] {
      DedupedExact(ids[..|ids| - 1]);
      assert ids == ids[..|ids| - 1] + [ids[|ids| - 1]];
    }
  }

  method DedupeInt64(ids: seq<int>) returns (result: seq<int>)
    ensures result == Deduped(ids)
    ensures NoDup(result) && |result| <= |ids| && forall n :: n in result <==> n in ids
  {
    DedupedExact(ids);
    if |ids| == 0 { return ids; }
    var seen: set<int> := {};
    result := [];
    for k := 0 to |ids|
      invariant result == Deduped(ids[..k]) && forall n :: n in seen <==> n in result
    {
      assert ids[..k + 1][..k] == ids[..k] && ids[..k + 1][k] == ids[k];
      if ids[k] in seen { continue; }
      seen, result := seen + {ids[k]}, result + [ids[k]];
    }
    assert ids[..|ids|] == ids;
  }

  function ApiIds(list: seq<Scope>): seq<int> {
    if list == [] then [] else ApiIds(list[..|list| - 1]) + [list[|list| - 1].api]
  }

  /** The union of two id lists without what is not positive, each id once, in no particular order. */
  method MergeIDs(a: seq<int>, b: seq<int>) returns (out: seq<int>)
    ensures NoDup(out) && forall n :: n in out <==> n > 0 && (n in a || n in b)
  {
    var merged: set<int> := {};
    for i := 0 to |a|
      invariant forall n :: n in merged <==> n > 0 && n in a[..i]
    {
      if a[i] > 0 { merged := merged + {a[i]}; }
    }
    for i := 0 to |b|
      invariant forall n :: n in merged <==> n > 0 && (n in a || n in b[..i])
    {
      if b[i] > 0 { merged := merged + {b[i]}; }
    }
    out := Listed(merged);
  }

  /** The keys of a map in some order. */
  method Listed<T(==)>(s: set<T>) returns (out: seq<T>)
    ensures NoDup(out) && forall n :: n in out <==> n in s
  {
    out := [];
    var left := s;
    while left != {}
      invariant NoDup(out) && left <= s && forall n :: n in out <==> n in s && n !in left
      decreases |left|
    {
      var n :| n in left;
      out, left := out + [n], left - {n};
    }
  }

  lemma {:induction false} ApiIdsExact(list: seq<Scope>, n: int)
    ensures n in ApiIds(list) <==> exists x :: x in list && x.api == n
  {
    if list != [] {
      var front, last := list[..|list| - 1], list[|list| - 1];
      ApiIdsExact(front, n);
      assert list == front + [last];
      if last.api == n { assert last in list; }
    }
  }
}
