/** Listing: the two stable sorts, paging, and the cluster list. */
module Listing {
  import opened Collections

  // ---------------------------------------------------------------- order

  /** Go's `<` on strings. */
  predicate StrLess(a: string, b: string) {
    b != "" && (a == "" || a[0] < b[0] || (a[0] == b[0] && StrLess(a[1..], b[1..])))
  }

  lemma {:induction false} StrTotal(a: string, b: string)
    ensures StrLess(a, b) || a == b || StrLess(b, a)
    ensures !(StrLess(a, b) && StrLess(b, a)) && !StrLess(a, a)
  {
    if a != "" {
      StrTotal(a[1..], a[1..]);
      if b != "" && a[0] == b[0] {
        StrTotal(a[1..], b[1..]);
        assert a == [a[0]] + a[1..] && b == [b[0]] + b[1..];
      }
    }
  }

  lemma {:induction false} StrTrans(a: string, b: string, c: string)
    requires StrLess(a, b) && StrLess(b, c)
    ensures StrLess(a, c)
  {
    if a != "" && a[0] == b[0] && b[0] == c[0] { StrTrans(a[1..], b[1..], c[1..]); }
  }

  /** That is the order of the dictionary: by the first character that differs, a proper beginning first. */
  lemma {:induction false} StrLessIff(a: string, b: string)
    ensures StrLess(a, b) <==> exists k :: 0 <= k <= |a| && k < |b| && a[..k] == b[..k] && (k == |a| || a[k] < b[k])
  {
    if a == "" || b == "" || a[0] != b[0] {
      assert a[..0] == b[..0];
      assert forall k :: 1 <= k <= |a| && k < |b| ==> a[..k][0] == a[0] && b[..k][0] == b[0];
    } else {
      var a', b' := a[1..], b[1..];
      StrLessIff(a', b');
      if StrLess(a', b') {
        var k :| 0 <= k <= |a'| && k < |b'| && a'[..k] == b'[..k] && (k == |a'| || a'[k] < b'[k]);
        assert a[..k + 1] == [a[0]] + a'[..k] && b[..k + 1] == [b[0]] + b'[..k];
      }
      if k :| 0 <= k <= |a| && k < |b| && a[..k] == b[..k] && (k == |a| || a[k] < b[k]) {
        assert k > 0;
        assert a'[..k - 1] == a[..k][1..] && b'[..k - 1] == b[..k][1..];
      }
    }
  }

  datatype Object = Object(namespace: string, name: string, labels: string, uid: int)

  /** What a sort compares: the name, the namespace, or both with the namespace first. */
  datatype By = ByName | ByNamespace | ByBoth
  datatype Key = Key(namespace: string, name: string)

  function KeyOf(ord: By, o: Object): Key {
    match ord
    case ByName => Key("", o.name)
    case ByNamespace => Key(o.namespace, "")
    case ByBoth => Key(o.namespace, o.name)
  }

  predicate KeyLess(a: Key, b: Key) {
    StrLess(a.namespace, b.namespace) || (a.namespace == b.namespace && StrLess(a.name, b.name))
  }

  predicate Less(ord: By, a: Object, b: Object) {
    KeyLess(KeyOf(ord, a), KeyOf(ord, b))
  }

  lemma KeyTotal(a: Key, b: Key)
    ensures KeyLess(a, b) || a == b || KeyLess(b, a)
    ensures !(KeyLess(a, b) && KeyLess(b, a)) && !KeyLess(a, a)
  {
    StrTotal(a.namespace, b.namespace);
    StrTotal(a.namespace, a.namespace);
    StrTotal(a.name, b.name);
    StrTotal(a.name, a.name);
  }

  lemma KeyTrans(a: Key, b: Key, c: Key)
    requires !KeyLess(b, a) && !KeyLess(c, b)
    ensures !KeyLess(c, a)
  {
    KeyTotal(a, b);
    KeyTotal(b, c);
    KeyTotal(a, c);
    if KeyLess(a, b) && KeyLess(b, c) {
      if StrLess(a.namespace, b.namespace) && StrLess(b.namespace, c.namespace) {
        StrTrans(a.namespace, b.namespace, c.namespace);
      } else if a.namespace == b.namespace == c.namespace {
        StrTrans(a.name, b.name, c.name);
      }
    }
  }

  // ---------------------------------------------------------------- stable sorting

  ghost predicate Sorted(ord: By, s: seq<Object>) {
    forall i, j :: 0 <= i < j < |s| ==> !Less(ord, s[j], s[i])
  }

  /** The objects with one key, in order. */
  function Filter(ord: By, s: seq<Object>, k: Key): seq<Object> {
    if s == [] then []
    else Filter(ord, s[..|s| - 1], k) + if KeyOf(ord, s[|s| - 1]) == k then [s[|s| - 1]] else []
  }

  ghost predicate SameFilters(ord: By, s: seq<Object>, t: seq<Object>) {
    forall k :: Filter(ord, s, k) == Filter(ord, t, k)
  }

  /** The contract of `sort.SliceStable`: sorted, and objects with equal keys keep their order. */
  ghost predicate IsStableSort(ord: By, s: seq<Object>, r: seq<Object>) {
    Sorted(ord, r) && SameFilters(ord, s, r)
  }

  lemma {:induction false} FilterJoin(ord: By, a: seq<Object>, b: seq<Object>, k: Key)
    ensures Filter(ord, a + b, k) == Filter(ord, a, k) + Filter(ord, b, k)
  {
    if b == [] {
      assert a + b == a;
    } else {
      FilterJoin(ord, a, b[..|b| - 1], k);
      assert (a + b)[..|a + b| - 1] == a + b[..|b| - 1];
    }
  }

  lemma {:induction false} FilterIn(ord: By, s: seq<Object>, k: Key, x: Object)
    ensures x in Filter(ord, s, k) <==> x in s && KeyOf(ord, x) == k
  {
    if s != [] {
      FilterIn(ord, s[..|s| - 1], k, x);
      assert s == s[..|s| - 1] + [s[|s| - 1]];
    }
  }

  lemma FilterPair(ord: By, x: Object, y: Object, k: Key)
    requires KeyOf(ord, x) != KeyOf(ord, y)
    ensures Filter(ord, [x, y], k) == Filter(ord, [y, x], k)
  {
    assert [x, y] == [x] + [y] && [y, x] == [y] + [x];
    FilterJoin(ord, [x], [y], k);
    FilterJoin(ord, [y], [x], k);
    assert [x][..0] == [] && [y][..0] == [];
  }

  /** Swapping neighbours with different keys is invisible to every filter. */
  lemma SwapKeeps(ord: By, s: seq<Object>, t: seq<Object>, j: nat)
    requires 0 < j < |s| && t == s[j - 1 := s[j]][j := s[j - 1]] && KeyOf(ord, s[j - 1]) != KeyOf(ord, s[j])
    ensures SameFilters(ord, s, t)
  {
    var a, b := s[..j - 1], s[j + 1..];
    assert s == a + ([s[j - 1], s[j]] + b) && t == a + ([s[j], s[j - 1]] + b);
    forall k ensures Filter(ord, s, k) == Filter(ord, t, k) {
      FilterPair(ord, s[j - 1], s[j], k);
      FilterJoin(ord, a, [s[j - 1], s[j]] + b, k);
      FilterJoin(ord, a, [s[j], s[j - 1]] + b, k);
      FilterJoin(ord, [s[j - 1], s[j]], b, k);
      FilterJoin(ord, [s[j], s[j - 1]], b, k);
    }
  }

  /** Sorted but for position j, which belongs at j or before. */
  ghost predicate AlmostSorted(ord: By, s: seq<Object>, j: nat) {
    && j < |s|
    && (forall p, q :: 0 <= p < q < |s| && p != j && q != j ==> !Less(ord, s[q], s[p]))
    && (forall q :: j < q < |s| ==> Less(ord, s[j], s[q]))
  }

  lemma SwapDown(ord: By, s: seq<Object>, t: seq<Object>, j: nat)
    requires AlmostSorted(ord, s, j) && 0 < j && Less(ord, s[j], s[j - 1])
    requires t == s[j - 1 := s[j]][j := s[j - 1]]
    ensures AlmostSorted(ord, t, j - 1)
  {
  }

  lemma Settled(ord: By, s: seq<Object>, j: nat)
    requires AlmostSorted(ord, s, j) && (j == 0 || !Less(ord, s[j], s[j - 1]))
    ensures Sorted(ord, s)
  {
    forall p, q | 0 <= p < q < |s| ensures !Less(ord, s[q], s[p]) {
      if q == j && p < j - 1 { KeyTrans(KeyOf(ord, s[p]), KeyOf(ord, s[j - 1]), KeyOf(ord, s[j])); }
      if p == j { KeyTotal(KeyOf(ord, s[p]), KeyOf(ord, s[q])); }
    }
  }

  /** Insertion sort, swapping neighbours only when the later one is strictly less. */
  method StableSort(a: array<Object>, ord: By)
    modifies a
    ensures IsStableSort(ord, old(a[..]), a[..])
  {
    for i := 0 to a.Length
      invariant Sorted(ord, a[..i]) && SameFilters(ord, old(a[..]), a[..])
    {
      var j := i;
      assert a[..i + 1][..i] == a[..i];
      while j > 0 && Less(ord, a[j], a[j - 1])
        invariant j <= i && AlmostSorted(ord, a[..i + 1], j) && SameFilters(ord, old(a[..]), a[..])
      {
        ghost var s, front := a[..], a[..i + 1];
        KeyTotal(KeyOf(ord, a[j]), KeyOf(ord, a[j - 1]));
        a[j], a[j - 1] := a[j - 1], a[j];
        assert a[..] == s[j - 1 := s[j]][j := s[j - 1]];
        assert a[..i + 1] == front[j - 1 := front[j]][j := front[j - 1]];
        SwapKeeps(ord, s, a[..], j);
        SwapDown(ord, front, a[..i + 1], j);
        j := j - 1;
      }
      Settled(ord, a[..i + 1], j);
    }
    assert a[..a.Length] == a[..];
  }

  lemma {:induction false} FilterCount(ord: By, s: seq<Object>, x: Object)
    ensures multiset(Filter(ord, s, KeyOf(ord, x)))[x] == multiset(s)[x]
  {
    if s != [] {
      FilterCount(ord, s[..|s| - 1], x);
      assert s == s[..|s| - 1] + [s[|s| - 1]];
    }
  }

  /** Equal filters make a permutation. */
  lemma SameFiltersPermute(ord: By, s: seq<Object>, t: seq<Object>)
    requires SameFilters(ord, s, t)
    ensures multiset(s) == multiset(t)
  {
    forall x ensures multiset(s)[x] == multiset(t)[x] {
      FilterCount(ord, s, x);
      FilterCount(ord, t, x);
    }
  }

  lemma LastKey(ord: By, r: seq<Object>, t: seq<Object>)
    requires Sorted(ord, r) && SameFilters(ord, r, t) && t != []
    ensures r != [] && !Less(ord, r[|r| - 1], t[|t| - 1])
  {
    var last := t[|t| - 1];
    FilterIn(ord, t, KeyOf(ord, last), last);
    FilterIn(ord, r, KeyOf(ord, last), last);
    var i :| 0 <= i < |r| && r[i] == last;
    KeyTotal(KeyOf(ord, last), KeyOf(ord, last));
  }

  /** A stable sort has only one possible result. */
  lemma {:induction false} StableUnique(ord: By, r: seq<Object>, t: seq<Object>)
    requires Sorted(ord, r) && Sorted(ord, t) && SameFilters(ord, r, t)
    ensures r == t
  {
    if r == [] {
      if t != [] { LastKey(ord, r, t); }
    } else {
      LastKey(ord, t, r);
      LastKey(ord, r, t);
      var x, y := r[|r| - 1], t[|t| - 1];
      KeyTotal(KeyOf(ord, x), KeyOf(ord, y));
      assert Filter(ord, r, KeyOf(ord, x))[|Filter(ord, r, KeyOf(ord, x))| - 1] == x;
      assert Filter(ord, t, KeyOf(ord, x))[|Filter(ord, t, KeyOf(ord, x))| - 1] == y;
      var rf, tf := r[..|r| - 1], t[..|t| - 1];
      forall k ensures Filter(ord, rf, k) == Filter(ord, tf, k) {
        var z := if KeyOf(ord, x) == k then [x] else [];
        assert Filter(ord, r, k) == Filter(ord, rf, k) + z && Filter(ord, t, k) == Filter(ord, tf, k) + z;
        assert (Filter(ord, rf, k) + z)[..|Filter(ord, rf, k)|] == Filter(ord, rf, k);
        assert (Filter(ord, tf, k) + z)[..|Filter(ord, tf, k)|] == Filter(ord, tf, k);
      }
      StableUnique(ord, rf, tf);
      assert r == rf + [x] && t == tf + [x];
    }
  }

  // ---------------------------------------------------------------- sorting twice

  lemma {:induction false} FilterTwice(s: seq<Object>, ns: string, name: string)
    ensures Filter(ByName, Filter(ByNamespace, s, Key(ns, "")), Key("", name)) == Filter(ByBoth, s, Key(ns, name))
    ensures Filter(ByNamespace, Filter(ByName, s, Key("", name)), Key(ns, "")) == Filter(ByBoth, s, Key(ns, name))
  {
    if s != [] {
      var front, last := s[..|s| - 1], s[|s| - 1];
      FilterTwice(front, ns, name);
      FilterJoin(ByName, Filter(ByNamespace, front, Key(ns, "")), if last.namespace == ns then [last] else [], Key("", name));
      FilterJoin(ByNamespace, Filter(ByName, front, Key("", name)), if last.name == name then [last] else [], Key(ns, ""));
      assert [last][..0] == [];
    }
  }

  lemma {:induction false} FilterSorted(s: seq<Object>, k: Key)
    requires Sorted(ByName, s)
    ensures Sorted(ByName, Filter(ByNamespace, s, k))
  {
    if s != [] {
      var front, last := s[..|s| - 1], s[|s| - 1];
      FilterSorted(front, k);
      var f := Filter(ByNamespace, front, k);
      forall i | 0 <= i < |f| ensures !Less(ByName, last, f[i]) {
        FilterIn(ByNamespace, front, k, f[i]);
        var j :| 0 <= j < |front| && front[j] == f[i];
        assert s[j] == f[i];
      }
    }
  }

  lemma {:induction false} FilterOrder(s: seq<Object>, k: Key, i: nat, j: nat)
    requires i < j < |s| && KeyOf(ByNamespace, s[i]) == k && KeyOf(ByNamespace, s[j]) == k
    requires Sorted(ByName, Filter(ByNamespace, s, k))
    ensures !Less(ByName, s[j], s[i])
  {
    var front, last := s[..|s| - 1], s[|s| - 1];
    var f, g := Filter(ByNamespace, front, k), Filter(ByNamespace, s, k);
    if j < |s| - 1 {
      assert forall p :: 0 <= p < |f| ==> f[p] == g[p];
      FilterOrder(front, k, i, j);
    } else {
      FilterIn(ByNamespace, front, k, s[i]);
      assert front[i] == s[i];
      var p :| 0 <= p < |f| && f[p] == s[i];
      assert g[p] == s[i] && g[|g| - 1] == s[j];
    }
  }

  /** Sorting stably by name and then stably by namespace is one stable sort by namespace and name. */
  lemma SortTwice(s: seq<Object>, m: seq<Object>, r: seq<Object>)
    requires IsStableSort(ByName, s, m) && IsStableSort(ByNamespace, m, r)
    ensures IsStableSort(ByBoth, s, r)
  {
    forall i, j | 0 <= i < j < |r| ensures !Less(ByBoth, r[j], r[i]) {
      assert !Less(ByNamespace, r[j], r[i]);
      StrTotal("", "");
      if r[i].namespace == r[j].namespace {
        var k := KeyOf(ByNamespace, r[i]);
        FilterSorted(m, k);
        assert Filter(ByNamespace, m, k) == Filter(ByNamespace, r, k);
        FilterOrder(r, k, i, j);
      }
    }
    forall k ensures Filter(ByBoth, s, k) == Filter(ByBoth, r, k) {
      FilterTwice(s, k.namespace, k.name);
      FilterTwice(m, k.namespace, k.name);
      FilterTwice(r, k.namespace, k.name);
      assert Key(k.namespace, k.name) == k;
      assert Filter(ByName, s, Key("", k.name)) == Filter(ByName, m, Key("", k.name));
      assert Filter(ByNamespace, m, Key(k.namespace, "")) == Filter(ByNamespace, r, Key(k.namespace, ""));
    }
  }

  function Order(namespace: string): By {
    if namespace == "" then ByBoth else ByName
  }

  /** The names never go down; over all namespaces the namespaces never do, and the names do not within one. */
  ghost predicate Listed(namespace: string, s: seq<Object>) {
    forall i, j :: 0 <= i < j < |s| ==>
      if namespace != "" then !StrLess(s[j].name, s[i].name)
      else !StrLess(s[j].namespace, s[i].namespace) && (s[i].namespace == s[j].namespace ==> !StrLess(s[j].name, s[i].name))
  }

  lemma SortedListed(namespace: string, s: seq<Object>)
    requires Sorted(Order(namespace), s)
    ensures Listed(namespace, s)
  {
    forall i, j | 0 <= i < j < |s| ensures !Less(Order(namespace), s[j], s[i]) {}
  }

  /** `forSorted`: one namespace is sorted by name, all namespaces by namespace and then name. */
  method ForSorted(objects: array<Object>, namespace: string)
    modifies objects
    ensures IsStableSort(Order(namespace), old(objects[..]), objects[..])
    ensures Listed(namespace, objects[..]) && multiset(objects[..]) == multiset(old(objects[..]))
  {
    StableSort(objects, ByName);
    if |namespace| == 0 {
      ghost var m := objects[..];
      StableSort(objects, ByNamespace);
      SortTwice(old(objects[..]), m, objects[..]);
    }
    SortedListed(namespace, objects[..]);
    SameFiltersPermute(Order(namespace), old(objects[..]), objects[..]);
  }

  ghost predicate DistinctKeys(ord: By, s: seq<Object>) {
    forall i, j :: 0 <= i < j < |s| ==> KeyOf(ord, s[i]) != KeyOf(ord, s[j])
  }

  lemma {:induction false} FilterSingle(ord: By, s: seq<Object>, k: Key)
    requires DistinctKeys(ord, s)
    ensures |Filter(ord, s, k)| <= 1
  {
    if s != [] {
      var front, last := s[..|s| - 1], s[|s| - 1];
      FilterSingle(ord, front, k);
      if Filter(ord, front, k) != [] {
        var x := Filter(ord, front, k)[0];
        FilterIn(ord, front, k, x);
        var i :| 0 <= i < |front| && front[i] == x;
        assert KeyOf(ord, s[i]) != KeyOf(ord, s[|s| - 1]);
      }
    }
  }

  lemma FilterWithin(ord: By, s: seq<Object>, t: seq<Object>, k: Key, x: Object)
    requires multiset(s) == multiset(t) && x in Filter(ord, s, k)
    ensures x in Filter(ord, t, k)
  {
    FilterIn(ord, s, k, x);
    FilterIn(ord, t, k, x);
    assert x in multiset(s) && x in multiset(t);
  }

  /** The objects of one key are the same whatever the order. */
  lemma FilterUnordered(ord: By, s: seq<Object>, t: seq<Object>, k: Key)
    requires DistinctKeys(ord, s) && DistinctKeys(ord, t) && multiset(s) == multiset(t)
    ensures Filter(ord, s, k) == Filter(ord, t, k)
  {
    var fs, ft := Filter(ord, s, k), Filter(ord, t, k);
    FilterSingle(ord, s, k);
    FilterSingle(ord, t, k);
    if fs != [] {
      FilterWithin(ord, s, t, k, fs[0]);
      assert fs == [fs[0]] && ft == [fs[0]];
    } else if ft != [] {
      FilterWithin(ord, t, s, k, ft[0]);
    }
  }

  /** The store hands objects out in no particular order. When no two share a key, every order sorts to
      the same list, so pages fetched by separate calls belong to one list. */
  lemma OrderIrrelevant(ord: By, s: seq<Object>, t: seq<Object>, r: seq<Object>, r': seq<Object>)
    requires DistinctKeys(ord, s) && DistinctKeys(ord, t) && multiset(s) == multiset(t)
    requires IsStableSort(ord, s, r) && IsStableSort(ord, t, r')
    ensures r == r'
  {
    forall k ensures Filter(ord, r, k) == Filter(ord, r', k) {
      FilterUnordered(ord, s, t, k);
    }
    StableUnique(ord, r, r');
  }

  // ---------------------------------------------------------------- paging

  datatype PageRequest = PageRequest(page: int, limit: int)

  /** A page, or the run-time panic of a slice expression out of range. */
  datatype Paged<T> = Items(items: seq<T>) | Panics

  predicate IsPaged(r: PageRequest) {
    r.page != 0 && r.limit != 0
  }

  datatype Bounds = Bounds(offset: int, end: int) | Invalid

  /** `PageRequest.Offset`. */
  function Offset(r: PageRequest, total: nat): Bounds {
    var offset := (r.page - 1) * r.limit;
    if offset > total then Invalid
    else Bounds(offset, if offset + r.limit > total then total else offset + r.limit)
  }

  function Slice<T>(s: seq<T>, b: Bounds): Paged<T> {
    match b
    case Invalid => Items([])
    case Bounds(offset, end) => if 0 <= offset <= end <= |s| then Items(s[offset..end]) else Panics
  }

  /** Page p of a list when a page has l items, p counted from 1. */
  ghost predicate IsPage<T>(s: seq<T>, p: int, l: int, items: seq<T>)
    requires p >= 1 && l >= 1
  {
    var lo := (p - 1) * l;
    if lo >= |s| then items == []
    else lo >= 0 && |items| == Min(l, |s| - lo) && forall k :: 0 <= k < |items| ==> items[k] == s[lo + k]
  }

  /** What a positive page request is answered with. */
  lemma PageExact<T>(s: seq<T>, r: PageRequest)
    requires r.page >= 1 && r.limit >= 1
    ensures ForPage(s, r).Items? && IsPage(s, r.page, r.limit, ForPage(s, r).items)
  {
    Product(r.page - 1, r.limit);
  }

  /** `forPage`. */
  function ForPage<T>(s: seq<T>, r: PageRequest): Paged<T> {
    if !IsPaged(r) then Items(s) else Slice(s, Offset(r, |s|))
  }

  lemma Product(a: int, b: int)
    ensures a >= 0 && b >= 0 ==> a * b >= 0
    ensures a < 0 && b > 0 ==> a * b < 0
    ensures a > 0 && b < 0 ==> a * b < 0
  {
  }

  /** Which page requests are served at all: those with page and limit positive, those that switch paging
      off, and those whose offset lies behind the list. */
  lemma ServedIff<T>(s: seq<T>, r: PageRequest)
    ensures ForPage(s, r) != Panics <==> !IsPaged(r) || (r.page >= 1 && r.limit >= 1) || (r.page - 1) * r.limit > |s|
  {
    if IsPaged(r) { Product(r.page - 1, r.limit); }
  }

  /** Pages 1 to n of one list, one after the other. */
  function Pages<T>(s: seq<T>, limit: int, n: nat): seq<T> {
    if n == 0 then []
    else Pages(s, limit, n - 1) + match ForPage(s, PageRequest(n, limit)) case Items(items) => items case Panics => []
  }

  function Min(a: int, b: int): int {
    if a < b then a else b
  }

  lemma PageIs<T>(s: seq<T>, limit: int, n: nat, lo: nat)
    requires n >= 1 && limit >= 1 && lo == (n - 1) * limit
    ensures ForPage(s, PageRequest(n, limit)) == Items(if lo <= |s| then s[lo..Min(lo + limit, |s|)] else [])
  {
  }

  lemma PageJoins<T>(s: seq<T>, limit: int, lo: nat)
    requires limit >= 1
    ensures s[..Min(lo, |s|)] + (if lo <= |s| then s[lo..Min(lo + limit, |s|)] else []) == s[..Min(lo + limit, |s|)]
  {
  }

  /** For any positive limit the pages put together are the list: nothing lost, nothing twice. */
  lemma {:induction false} PagesConcat<T>(s: seq<T>, limit: int, n: nat)
    requires limit >= 1
    ensures 0 <= n * limit && Pages(s, limit, n) == s[..Min(n * limit, |s|)]
  {
    if n > 0 {
      PagesConcat(s, limit, n - 1);
      var lo := (n - 1) * limit;
      assert n * limit == lo + limit;
      PageIs(s, limit, n, lo);
      PageJoins(s, limit, lo);
    }
  }

  /** Enough pages are the whole list. */
  lemma AllPages<T>(s: seq<T>, limit: int, n: nat)
    requires limit >= 1 && n * limit >= |s|
    ensures Pages(s, limit, n) == s
  {
    PagesConcat(s, limit, n);
  }

  // ---------------------------------------------------------------- object lists

  datatype Query = Query(labelSelector: string, nameSelector: string)

  predicate Selected(o: Object, q: Query) {
    || (q.labelSelector == "" && q.nameSelector == "")
    || (q.labelSelector != "" && Contains(o.labels, q.labelSelector))
    || (q.nameSelector != "" && Contains(o.name, q.nameSelector))
  }

  function Matching(s: seq<Object>, q: Query): seq<Object> {
    if s == [] then [] else Matching(s[..|s| - 1], q) + if Selected(s[|s| - 1], q) then [s[|s| - 1]] else []
  }

  lemma {:induction false} MatchingAll(s: seq<Object>, q: Query)
    requires q.labelSelector == "" && q.nameSelector == ""
    ensures Matching(s, q) == s
  {
    if s != [] { MatchingAll(s[..|s| - 1], q); }
  }

  method ForQuery(objects: array<Object>, q: Query) returns (r: array<Object>)
    ensures r[..] == Matching(objects[..], q) && (r == objects || fresh(r))
  {
    if |q.labelSelector| == 0 && |q.nameSelector| == 0 {
      MatchingAll(objects[..], q);
      return objects;
    }
    var found := [];
    for i := 0 to objects.Length
      invariant found == Matching(objects[..i], q)
    {
      assert objects[..i + 1][..i] == objects[..i];
      var o := objects[i];
      if (|q.labelSelector| != 0 && Contains(o.labels, q.labelSelector)) || (|q.nameSelector| != 0 && Contains(o.name, q.nameSelector)) {
        found := found + [o];
      }
    }
    assert objects[..objects.Length] == objects[..];
    r := new Object[|found|](i requires 0 <= i < |found| => found[i]);
  }

  /** The object has the text searched for in its labels or in its name. */
  predicate Wanted(o: Object, q: Query) {
    || (|q.labelSelector| > 0 && Contains(o.labels, q.labelSelector))
    || (|q.nameSelector| > 0 && Contains(o.name, q.nameSelector))
    || (|q.labelSelector| == 0 && |q.nameSelector| == 0)
  }

  /** The positions of the objects wanted, in order. */
  ghost predicate WantedAt(s: seq<Object>, q: Query, at: seq<nat>) {
    && (forall j, k :: 0 <= j < k < |at| ==> at[j] < at[k])
    && (forall k :: 0 <= k < |at| ==> at[k] < |s| && Wanted(s[at[k]], q))
    && (forall h: nat :: h < |s| && Wanted(s[h], q) ==> h in at)
  }

  ghost predicate IsPicked(s: seq<Object>, q: Query, r: seq<Object>) {
    exists at :: WantedAt(s, q, at) && |r| == |at| && forall k :: 0 <= k < |r| ==> at[k] < |s| && r[k] == s[at[k]]
  }

  lemma WantedMore(s: seq<Object>, q: Query, at: seq<nat>)
    requires s != [] && Wanted(s[|s| - 1], q) && WantedAt(s[..|s| - 1], q, at)
    ensures WantedAt(s, q, at + [|s| - 1])
  {
    var n := |s| - 1;
    var more := at + [n];
    forall h: nat | h < |s| && Wanted(s[h], q) ensures h in more {
      assert h < n ==> s[..n][h] == s[h] && h in at;
      InMore(at, n, h);
    }
  }

  lemma {:induction false} MatchingPicked(s: seq<Object>, q: Query) returns (at: seq<nat>)
    ensures WantedAt(s, q, at) && |Matching(s, q)| == |at|
    ensures forall k :: 0 <= k < |at| ==> Matching(s, q)[k] == s[at[k]]
  {
    if s == [] {
      at := [];
    } else {
      var n := |s| - 1;
      at := MatchingPicked(s[..n], q);
      if Wanted(s[n], q) {
        WantedMore(s, q, at);
        at := at + [n];
      }
    }
  }

  /** `listObjects`: the selected objects in the listing's order, and the page asked for. */
  method ListObjects(objects: array<Object>, namespace: string, q: Query, req: PageRequest)
    returns (total: nat, page: Paged<Object>, ghost list: seq<Object>)
    modifies objects
    ensures Listed(namespace, list) && exists picked :: IsPicked(old(objects[..]), q, picked) && multiset(picked) == multiset(list)
    ensures req.page >= 1 && req.limit >= 1 ==> page.Items? && IsPage(list, req.page, req.limit, page.items)
    ensures req.page == 0 || req.limit == 0 ==> page == Items(list)
    ensures IsStableSort(Order(namespace), Matching(old(objects[..]), q), list)
    ensures total == |list| && page == ForPage(list, req)
  {
    var found := ForQuery(objects, q);
    ghost var at := MatchingPicked(objects[..], q);
    assert IsPicked(objects[..], q, found[..]);
    ForSorted(found, namespace);
    list, total, page := found[..], found.Length, ForPage(found[..], req);
    if req.page >= 1 && req.limit >= 1 { PageExact(list, req); }
  }

  // ---------------------------------------------------------------- the cluster list

  datatype Cluster = Cluster(id: int, permission: int, owner: int, name: string)

  function Masters(all: seq<Cluster>): seq<Cluster> {
    if all == [] then [] else Masters(all[..|all| - 1]) + if all[|all| - 1].permission == 0 then [all[|all| - 1]] else []
  }

  predicate IsMaster(all: seq<Cluster>, id: int) {
    exists k :: 0 <= k < |all| && all[k].permission == 0 && all[k].id == id
  }

  /** The sub-clusters of `some` whose owner is not among the masters of `all`. */
  function Orphans(some: seq<Cluster>, all: seq<Cluster>): seq<Cluster> {
    if some == [] then []
    else
      var c := some[|some| - 1];
      Orphans(some[..|some| - 1], all) + if c.permission != 0 && !IsMaster(all, c.owner) then [c] else []
  }

  function Visible(all: seq<Cluster>): seq<Cluster> {
    Masters(all) + Orphans(all, all)
  }

  /** `SetDefaultPageOption`. */
  function Defaults(r: PageRequest): PageRequest {
    PageRequest(if r.page <= 0 then 1 else r.page, if r.limit <= 0 then 10 else if r.limit > 100 then 100 else r.limit)
  }

  function Subs(all: seq<Cluster>): seq<Cluster> {
    if all == [] then [] else Subs(all[..|all| - 1]) + if all[|all| - 1].permission != 0 then [all[|all| - 1]] else []
  }

  lemma {:induction false} OrphansOfSubs(some: seq<Cluster>, all: seq<Cluster>)
    ensures Orphans(Subs(some), all) == Orphans(some, all)
  {
    if some != [] {
      OrphansOfSubs(some[..|some| - 1], all);
      var s, c := Subs(some[..|some| - 1]), some[|some| - 1];
      assert (s + [c])[..|s|] == s;
      assert s + [] == s;
      assert Orphans(s, all) + [] == Orphans(s, all);
    }
  }

  lemma MasterNext(all: seq<Cluster>, i: nat)
    requires i < |all|
    ensures all[..i + 1][..i] == all[..i] && all[..i + 1][i] == all[i]
    ensures forall id :: IsMaster(all[..i + 1], id) <==> IsMaster(all[..i], id) || (all[i].permission == 0 && all[i].id == id)
  {
    forall id ensures IsMaster(all[..i + 1], id) <==> IsMaster(all[..i], id) || (all[i].permission == 0 && all[i].id == id) {
      assert all[..i + 1][i] == all[i];
      if IsMaster(all[..i], id) {
        var k :| 0 <= k < i && all[..i][k].permission == 0 && all[..i][k].id == id;
        assert all[..i + 1][k] == all[..i][k];
      }
      if IsMaster(all[..i + 1], id) {
        var k :| 0 <= k <= i && all[..i + 1][k].permission == 0 && all[..i + 1][k].id == id;
        assert k < i ==> all[..i][k] == all[..i + 1][k];
      }
    }
  }

  lemma {:induction false} SubsOnly(all: seq<Cluster>, c: Cluster)
    requires c in Subs(all)
    ensures c.permission != 0
  {
    if c in Subs(all[..|all| - 1]) { SubsOnly(all[..|all| - 1], c); }
  }

  /** The first loop: the masters, their ids, and the clusters still to place. */
  method Separate(all: seq<Cluster>) returns (objects: seq<Cluster>, slaves: seq<Cluster>, masters: set<int>)
    ensures objects == Masters(all) && slaves == Subs(all) && forall id :: id in masters <==> IsMaster(all, id)
  {
    objects, slaves, masters := [], [], {};
    for i := 0 to |all|
      invariant objects == Masters(all[..i]) && slaves == Subs(all[..i])
      invariant forall id :: id in masters <==> IsMaster(all[..i], id)
    {
      MasterNext(all, i);
      if all[i].permission == 0 {
        masters := masters + {all[i].id};
        objects := objects + [all[i]];
      } else {
        slaves := slaves + [all[i]];
      }
    }
    assert all[..|all|] == all;
  }

  lemma OrphansNext(some: seq<Cluster>, all: seq<Cluster>, c: Cluster)
    requires c.permission != 0
    ensures Orphans(some + [c], all) == Orphans(some, all) + if IsMaster(all, c.owner) then [] else [c]
  {
    assert (some + [c])[..|some|] == some;
  }

  /** The second loop: a sub-cluster is shown when its owner is no master. */
  method Place(all: seq<Cluster>, slaves: seq<Cluster>, masters: set<int>) returns (found: seq<Cluster>)
    requires forall id :: id in masters <==> IsMaster(all, id)
    requires forall k :: 0 <= k < |slaves| ==> slaves[k].permission != 0
    ensures found == Orphans(slaves, all)
  {
    found := [];
    for i := 0 to |slaves|
      invariant found == Orphans(slaves[..i], all)
    {
      assert slaves[..i + 1] == slaves[..i] + [slaves[i]];
      OrphansNext(slaves[..i], all, slaves[i]);
      if slaves[i].owner in masters { continue; }
      found := found + [slaves[i]];
    }
    assert slaves[..|slaves|] == slaves;
  }

  /** Positions in increasing order. */
  ghost predicate Increasing(at: seq<nat>) {
    forall j, k :: 0 <= j < k < |at| ==> at[j] < at[k]
  }

  ghost predicate MastersAt(all: seq<Cluster>, at: seq<nat>) {
    && Increasing(at) && (forall k :: 0 <= k < |at| ==> at[k] < |all| && all[at[k]].permission == 0)
    && (forall h: nat :: h < |all| && all[h].permission == 0 ==> h in at)
  }

  /** The cluster is a sub-cluster whose owner is not among the masters. */
  predicate Unowned(all: seq<Cluster>, c: Cluster) {
    c.permission != 0 && forall k :: 0 <= k < |all| && all[k].permission == 0 ==> all[k].id != c.owner
  }

  ghost predicate UnownedAt(some: seq<Cluster>, all: seq<Cluster>, at: seq<nat>) {
    && Increasing(at) && (forall k :: 0 <= k < |at| ==> at[k] < |some| && Unowned(all, some[at[k]]))
    && (forall h: nat :: h < |some| && Unowned(all, some[h]) ==> h in at)
  }

  ghost predicate TakenAt(s: seq<Cluster>, at: seq<nat>, r: seq<Cluster>) {
    |r| == |at| && forall k :: 0 <= k < |r| ==> at[k] < |s| && r[k] == s[at[k]]
  }

  /** The list shows the masters, in the order of the query, and then the sub-clusters without a master in it. */
  ghost predicate Shown(all: seq<Cluster>, list: seq<Cluster>) {
    exists masters, others, m: seq<Cluster>, o: seq<Cluster> ::
      MastersAt(all, masters) && UnownedAt(all, all, others) && TakenAt(all, masters, m) && TakenAt(all, others, o) && list == m + o
  }

  lemma MastersMore(all: seq<Cluster>, at: seq<nat>)
    requires all != [] && all[|all| - 1].permission == 0 && MastersAt(all[..|all| - 1], at)
    ensures MastersAt(all, at + [|all| - 1])
  {
    var n := |all| - 1;
    var more := at + [n];
    forall h: nat | h < |all| && all[h].permission == 0 ensures h in more {
      assert h < n ==> all[..n][h] == all[h] && h in at;
      InMore(at, n, h);
    }
  }

  lemma MastersSame(all: seq<Cluster>, at: seq<nat>)
    requires all != [] && all[|all| - 1].permission != 0 && MastersAt(all[..|all| - 1], at)
    ensures MastersAt(all, at)
  {
    forall h: nat | h < |all| && all[h].permission == 0 ensures h in at {
      assert all[..|all| - 1][h] == all[h];
    }
  }

  lemma UnownedMore(some: seq<Cluster>, all: seq<Cluster>, at: seq<nat>)
    requires some != [] && Unowned(all, some[|some| - 1]) && UnownedAt(some[..|some| - 1], all, at)
    ensures UnownedAt(some, all, at + [|some| - 1])
  {
    var n := |some| - 1;
    var more := at + [n];
    forall h: nat | h < |some| && Unowned(all, some[h]) ensures h in more {
      assert h < n ==> some[..n][h] == some[h] && h in at;
      InMore(at, n, h);
    }
  }

  lemma UnownedSame(some: seq<Cluster>, all: seq<Cluster>, at: seq<nat>)
    requires some != [] && !Unowned(all, some[|some| - 1]) && UnownedAt(some[..|some| - 1], all, at)
    ensures UnownedAt(some, all, at)
  {
    forall h: nat | h < |some| && Unowned(all, some[h]) ensures h in at {
      assert some[..|some| - 1][h] == some[h];
    }
  }

  lemma TakenMore(s: seq<Cluster>, at: seq<nat>, r: seq<Cluster>)
    requires s != [] && TakenAt(s[..|s| - 1], at, r)
    ensures TakenAt(s, at, r) && TakenAt(s, at + [|s| - 1], r + [s[|s| - 1]])
  {
    assert forall k :: 0 <= k < |at| ==> s[..|s| - 1][at[k]] == s[at[k]];
  }

  lemma {:induction false} MasterPositions(all: seq<Cluster>) returns (at: seq<nat>)
    ensures MastersAt(all, at) && TakenAt(all, at, Masters(all))
  {
    if all == [] {
      at := [];
    } else {
      var n := |all| - 1;
      at := MasterPositions(all[..n]);
      TakenMore(all, at, Masters(all[..n]));
      if all[n].permission == 0 {
        MastersMore(all, at);
        at := at + [n];
      } else {
        MastersSame(all, at);
        assert Masters(all) == Masters(all[..n]);
      }
    }
  }

  lemma {:induction false} UnownedPositions(some: seq<Cluster>, all: seq<Cluster>) returns (at: seq<nat>)
    ensures UnownedAt(some, all, at) && TakenAt(some, at, Orphans(some, all))
  {
    if some == [] {
      at := [];
    } else {
      var n := |some| - 1;
      at := UnownedPositions(some[..n], all);
      TakenMore(some, at, Orphans(some[..n], all));
      if Unowned(all, some[n]) {
        UnownedMore(some, all, at);
        at := at + [n];
      } else {
        UnownedSame(some, all, at);
        assert Orphans(some, all) == Orphans(some[..n], all);
      }
    }
  }

  lemma VisibleShown(all: seq<Cluster>)
    ensures Shown(all, Visible(all))
  {
    var masters := MasterPositions(all);
    var others := UnownedPositions(all, all);
  }

  /** The list after the database query: every page request is served, none can panic; a page before the first
      is the first, a page holds ten clusters if nothing is said and never more than a hundred. */
  method List(all: seq<Cluster>, req: PageRequest) returns (total: nat, items: seq<Cluster>)
    ensures total == |Visible(all)| && Items(items) == ForPage(Visible(all), Defaults(req))
    ensures var page := if req.page <= 0 then 1 else req.page;
            var limit := if req.limit <= 0 then 10 else if req.limit > 100 then 100 else req.limit;
            exists list :: Shown(all, list) && total == |list| && IsPage(list, page, limit, items)
  {
    var page := Defaults(req);
    var objects, slaves, masters := Separate(all);
    forall k | 0 <= k < |slaves| ensures slaves[k].permission != 0 { SubsOnly(all, slaves[k]); }
    var shown := Place(all, slaves, masters);
    OrphansOfSubs(all, all);
    objects := objects + shown;
    ServedIff(objects, page);
    VisibleShown(all);
    PageExact(Visible(all), page);
    total := |objects|;
    match Slice(objects, Offset(page, |objects|))
    case Items(found) => items := found;
    case Panics => assert false;
  }

  lemma {:induction false} MastersExact(all: seq<Cluster>, c: Cluster)
    ensures c in Masters(all) <==> c in all && c.permission == 0
    ensures multiset(Masters(all))[c] == if c.permission == 0 then multiset(all)[c] else 0
  {
    if all != [] {
      MastersExact(all[..|all| - 1], c);
      assert all == all[..|all| - 1] + [all[|all| - 1]];
    }
  }

  lemma {:induction false} OrphansExact(some: seq<Cluster>, all: seq<Cluster>, c: Cluster)
    ensures multiset(Orphans(some, all))[c] == if c.permission != 0 && !IsMaster(all, c.owner) then multiset(some)[c] else 0
  {
    if some != [] {
      var front, last := some[..|some| - 1], some[|some| - 1];
      OrphansExact(front, all, c);
      assert some == front + [last];
      assert multiset(some)[c] == multiset(front)[c] + if last == c then 1 else 0;
    }
  }

  /** What the cluster list shows: a master always, a sub-cluster exactly when its owner is not shown as a
      master, each as often as the query returned it. */
  lemma VisibleExact(all: seq<Cluster>, c: Cluster)
    ensures multiset(Visible(all))[c] == if c.permission == 0 || !IsMaster(all, c.owner) then multiset(all)[c] else 0
  {
    MastersExact(all, c);
    OrphansExact(all, all, c);
  }

  /** Cluster pages 1 to n as served by `List`. */
  function ClusterPages(all: seq<Cluster>, limit: int, n: nat): seq<Cluster> {
    if n == 0 then []
    else ClusterPages(all, limit, n - 1) + match ForPage(Visible(all), Defaults(PageRequest(n, limit))) case Items(items) => items case Panics => []
  }

  /** Whatever the limit, out-of-range ones included, the cluster pages put together are the list. */
  lemma {:induction false} ClusterPagesConcat(all: seq<Cluster>, limit: int, n: nat)
    ensures ClusterPages(all, limit, n) == Pages(Visible(all), Defaults(PageRequest(n, limit)).limit, n)
    ensures n * Defaults(PageRequest(n, limit)).limit >= |Visible(all)| ==> ClusterPages(all, limit, n) == Visible(all)
  {
    var l := Defaults(PageRequest(n, limit)).limit;
    if n > 0 { ClusterPagesConcat(all, limit, n - 1); }
    if n * l >= |Visible(all)| { AllPages(Visible(all), l, n); }
  }
}
