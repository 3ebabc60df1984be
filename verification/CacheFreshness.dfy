/** When a cache entry is exactly the database's list, told by which actions happened. */
module CacheFreshness {
  import opened Collections
  import opened PlanModel
  import opened TaskCache

  /** Row ids of two lists have nothing in common. */
  ghost predicate Apart(a: seq<Task>, b: seq<Task>) {
    forall i, j :: 0 <= i < |a| && 0 <= j < |b| ==> a[i].id != b[j].id
  }

  /** The first list has the ids of the start of the second. */
  ghost predicate Starts(a: seq<Task>, b: seq<Task>) {
    |a| <= |b| && forall i :: 0 <= i < |a| ==> a[i].id == b[i].id
  }

  /** What the gap of an array says about it and the database's list of its plan. */
  ghost predicate GapOk(db: seq<Task>, rows: seq<Task>, g: Gap) {
    && (!g.reshaped ==> |rows| == |db| && Starts(rows, db) && forall d :: d in g.rows ==> HasId(rows, d))
    && (g.reshaped ==> Apart(rows, db) || (|rows| < |db| && Starts(rows, db)))
    && (forall i, j :: 0 <= i < |rows| && 0 <= j < |db| && rows[i].id == db[j].id ==>
          (rows[i] == db[j] <==> rows[i].id !in g.rows))
  }

  predicate HasId(rows: seq<Task>, d: int) {
    exists i :: 0 <= i < |rows| && rows[i].id == d
  }

  /** An array equals the database's list if and only if it has missed nothing, two empty lists apart. */
  lemma GapExact(db: seq<Task>, rows: seq<Task>, g: Gap)
    requires GapOk(db, rows, g)
    ensures rows == db <==> g == NO_GAP || |rows| == |db| == 0
  {
    if rows == db && rows != [] {
      assert rows[0].id == db[0].id;
      forall d ensures d !in g.rows { NothingMissed(db, g, d); }
    }
  }

  lemma NothingMissed(db: seq<Task>, g: Gap, d: int)
    requires GapOk(db, db, g) && db != []
    ensures d !in g.rows && !g.reshaped
  {
    assert db[0].id == db[0].id;
    if HasId(db, d) {
      var i :| 0 <= i < |db| && db[i].id == d;
      assert db[i].id == db[i].id;
    }
  }

  // ---------------------------------------------------------------- what each write does to a gap

  lemma FreshGap(db: seq<Task>, p: int)
    requires GoodList(db, p)
    ensures GapOk(db, db, NO_GAP)
  {
  }

  lemma CreateGap(db: seq<Task>, rows: seq<Task>, g: Gap, t: Task)
    requires GapOk(db, rows, g) && (forall i :: 0 <= i < |rows| ==> rows[i].id < t.id)
    ensures GapOk(db + [t], rows, g.(reshaped := true))
  {
  }

  lemma DeleteGap(db: seq<Task>, rows: seq<Task>, g: Gap)
    requires GapOk(db, rows, g)
    ensures GapOk([], rows, g.(reshaped := true))
  {
  }

  lemma UpdateGap(db: seq<Task>, rows: seq<Task>, g: Gap, i: nat, t: Task, p: int)
    requires GapOk(db, rows, g) && GoodList(db, p) && i < |db| && t.id == db[i].id
    requires forall k :: 0 <= k < |rows| ==> rows[k].stamp < t.stamp
    ensures GapOk(db[i := t], rows, g.(rows := g.rows + {t.id}))
  {
    var db', g' := db[i := t], g.(rows := g.rows + {t.id});
    assert forall j :: 0 <= j < |db| ==> db'[j].id == db[j].id;
    if !g.reshaped { assert rows[i].id == t.id; }
    forall k, j | 0 <= k < |rows| && 0 <= j < |db'| && rows[k].id == db'[j].id
      ensures rows[k] == db'[j] <==> rows[k].id !in g'.rows
    {
      assert rows[k].id == db[j].id;
      if j != i { assert db[j].id != db[i].id; }
    }
  }

  lemma NotifyGap(db: seq<Task>, rows: seq<Task>, g: Gap, i: nat, p: int)
    requires GapOk(db, rows, g) && GoodList(db, p) && GoodList(rows, p) && i < |db| && HasId(rows, db[i].id)
    ensures GapOk(db, Put(rows, db[i]), g.(rows := g.rows - {db[i].id}))
  {
    var t := db[i];
    var m := IndexOf(rows, t.id);
    var rows', g' := Put(rows, t), g.(rows := g.rows - {t.id});
    assert rows' == rows[m := t] && forall k :: 0 <= k < |rows| ==> rows'[k].id == rows[k].id;
    forall d | d in g'.rows && !g.reshaped ensures HasId(rows', d) {
      var k :| 0 <= k < |rows| && rows[k].id == d;
      assert rows'[k].id == d;
    }
    forall k, j | 0 <= k < |rows'| && 0 <= j < |db| && rows'[k].id == db[j].id
      ensures rows'[k] == db[j] <==> rows'[k].id !in g'.rows
    {
      assert rows[k].id == db[j].id;
      if k == m {
        assert j == i;
      } else {
        assert rows[k].id != rows[m].id;
      }
    }
  }

  // ---------------------------------------------------------------- every array of every behavior

  /** Array k: its gap is right, and its ids and stamps were handed out earlier. */
  ghost predicate ArrayOk(s: State, k: nat) {
    && k < |s.arrays| == |s.gaps|
    && GoodList(s.arrays[k].rows, s.arrays[k].plan) && Before(s.arrays[k].rows, s.nextId, s.stamp)
    && GapOk(List(s, s.arrays[k].plan), s.arrays[k].rows, s.gaps[k])
  }

  ghost predicate PlanOk(s: State, p: int) {
    && GoodList(List(s, p), p) && Before(List(s, p), s.nextId, s.stamp)
    && (p in s.worker ==> s.worker[p].i < |List(s, p)|)
    && (p in s.worker && s.worker[p].Holds? ==> s.worker[p].task == List(s, p)[s.worker[p].i])
    && (p in s.items ==> s.items[p].arr < |s.arrays| && s.arrays[s.items[p].arr].plan == p)
  }

  ghost predicate Sound(s: State) {
    && |s.gaps| == |s.arrays|
    && (forall p :: PlanOk(s, p))
    && (forall k :: 0 <= k < |s.arrays| ==> ArrayOk(s, k))
    && (forall w :: w in s.loads ==> s.loads[w] < |s.arrays|)
  }

  lemma StepPlan(s: State, a: Action, s': State, p: int)
    requires Next(s, a, s') && PlanOk(s, p) && (forall w :: w in s.loads ==> s.loads[w] < |s.arrays|)
    ensures PlanOk(s', p)
  {
    if a.Create? || a.DeleteRows? || a.Update? {
      WritePlan(s, a, s', p);
    } else {
      ReadPlan(s, a, s', p);
    }
  }

  lemma WritePlan(s: State, a: Action, s': State, p: int)
    requires Next(s, a, s') && PlanOk(s, p) && (a.Create? || a.DeleteRows? || a.Update?)
    ensures PlanOk(s', p)
  {
    assert s'.items == s.items && |s'.arrays| == |s.arrays|;
    if a.plan != p { assert List(s', p) == List(s, p); }
  }

  lemma ReadPlan(s: State, a: Action, s': State, p: int)
    requires Next(s, a, s') && PlanOk(s, p) && (forall w :: w in s.loads ==> s.loads[w] < |s.arrays|)
    requires !(a.Create? || a.DeleteRows? || a.Update?)
    ensures PlanOk(s', p)
  {
    assert s'.db == s.db && List(s', p) == List(s, p);
    if a.Install? || a.PassPlan? {
      EntryPlan(s, a, s', p);
    } else {
      assert p in s'.items ==> p in s.items && s'.items[p].arr == s.items[p].arr;
    }
  }

  lemma EntryPlan(s: State, a: Action, s': State, p: int)
    requires Next(s, a, s') && PlanOk(s, p) && (forall w :: w in s.loads ==> s.loads[w] < |s.arrays|)
    requires a.Install? || a.PassPlan?
    ensures PlanOk(s', p)
  {
    assert List(s', p) == List(s, p) && s'.worker == s.worker;
  }

  /** Rows are only written to the database: arrays stay as they are, gaps grow. */
  lemma WriteStep(s: State, a: Action, s': State, k: nat)
    requires Next(s, a, s') && ArrayOk(s, k) && (a.Create? || a.DeleteRows? || a.Update?) && PlanOk(s, a.plan)
    ensures ArrayOk(s', k)
  {
    var arr, p := s.arrays[k], a.plan;
    if arr.plan == p {
      match a
      case Create(_, t) => CreateGap(List(s, p), arr.rows, s.gaps[k], t);
      case DeleteRows(_) => DeleteGap(List(s, p), arr.rows, s.gaps[k]);
      case Update(_, i, t) => UpdateGap(List(s, p), arr.rows, s.gaps[k], i, t, p);
    } else {
      assert List(s', arr.plan) == List(s, arr.plan);
    }
  }

  lemma PutGood(rows: seq<Task>, t: Task, p: int, nextId: int, stamp: int)
    requires GoodList(rows, p) && Before(rows, nextId, stamp) && t.plan == p && t.id < nextId && t.stamp < stamp
    ensures GoodList(Put(rows, t), p) && Before(Put(rows, t), nextId, stamp)
  {
    assert forall k :: 0 <= k < |rows| ==> Put(rows, t)[k].id == rows[k].id;
  }

  /** An announcement reaches the array of the entry, if it has the row, and no other. */
  lemma NotifyArray(s: State, p: int, s': State, k: nat)
    requires Next(s, Notify(p), s') && |s.gaps| == |s.arrays| && k < |s.arrays|
    ensures s'.db == s.db && s'.nextId == s.nextId && s'.stamp == s.stamp && |s'.arrays| == |s'.gaps| == |s.arrays|
    ensures (s'.arrays[k] == s.arrays[k] && s'.gaps[k] == s.gaps[k]) ||
            (p in s.worker && s.worker[p].Holds? && p in s.items && s.items[p].arr == k && AnnouncedInto(s, s', k, s.worker[p].task))
  {
  }

  ghost predicate AnnouncedInto(s: State, s': State, k: nat, t: Task)
    requires k < |s.arrays| == |s'.arrays| == |s.gaps| == |s'.gaps|
  {
    && IndexOf(s.arrays[k].rows, t.id) < |s.arrays[k].rows|
    && s'.arrays[k] == Arr(s.arrays[k].plan, Put(s.arrays[k].rows, t))
    && s'.gaps[k] == s.gaps[k].(rows := s.gaps[k].rows - {t.id})
  }

  lemma NotifyStep(s: State, p: int, s': State, k: nat)
    requires Next(s, Notify(p), s') && PlanOk(s, p) && ArrayOk(s, k)
    ensures ArrayOk(s', k)
  {
    NotifyArray(s, p, s', k);
    if s'.arrays[k] != s.arrays[k] || s'.gaps[k] != s.gaps[k] {
      AnnounceOk(List(s, p), s.arrays[k].rows, s.gaps[k], s.worker[p].i, p, s.nextId, s.stamp);
    }
  }

  lemma AnnounceOk(db: seq<Task>, rows: seq<Task>, g: Gap, i: nat, p: int, nextId: int, stamp: int)
    requires GoodList(db, p) && Before(db, nextId, stamp) && GoodList(rows, p) && Before(rows, nextId, stamp)
    requires GapOk(db, rows, g) && i < |db| && IndexOf(rows, db[i].id) < |rows|
    ensures GoodList(Put(rows, db[i]), p) && Before(Put(rows, db[i]), nextId, stamp)
    ensures GapOk(db, Put(rows, db[i]), g.(rows := g.rows - {db[i].id}))
  {
    assert rows[IndexOf(rows, db[i].id)].id == db[i].id;
    NotifyGap(db, rows, g, i, p);
    PutGood(rows, db[i], p, nextId, stamp);
  }

  /** Every other step leaves the database, and the arrays there are, alone. */
  lemma OtherStep(s: State, a: Action, s': State, k: nat)
    requires Next(s, a, s') && |s.gaps| == |s.arrays| && k < |s'.arrays|
    requires !(a.Create? || a.DeleteRows? || a.Update? || a.Notify?)
    requires k < |s.arrays| ==> ArrayOk(s, k)
    requires PlanOk(s, s'.arrays[k].plan)
    ensures ArrayOk(s', k)
  {
    if k >= |s.arrays| {
      FreshGap(List(s, s'.arrays[k].plan), s'.arrays[k].plan);
    }
  }

  lemma StepSound(s: State, a: Action, s': State)
    requires Next(s, a, s') && Sound(s)
    ensures Sound(s')
  {
    forall p ensures PlanOk(s', p) {
      assert PlanOk(s, p);
      StepPlan(s, a, s', p);
    }
    StepLoads(s, a, s');
    forall k | 0 <= k < |s'.arrays| ensures ArrayOk(s', k) {
      assert k < |s.arrays| ==> ArrayOk(s, k);
      assert PlanOk(s, s'.arrays[k].plan);
      if a.Create? || a.DeleteRows? || a.Update? {
        assert PlanOk(s, a.plan);
        WriteStep(s, a, s', k);
      } else if a.Notify? {
        assert PlanOk(s, a.plan);
        NotifyStep(s, a.plan, s', k);
      } else {
        OtherStep(s, a, s', k);
      }
    }
  }

  lemma StepLoads(s: State, a: Action, s': State)
    requires Next(s, a, s') && |s.gaps| == |s.arrays| && forall w :: w in s.loads ==> s.loads[w] < |s.arrays|
    ensures |s'.gaps| == |s'.arrays| >= |s.arrays| && forall w :: w in s'.loads ==> s'.loads[w] < |s'.arrays|
    ensures !(a.Create? || a.DeleteRows? || a.Update?) ==> s'.db == s.db
    ensures a.Create? || a.DeleteRows? || a.Update? || a.Notify? ==> |s'.arrays| == |s.arrays|
  {
  }

  lemma AlwaysSound(ss: seq<State>, acts: seq<Action>, n: nat)
    requires Behavior(ss, acts) && n < |ss|
    ensures Sound(ss[n])
  {
    assert Sound(ss[0]) by {
      forall p ensures PlanOk(ss[0], p) {}
    }
    var j := 0;
    while j < n
      invariant j <= n && Sound(ss[j])
    {
      StepSound(ss[j], acts[j], ss[j + 1]);
      j := j + 1;
    }
  }

  /** An entry is exactly the database's list if and only if its array has missed nothing: no row was created
      or deleted since the array was read, and every row written since was announced into it; or both lists
      are empty, whatever happened. */
  lemma UpToDateIff(ss: seq<State>, acts: seq<Action>, n: nat, p: int)
    requires Behavior(ss, acts) && n < |ss| && p in ss[n].items
    ensures Cached(ss[n], p) == List(ss[n], p) <==>
            GapOf(ss[n], ss[n].items[p].arr) == NO_GAP || |Cached(ss[n], p)| == |List(ss[n], p)| == 0
  {
    AlwaysSound(ss, acts, n);
    assert PlanOk(ss[n], p) && ArrayOk(ss[n], ss[n].items[p].arr);
    GapExact(List(ss[n], p), Cached(ss[n], p), ss[n].gaps[ss[n].items[p].arr]);
  }

  /** The same for the array a watcher holds, whether or not it is still the entry's: it is what the watcher
      is served. */
  lemma WatchedIff(ss: seq<State>, acts: seq<Action>, n: nat, w: int)
    requires Behavior(ss, acts) && n < |ss| && w in ss[n].watching
    ensures var rows, db := Watched(ss[n], w).rows, List(ss[n], Watched(ss[n], w).plan);
            rows == db <==> GapOf(ss[n], ss[n].watching[w]) == NO_GAP || |rows| == |db| == 0
  {
    AlwaysReal(ss, acts, n);
    AlwaysSound(ss, acts, n);
    var k := ss[n].watching[w];
    assert ArrayOk(ss[n], k);
    GapExact(List(ss[n], ss[n].arrays[k].plan), ss[n].arrays[k].rows, ss[n].gaps[k]);
  }

  // ---------------------------------------------------------------- gaps in terms of actions

  /** Action m writes row d of the plan whose array k already exists. */
  ghost predicate Written(ss: seq<State>, acts: seq<Action>, m: nat, k: nat, d: int) {
    && m < |acts| && m < |ss| && acts[m].Update? && acts[m].task.id == d
    && k < |ss[m].arrays| && ss[m].arrays[k].plan == acts[m].plan
  }

  /** Action m announces row d while array k is the plan's entry and has the row. */
  ghost predicate Announced(ss: seq<State>, acts: seq<Action>, m: nat, k: nat, d: int) {
    && m < |acts| && m < |ss| && acts[m].Notify? && k < |ss[m].arrays| && HasId(ss[m].arrays[k].rows, d)
    && var s, p := ss[m], acts[m].plan;
       p in s.worker && s.worker[p].Holds? && s.worker[p].task.id == d && p in s.items && s.items[p].arr == k
  }

  ghost predicate Unannounced(ss: seq<State>, acts: seq<Action>, m: nat, n: nat, k: nat, d: int) {
    Written(ss, acts, m, k, d) && forall j :: m < j < n ==> !Announced(ss, acts, j, k, d)
  }

  /** Some write of row d, up to n, never reached array k. */
  ghost predicate LeftOut(ss: seq<State>, acts: seq<Action>, n: nat, k: nat, d: int) {
    exists m :: 0 <= m < n && Unannounced(ss, acts, m, n, k, d)
  }

  lemma StepGapRow(ss: seq<State>, acts: seq<Action>, n: nat, k: nat, d: int)
    requires n < |acts| && n + 1 < |ss| && Next(ss[n], acts[n], ss[n + 1]) && Sound(ss[n]) && k < |ss[n].arrays|
    ensures k < |ss[n + 1].arrays|
    ensures d in GapOf(ss[n + 1], k).rows <==>
            Written(ss, acts, n, k, d) || (d in GapOf(ss[n], k).rows && !Announced(ss, acts, n, k, d))
  {
    var s, a := ss[n], acts[n];
    StepLoads(s, a, ss[n + 1]);
    if a.Notify? {
      assert PlanOk(s, a.plan);
      if a.plan in s.items {
        var rows, id := s.arrays[s.items[a.plan].arr].rows, s.worker[a.plan].task.id;
        var i := IndexOf(rows, id);
        assert i < |rows| ==> HasId(rows, id);
      }
    }
  }

  ghost predicate GapRowAt(ss: seq<State>, acts: seq<Action>, n: nat, k: nat, d: int)
    requires n < |ss|
  {
    k < |ss[n].arrays| ==> (d in GapOf(ss[n], k).rows <==> LeftOut(ss, acts, n, k, d))
  }

  lemma GapRowStep(ss: seq<State>, acts: seq<Action>, n: nat, n': nat, k: nat, d: int)
    requires Behavior(ss, acts) && n' == n + 1 < |ss| && Sound(ss[n]) && GapRowAt(ss, acts, n, k, d)
    ensures GapRowAt(ss, acts, n', k, d)
  {
    if k < |ss[n].arrays| {
      StepGapRow(ss, acts, n, k, d);
      GapRowNext(ss, acts, n, n', k, d);
    } else if k < |ss[n'].arrays| {
      NewArray(ss[n], acts[n], ss[n'], k);
      NothingLeftOut(ss, acts, n', k, d);
    }
  }

  /** A row id is in an array's gap if and only if a write of the row came after the array was read and was not
      announced into it since. */
  lemma GapRowIff(ss: seq<State>, acts: seq<Action>, n: nat, k: nat, d: int)
    requires Behavior(ss, acts) && n < |ss| && k < |ss[n].arrays|
    ensures d in GapOf(ss[n], k).rows <==> LeftOut(ss, acts, n, k, d)
  {
    var j := 0;
    while j < n
      invariant j <= n && GapRowAt(ss, acts, j, k, d)
    {
      AlwaysSound(ss, acts, j);
      GapRowStep(ss, acts, j, j + 1, k, d);
      j := j + 1;
    }
  }

  lemma NothingLeftOut(ss: seq<State>, acts: seq<Action>, n: nat, k: nat, d: int)
    requires Behavior(ss, acts) && 0 < n < |ss| && k >= |ss[n - 1].arrays|
    ensures !LeftOut(ss, acts, n, k, d)
  {
    forall m | 0 <= m < n ensures !Written(ss, acts, m, k, d) {
      if k < |ss[m].arrays| { ShapeKept(ss, acts, m, n - 1, k); }
    }
  }

  lemma NewArray(s: State, a: Action, s': State, k: nat)
    requires Next(s, a, s') && |s.gaps| == |s.arrays| <= k < |s'.arrays|
    ensures GapOf(s', k) == NO_GAP
  {
  }

  lemma GapRowNext(ss: seq<State>, acts: seq<Action>, n: nat, n': nat, k: nat, d: int)
    requires n' == n + 1
    ensures LeftOut(ss, acts, n', k, d) <==>
            Written(ss, acts, n, k, d) || (LeftOut(ss, acts, n, k, d) && !Announced(ss, acts, n, k, d))
  {
    if LeftOut(ss, acts, n', k, d) {
      var m :| 0 <= m < n' && Unannounced(ss, acts, m, n', k, d);
      if m < n {
        assert Unannounced(ss, acts, m, n, k, d) && !Announced(ss, acts, n, k, d);
      }
    }
    if Written(ss, acts, n, k, d) {
      assert Unannounced(ss, acts, n, n', k, d);
    } else if LeftOut(ss, acts, n, k, d) && !Announced(ss, acts, n, k, d) {
      var m :| 0 <= m < n && Unannounced(ss, acts, m, n, k, d);
      assert Unannounced(ss, acts, m, n', k, d);
    }
  }

  /** Action m creates or deletes rows of the plan whose array k already exists. */
  ghost predicate Reshapes(ss: seq<State>, acts: seq<Action>, m: nat, k: nat) {
    && m < |acts| && m < |ss| && (acts[m].Create? || acts[m].DeleteRows?)
    && k < |ss[m].arrays| && ss[m].arrays[k].plan == acts[m].plan
  }

  lemma StepReshaped(ss: seq<State>, acts: seq<Action>, n: nat, k: nat)
    requires n < |acts| && n + 1 < |ss| && Next(ss[n], acts[n], ss[n + 1]) && |ss[n].gaps| == |ss[n].arrays| && k < |ss[n].arrays|
    ensures k < |ss[n + 1].arrays| && (GapOf(ss[n + 1], k).reshaped <==> GapOf(ss[n], k).reshaped || Reshapes(ss, acts, n, k))
  {
  }

  lemma {:induction false} ReshapedIff(ss: seq<State>, acts: seq<Action>, n: nat, k: nat)
    requires Behavior(ss, acts) && n < |ss| && k < |ss[n].arrays|
    ensures GapOf(ss[n], k).reshaped <==> exists m :: 0 <= m < n && Reshapes(ss, acts, m, k)
  {
    if n > 0 {
      AlwaysSound(ss, acts, n - 1);
      if k < |ss[n - 1].arrays| {
        ReshapedIff(ss, acts, n - 1, k);
        StepReshaped(ss, acts, n - 1, k);
      } else {
        NewArray(ss[n - 1], acts[n - 1], ss[n], k);
        forall m | 0 <= m < n ensures !Reshapes(ss, acts, m, k) {
          if k < |ss[m].arrays| { ShapeKept(ss, acts, m, n - 1, k); }
        }
      }
    }
  }

  /** The exact condition in terms of actions alone: no row of the plan created or deleted since the entry's
      array was read, and no row written since that was not announced into it (or both lists are empty). */
  lemma UpToDateByActions(ss: seq<State>, acts: seq<Action>, n: nat, p: int)
    requires Behavior(ss, acts) && n < |ss| && p in ss[n].items
    ensures var k := ss[n].items[p].arr;
            Cached(ss[n], p) == List(ss[n], p) <==>
            || ((forall m :: 0 <= m < n ==> !Reshapes(ss, acts, m, k)) && (forall d :: !LeftOut(ss, acts, n, k, d)))
            || |Cached(ss[n], p)| == |List(ss[n], p)| == 0
  {
    AlwaysSound(ss, acts, n);
    assert PlanOk(ss[n], p);
    var k := ss[n].items[p].arr;
    UpToDateIff(ss, acts, n, p);
    ReshapedIff(ss, acts, n, k);
    forall d ensures d in GapOf(ss[n], k).rows <==> LeftOut(ss, acts, n, k, d) { GapRowIff(ss, acts, n, k, d); }
    if forall d :: d !in GapOf(ss[n], k).rows { assert GapOf(ss[n], k).rows == {}; }
  }

  /** The read and the `Set` of `WaitForCacheSync` are apart: a write announced in between is lost to the
      cache, so rows served can go back to an older version until the next pass. */
  lemma StaleAfterInstall() returns (ss: seq<State>, acts: seq<Action>)
    ensures Behavior(ss, acts) && |acts| == 5
    ensures ss[5].worker == map[] && 1 in ss[5].items && Cached(ss[5], 1) != List(ss[5], 1)
  {
    var t := Task(1, 1, "a", TaskRow(UnStart, UnStartedStep, ""), 0);
    var t' := Task(1, 1, "a", TaskRow(Running, UnStartedStep, ""), 1);
    var s0 := State(map[1 := [t]], [], [], map[], map[], map[], map[], None, 0, 2, 1);
    var s1 := s0.(arrays := s0.arrays + [Arr(1, List(s0, 1))], gaps := s0.gaps + [NO_GAP], loads := s0.loads[0 := |s0.arrays|]);
    var s2 := s1.(db := s1.db[1 := s1.db[1][0 := t']], gaps := Missing(s1, 1, 1), worker := s1.worker[1 := Wrote(0)], stamp := s1.stamp + 1);
    var s3 := s2.(worker := s2.worker[1 := Holds(0, List(s2, 1)[0])]);
    var s4 := Notified(s3, 1, s3.worker[1].task);
    assert s4.worker == map[];
    var s5 := s4.(loads := s4.loads - {0}, items := s4.items[1 := Entry(0, s4.now)]);
    ss, acts := [s0, s1, s2, s3, s4, s5], [Load(0, 1), Update(1, 0, t'), ReadBack(1), Notify(1), Install(0)];
    assert s5.arrays[0].rows == [t] && List(s5, 1) == [t'];
  }
}
