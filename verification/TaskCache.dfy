/** The task cache: the rows watchers are served, kept in arrays that several readers share. */
module TaskCache {
  import opened Collections
  import opened PlanModel

  /** A version of a task row. `stamp` stands for its time columns: every write sets one to the present time,
      so no two writes leave the same version. */
  datatype Task = Task(id: int, plan: int, name: string, row: TaskRow, stamp: int)

  /** The first index with the id, or the length. */
  function IndexOf(rows: seq<Task>, id: int): (i: nat)
    ensures i <= |rows| && (i < |rows| ==> rows[i].id == id) && forall k :: 0 <= k < i ==> rows[k].id != id
  {
    if rows == [] || rows[0].id == id then 0 else 1 + IndexOf(rows[1..], id)
  }

  /** The rows after `SetByTask`. */
  function Put(rows: seq<Task>, t: Task): seq<Task> {
    var i := IndexOf(rows, t.id);
    if i < |rows| then rows[i := t] else rows
  }

  /** The first row with the id of t has become t, if there is one; nothing else has changed. */
  ghost predicate Overwritten(rows: seq<Task>, rows': seq<Task>, t: Task) {
    && |rows'| == |rows|
    && forall k :: 0 <= k < |rows| ==>
         rows'[k] == if rows[k].id == t.id && (forall j :: 0 <= j < k ==> rows[j].id != t.id) then t else rows[k]
  }

  function Ids(rows: seq<Task>): seq<int> {
    seq(|rows|, i requires 0 <= i < |rows| => rows[i].id)
  }

  lemma PutOverwrites(rows: seq<Task>, t: Task)
    ensures Overwritten(rows, Put(rows, t), t) && Ids(Put(rows, t)) == Ids(rows)
    ensures t.id in Ids(rows) <==> IndexOf(rows, t.id) < |rows|
  {
    var i := IndexOf(rows, t.id);
    if i < |rows| {
      assert Ids(rows)[i] == t.id;
      assert Ids(Put(rows, t)) == Ids(rows);
    }
  }

  /** Idle time in milliseconds after which an entry is dropped. */
  const IDLE := 5000

  // ---------------------------------------------------------------- the code

  datatype Wrap = Wrap(tasks: array<Task>, latest: int)

  class Cache {
    var items: map<int, Wrap>

    constructor ()
      ensures items == map[]
    {
      items := map[];
    }

    method Get(p: int, now: int) returns (r: Option<array<Task>>)
      modifies this
      ensures r == if p in old(items) then Some(old(items)[p].tasks) else None
      ensures items == if p in old(items) then old(items)[p := Wrap(old(items)[p].tasks, now)] else old(items)
    {
      if p !in items { return None; }
      items := items[p := items[p].(latest := now)];
      r := Some(items[p].tasks);
    }

    method Set(p: int, tasks: array<Task>, now: int)
      modifies this
      ensures items == old(items)[p := Wrap(tasks, now)]
    {
      items := items[p := Wrap(tasks, now)];
    }

    /** Overwrites one element of the array in place: everyone who holds the array sees it. */
    method SetByTask(p: int, task: Task, now: int)
      modifies this, if p in items then {items[p].tasks} else {}
      ensures items.Keys == old(items.Keys) && forall q :: q in items ==> items[q].tasks == old(items)[q].tasks
      ensures forall q :: q in items && q != p ==> items[q] == old(items)[q]
      ensures p in items ==> items[p].tasks[..] == Put(old(items[p].tasks[..]), task)
      ensures p in items ==> Overwritten(old(items[p].tasks[..]), items[p].tasks[..], task)
      ensures p in items ==> Ids(items[p].tasks[..]) == Ids(old(items[p].tasks[..]))
      ensures p in items ==> items[p].latest == if task.id in Ids(old(items[p].tasks[..])) then now else old(items)[p].latest
    {
      if p !in items { return; }
      var a := items[p].tasks;
      ghost var rows := a[..];
      PutOverwrites(rows, task);
      var i := Position(a, task.id);
      if i == a.Length { return; }
      a[i] := task;
      items := items[p := items[p].(latest := now)];
      assert a[..] == rows[i := task];
    }

    /** The loop of `SetByTask`. */
    static method Position(a: array<Task>, id: int) returns (i: nat)
      ensures i == IndexOf(a[..], id)
    {
      i := 0;
      while i < a.Length && a[i].id != id
        invariant 0 <= i <= a.Length && IndexOf(a[..], id) == i + IndexOf(a[i..], id)
      {
        assert a[i..][1..] == a[i + 1..];
        i := i + 1;
      }
    }

    method Delete(p: int)
      modifies this
      ensures items == old(items) - {p}
    {
      items := items - {p};
    }

    /** `WaitForCacheSync`; `listed` is what the database answers between the two cache calls. */
    method WaitForCacheSync(p: int, listed: Option<seq<Task>>, before: int, after: int) returns (err: bool)
      modifies this
      ensures err == (p !in old(items) && listed.None?)
      ensures !err ==> p in items && if p in old(items) then items[p] == Wrap(old(items)[p].tasks, before)
                                     else fresh(items[p].tasks) && items[p].tasks[..] == listed.value && items[p].latest == after
      ensures forall q :: q != p ==> (q in items <==> q in old(items)) && (q in items ==> items[q] == old(items)[q])
    {
      var r := Get(p, before);
      if r.Some? { return false; }
      if listed.None? { return true; }
      var rows := listed.value;
      var tasks := new Task[|rows|](i requires 0 <= i < |rows| => rows[i]);
      Set(p, tasks, after);
      err := false;
    }

    /** The entry holds, in an array made since, the answer of the database at time t. */
    twostate predicate Answered(p: int, t: int, listed: Option<seq<Task>>)
      reads this, if p in items then {items[p].tasks} else {}
    {
      p in items && listed.Some? && fresh(items[p].tasks) && items[p].tasks[..] == listed.value && items[p].latest == t
    }

    /** The pass's treatment of one plan. */
    method SyncPlan(p: int, t: int, listed: Option<seq<Task>>)
      requires p in items
      modifies this
      ensures forall q :: q != p ==> (q in items <==> q in old(items)) && (q in items ==> items[q] == old(items)[q])
      ensures if t - old(items)[p].latest <= 5000 && listed.Some? then Answered(p, t, listed) else p !in items
    {
      if t - items[p].latest > IDLE || listed.None? {
        items := items - {p};
        return;
      }
      var rows := listed.value;
      var tasks := new Task[|rows|](i requires 0 <= i < |rows| => rows[i]);
      items := items[p := Wrap(tasks, t)];
    }

    /** `syncTasks`, handling each plan at its own time and with its own answer from the database. An entry
        survives exactly when it was used within the last five seconds and the database answered; it then
        holds exactly what the database said, in a new array. */
    method SyncTasks(times: map<int, int>, listed: map<int, Option<seq<Task>>>)
      requires items.Keys <= times.Keys && items.Keys <= listed.Keys
      modifies this
      ensures forall p :: p in items ==> p in old(items)
      ensures forall p :: p in old(items) ==>
                if times[p] - old(items)[p].latest <= 5000 && listed[p].Some? then Answered(p, times[p], listed[p]) else p !in items
    {
      var left := items.Keys;
      while left != {}
        invariant forall p :: p in items ==> p in old(items)
        invariant forall p :: p in left ==> p in items && p in old(items) && items[p] == old(items)[p]
        invariant forall p :: p in old(items) && p !in left ==>
                    if times[p] - old(items)[p].latest <= 5000 && listed[p].Some? then Answered(p, times[p], listed[p]) else p !in items
        decreases |left|
      {
        var p := Pick(left);
        SyncPlan(p, times[p], listed[p]);
        left := left - {p};
      }
    }
  }

  // ---------------------------------------------------------------- interleavings

  /** An allocated array; cache entries and watchers refer to it by its number. */
  datatype Arr = Arr(plan: int, rows: seq<Task>)
  datatype Entry = Entry(arr: nat, latest: int)

  /** A worker between its row write and its cache call: it has not read the row back yet, or holds it. */
  datatype Notice = Wrote(i: nat) | Holds(i: nat, task: Task)

  /** What the database has been through since an array was read from it, as far as the array does not know:
      whether rows were created or deleted, and the ids of the rows written. */
  datatype Gap = Gap(reshaped: bool, rows: set<int>)

  const NO_GAP := Gap(false, {})

  /** `pass` holds the plans a running cache pass still has to look at; the pass holds the lock. `gaps` belongs
      to `arrays`; it is kept up by which actions happen and never looks at a row. */
  datatype State = State(
    db: map<int, seq<Task>>, arrays: seq<Arr>, gaps: seq<Gap>, items: map<int, Entry>, worker: map<int, Notice>,
    loads: map<int, nat>, watching: map<int, nat>, pass: Option<set<int>>, now: int, nextId: int, stamp: int)

  datatype Action =
    | Tick(now: int)
    | Create(plan: int, task: Task)         // a row insert, with the next id
    | DeleteRows(plan: int)                 // all rows of the plan
    | Update(plan: int, i: nat, task: Task) // a row write, by a worker or by recovery
    | ReadBack(plan: int)
    | GiveUp(plan: int)                     // the read-back failed or the writer is recovery: the cache is not told
    | Notify(plan: int)                     // `SetByTask`
    | Load(watcher: int, plan: int)         // the database read of `WaitForCacheSync`
    | Install(watcher: int)                 // its `Set`
    | Fetch(watcher: int, plan: int)        // `Get`
    | Serve(watcher: int, i: nat, task: Task)
    | Evict(plan: int)                      // `Delete`
    | PassStart
    | PassPlan(plan: int, ok: bool)
    | PassEnd

  ghost predicate GoodList(list: seq<Task>, p: int) {
    && (forall i :: 0 <= i < |list| ==> list[i].plan == p)
    && (forall i, j :: 0 <= i < j < |list| ==> list[i].id != list[j].id)
  }

  /** Ids and stamps handed out so far. */
  ghost predicate Before(list: seq<Task>, nextId: int, stamp: int) {
    forall i :: 0 <= i < |list| ==> list[i].id < nextId && list[i].stamp < stamp
  }

  function List(s: State, p: int): seq<Task> {
    if p in s.db then s.db[p] else []
  }

  /** The rows of the plan's entry. */
  function Cached(s: State, p: int): seq<Task> {
    if p in s.items && s.items[p].arr < |s.arrays| then s.arrays[s.items[p].arr].rows else []
  }

  /** The array a watcher was given. */
  function Watched(s: State, w: int): Arr {
    if w in s.watching && s.watching[w] < |s.arrays| then s.arrays[s.watching[w]] else Arr(0, [])
  }

  function GapOf(s: State, k: nat): Gap {
    if k < |s.gaps| then s.gaps[k] else NO_GAP
  }

  /** Every array of the plan misses the write of row `id`. */
  function Missing(s: State, p: int, id: int): seq<Gap> {
    seq(|s.arrays|, k requires 0 <= k < |s.arrays| =>
      if s.arrays[k].plan == p then GapOf(s, k).(rows := GapOf(s, k).rows + {id}) else GapOf(s, k))
  }

  /** Every array of the plan misses a creation or deletion. */
  function Reshaped(s: State, p: int): seq<Gap> {
    seq(|s.arrays|, k requires 0 <= k < |s.arrays| =>
      if s.arrays[k].plan == p then GapOf(s, k).(reshaped := true) else GapOf(s, k))
  }

  ghost predicate Next(s: State, a: Action, s': State) {
    match a
    case Tick(now) => now >= s.now && s' == s.(now := now)
    case Create(p, t) =>
      && p !in s.worker && t.plan == p && t.id == s.nextId && t.stamp == s.stamp
      && s' == s.(db := s.db[p := List(s, p) + [t]], gaps := Reshaped(s, p), nextId := s.nextId + 1, stamp := s.stamp + 1)
    case DeleteRows(p) =>
      p !in s.worker && s' == s.(db := s.db[p := []], gaps := Reshaped(s, p))
    case Update(p, i, t) =>
      && p in s.db && p !in s.worker && i < |s.db[p]| && t.id == s.db[p][i].id && t.plan == p && t.stamp == s.stamp
      && s' == s.(db := s.db[p := s.db[p][i := t]], gaps := Missing(s, p, t.id),
                  worker := s.worker[p := Wrote(i)], stamp := s.stamp + 1)
    case ReadBack(p) =>
      && p in s.worker && s.worker[p].Wrote? && s.worker[p].i < |List(s, p)|
      && s' == s.(worker := s.worker[p := Holds(s.worker[p].i, List(s, p)[s.worker[p].i])])
    case GiveUp(p) =>
      p in s.worker && s.worker[p].Wrote? && s' == s.(worker := s.worker - {p})
    case Notify(p) =>
      p in s.worker && s.worker[p].Holds? && s.pass.None? && s' == Notified(s, p, s.worker[p].task)
    case Load(w, p) =>
      && w !in s.loads
      && s' == s.(arrays := s.arrays + [Arr(p, List(s, p))], gaps := s.gaps + [NO_GAP], loads := s.loads[w := |s.arrays|])
    case Install(w) =>
      && w in s.loads && s.pass.None? && s.loads[w] < |s.arrays|
      && var a := s.loads[w];
         var p := s.arrays[a].plan;
         s' == s.(loads := s.loads - {w}, items := s.items[p := Entry(a, s.now)])
    case Fetch(w, p) =>
      && p in s.items && s.pass.None?
      && s' == s.(watching := s.watching[w := s.items[p].arr], items := s.items[p := s.items[p].(latest := s.now)])
    case Serve(w, i, t) =>
      w in s.watching && i < |Watched(s, w).rows| && t == Watched(s, w).rows[i] && s' == s
    case Evict(p) => s.pass.None? && s' == s.(items := s.items - {p})
    case PassStart => s.pass.None? && s.items != map[] && s' == s.(pass := Some(s.items.Keys))
    case PassPlan(p, ok) =>
      && s.pass.Some? && p in s.pass.value && p in s.items
      && (if s.now - s.items[p].latest > IDLE || !ok then
            s' == s.(items := s.items - {p}, pass := Some(s.pass.value - {p}))
          else
            s' == s.(arrays := s.arrays + [Arr(p, List(s, p))], gaps := s.gaps + [NO_GAP],
                     items := s.items[p := Entry(|s.arrays|, s.now)], pass := Some(s.pass.value - {p})))
    case PassEnd => s.pass == Some({}) && s' == s.(pass := None)
  }

  function Notified(s: State, p: int, t: Task): State {
    if p !in s.items || s.items[p].arr >= |s.arrays| then s.(worker := s.worker - {p})
    else
      var a := s.items[p].arr;
      var rows := s.arrays[a].rows;
      if IndexOf(rows, t.id) == |rows| then s.(worker := s.worker - {p})
      else s.(worker := s.worker - {p}, arrays := s.arrays[a := Arr(s.arrays[a].plan, Put(rows, t))],
              gaps := if a < |s.gaps| then s.gaps[a := s.gaps[a].(rows := s.gaps[a].rows - {t.id})] else s.gaps,
              items := s.items[p := Entry(a, s.now)])
  }

  ghost predicate Init(s: State) {
    && (forall p :: p in s.db ==> GoodList(s.db[p], p) && Before(s.db[p], s.nextId, s.stamp))
    && s.arrays == [] && s.gaps == [] && s.items == map[] && s.worker == map[] && s.loads == map[] && s.watching == map[]
    && s.pass == None
  }

  ghost predicate Behavior(ss: seq<State>, acts: seq<Action>) {
    && |ss| == |acts| + 1 && Init(ss[0])
    && forall k :: 0 <= k < |acts| ==> Next(ss[k], acts[k], ss[k + 1])
  }

  // ---------------------------------------------------------------- served rows are real

  /** Some state up to n had this very row in the database. */
  ghost predicate Had(ss: seq<State>, n: nat, t: Task) {
    exists m :: 0 <= m <= n && m < |ss| && t in List(ss[m], t.plan)
  }

  ghost predicate ArrayReal(ss: seq<State>, n: nat, a: Arr) {
    forall i :: 0 <= i < |a.rows| ==> a.rows[i].plan == a.plan && Had(ss, n, a.rows[i])
  }

  ghost predicate Real(ss: seq<State>, n: nat)
    requires n < |ss|
  {
    var s := ss[n];
    && (forall p :: p in s.db ==> GoodList(s.db[p], p) && Before(s.db[p], s.nextId, s.stamp))
    && (forall a :: 0 <= a < |s.arrays| ==> ArrayReal(ss, n, s.arrays[a]))
    && (forall p :: p in s.items ==> s.items[p].arr < |s.arrays| && s.arrays[s.items[p].arr].plan == p)
    && (forall p :: p in s.worker && s.worker[p].Holds? ==> s.worker[p].task.plan == p && Had(ss, n, s.worker[p].task))
    && (forall w :: w in s.watching ==> s.watching[w] < |s.arrays|)
    && (forall w :: w in s.loads ==> s.loads[w] < |s.arrays|)
  }

  lemma HadLater(ss: seq<State>, n: nat, t: Task)
    requires Had(ss, n, t)
    ensures Had(ss, n + 1, t)
  {
    var m :| 0 <= m <= n && m < |ss| && t in List(ss[m], t.plan);
    assert 0 <= m <= n + 1;
  }

  lemma ArrayLater(ss: seq<State>, n: nat, a: Arr)
    requires ArrayReal(ss, n, a)
    ensures ArrayReal(ss, n + 1, a)
  {
    forall i | 0 <= i < |a.rows| ensures Had(ss, n + 1, a.rows[i]) { HadLater(ss, n, a.rows[i]); }
  }

  /** A list just read from the database. */
  lemma ListReal(ss: seq<State>, n: nat, p: int)
    requires n < |ss| && Real(ss, n)
    ensures ArrayReal(ss, n, Arr(p, List(ss[n], p)))
  {
    forall i | 0 <= i < |List(ss[n], p)| ensures Had(ss, n, List(ss[n], p)[i]) {
      assert List(ss[n], p)[i] in List(ss[n], List(ss[n], p)[i].plan);
    }
  }

  lemma PutReal(ss: seq<State>, n: nat, a: Arr, t: Task)
    requires ArrayReal(ss, n, a) && Had(ss, n, t) && t.plan == a.plan
    ensures ArrayReal(ss, n, Arr(a.plan, Put(a.rows, t)))
  {
  }

  lemma StepReal(ss: seq<State>, acts: seq<Action>, n: nat)
    requires n + 1 < |ss| && n < |acts| && Real(ss, n) && Next(ss[n], acts[n], ss[n + 1])
    ensures Real(ss, n + 1)
  {
    var s, s', a := ss[n], ss[n + 1], acts[n];
    StepLists(s, a, s');
    forall k | 0 <= k < |s'.arrays| ensures ArrayReal(ss, n + 1, s'.arrays[k]) {
      StepArray(ss, acts, n, k);
      ArrayLater(ss, n, s'.arrays[k]);
    }
    forall p | p in s'.worker && s'.worker[p].Holds?
      ensures s'.worker[p].task.plan == p && Had(ss, n + 1, s'.worker[p].task)
    {
      StepHeld(ss, acts, n, p);
    }
  }

  lemma StepHeld(ss: seq<State>, acts: seq<Action>, n: nat, p: int)
    requires n + 1 < |ss| && n < |acts| && Real(ss, n) && Next(ss[n], acts[n], ss[n + 1])
    requires p in ss[n + 1].worker && ss[n + 1].worker[p].Holds?
    ensures ss[n + 1].worker[p].task.plan == p && Had(ss, n + 1, ss[n + 1].worker[p].task)
  {
    var s, t := ss[n], ss[n + 1].worker[p].task;
    if acts[n] == ReadBack(p) {
      assert t in List(s, p);
      ListReal(ss, n, p);
    }
    HadLater(ss, n, t);
  }

  lemma StepLists(s: State, a: Action, s': State)
    requires Next(s, a, s') && forall p :: p in s.db ==> GoodList(s.db[p], p) && Before(s.db[p], s.nextId, s.stamp)
    ensures forall p :: p in s'.db ==> GoodList(s'.db[p], p) && Before(s'.db[p], s'.nextId, s'.stamp)
  {
    forall p | p in s'.db ensures GoodList(s'.db[p], p) && Before(s'.db[p], s'.nextId, s'.stamp) { StepList(s, a, s', p); }
  }

  lemma StepList(s: State, a: Action, s': State, p: int)
    requires Next(s, a, s') && (p in s.db ==> GoodList(s.db[p], p) && Before(s.db[p], s.nextId, s.stamp)) && p in s'.db
    ensures GoodList(s'.db[p], p) && Before(s'.db[p], s'.nextId, s'.stamp)
  {
  }

  lemma StepArray(ss: seq<State>, acts: seq<Action>, n: nat, k: nat)
    requires n + 1 < |ss| && n < |acts| && Real(ss, n) && Next(ss[n], acts[n], ss[n + 1])
    requires k < |ss[n + 1].arrays|
    ensures ArrayReal(ss, n, ss[n + 1].arrays[k])
  {
    var s, s', a := ss[n], ss[n + 1], acts[n];
    if k < |s.arrays| && s'.arrays[k] == s.arrays[k] {
    } else if k == |s.arrays| {
      ListReal(ss, n, s'.arrays[k].plan);
    } else {
      assert a.Notify?;
      PutReal(ss, n, s.arrays[k], s.worker[a.plan].task);
    }
  }

  lemma {:induction false} AlwaysReal(ss: seq<State>, acts: seq<Action>, n: nat)
    requires Behavior(ss, acts) && n < |ss|
    ensures Real(ss, n)
  {
    if n > 0 {
      AlwaysReal(ss, acts, n - 1);
      StepReal(ss, acts, n - 1);
    }
  }

  /** Whatever the interleaving, every row a watcher is served is a version that this plan's row really had
      in the database, now or at an earlier moment. */
  lemma ServedReal(ss: seq<State>, acts: seq<Action>, n: nat)
    requires Behavior(ss, acts) && n < |acts| && acts[n].Serve?
    ensures Had(ss, n, acts[n].task) && acts[n].task.plan == Watched(ss[n], acts[n].watcher).plan
  {
    AlwaysReal(ss, acts, n);
    assert Next(ss[n], acts[n], ss[n + 1]);
    assert ArrayReal(ss, n, Watched(ss[n], acts[n].watcher));
  }

  // ---------------------------------------------------------------- arrays keep their shape

  /** The same rows in the same places, though perhaps other versions of them. */
  ghost predicate SameShape(a: Arr, b: Arr) {
    a.plan == b.plan && |a.rows| == |b.rows| && forall i :: 0 <= i < |a.rows| ==> a.rows[i].id == b.rows[i].id
  }

  lemma ShapesJoin(a: Arr, b: Arr, c: Arr)
    requires SameShape(a, b) && SameShape(b, c)
    ensures SameShape(a, c)
  {
  }

  lemma StepShape(s: State, act: Action, s': State, k: nat)
    requires Next(s, act, s') && k < |s.arrays|
    ensures k < |s'.arrays| && SameShape(s.arrays[k], s'.arrays[k])
  {
  }

  /** Once handed out, an array never gains, loses or reorders rows, however long it is shared. */
  lemma {:induction false} ShapeKept(ss: seq<State>, acts: seq<Action>, m: nat, n: nat, k: nat)
    requires Behavior(ss, acts) && m <= n < |ss| && k < |ss[m].arrays|
    ensures k < |ss[n].arrays| && SameShape(ss[m].arrays[k], ss[n].arrays[k])
  {
    if m < n {
      ShapeKept(ss, acts, m, n - 1, k);
      StepShape(ss[n - 1], acts[n - 1], ss[n], k);
      ShapesJoin(ss[m].arrays[k], ss[n - 1].arrays[k], ss[n].arrays[k]);
    }
  }

  // ---------------------------------------------------------------- a cache pass

  /** While the pass runs nothing else touches the entries, and those it is done with hold what the
      database said at their turn. */
  ghost predicate PassDone(ss: seq<State>, a: nat, n: nat, p: int) {
    exists m :: a < m < n && n < |ss| && Reloaded(ss, m, n, p)
  }

  ghost predicate Reloaded(ss: seq<State>, m: nat, n: nat, p: int) {
    m < |ss| && n < |ss| && p in ss[n].items && Cached(ss[n], p) == List(ss[m], p)
  }

  ghost predicate PassInv(ss: seq<State>, a: nat, n: nat) {
    && n < |ss| && ss[n].pass.Some?
    && forall p :: p in ss[n].items ==> p in ss[n].pass.value || PassDone(ss, a, n, p)
  }

  /** Under a pass only the pass's own steps change the entries. */
  lemma PassLocked(s: State, act: Action, s': State, p: int)
    requires Next(s, act, s') && s.pass.Some? && act != PassEnd && p in s'.items
    requires forall q :: q in s.items ==> s.items[q].arr < |s.arrays|
    ensures s'.pass.Some? && p in s.items
    ensures Cached(s', p) == List(s, p) || (Cached(s', p) == Cached(s, p) && (p in s.pass.value ==> p in s'.pass.value))
  {
  }

  lemma PassStep(ss: seq<State>, acts: seq<Action>, a: nat, n: nat)
    requires Behavior(ss, acts) && a < n < |acts| && PassInv(ss, a, n) && acts[n] != PassEnd
    ensures PassInv(ss, a, n + 1)
  {
    AlwaysReal(ss, acts, n);
    var s, s' := ss[n], ss[n + 1];
    assert Next(s, acts[n], s');
    PassGoesOn(s, acts[n], s');
    forall p | p in s'.items && p !in s'.pass.value ensures PassDone(ss, a, n + 1, p) {
      PassLocked(s, acts[n], s', p);
      if Cached(s', p) == List(s, p) {
        assert Reloaded(ss, n, n + 1, p);
      } else {
        var m :| a < m < n && Reloaded(ss, m, n, p);
        assert Reloaded(ss, m, n + 1, p);
      }
    }
  }

  lemma PassGoesOn(s: State, act: Action, s': State)
    requires Next(s, act, s') && s.pass.Some? && act != PassEnd
    ensures s'.pass.Some?
  {
  }

  /** A whole pass: whatever else happened meanwhile, every entry that survives it holds exactly the list
      the database had at some moment during the pass. */
  lemma PassReloads(ss: seq<State>, acts: seq<Action>, a: nat, b: nat, p: int)
    requires Behavior(ss, acts) && a < b < |acts| && acts[a] == PassStart && acts[b] == PassEnd
    requires forall k :: a < k < b ==> acts[k] != PassEnd
    requires p in ss[b + 1].items
    ensures PassDone(ss, a, b, p)
  {
    var n := a + 1;
    while n < b
      invariant a < n <= b && PassInv(ss, a, n)
    {
      PassStep(ss, acts, a, n);
      n := n + 1;
    }
  }
}
