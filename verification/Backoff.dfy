/** The probe backoff table, and what it promises over any history of calls. */
module Backoff {

  // Instants are nanoseconds since the zero time, so 0 is the zero time itself.
  const SECOND: nat := 1_000_000_000
  const BASE_INTERVAL: nat := 30 * SECOND
  const MAX_INTERVAL: nat := 480 * SECOND
  const MAX_FAILURES: nat := 8

  function Pow2(n: nat): nat {
    if n == 0 then 1 else 2 * Pow2(n - 1)
  }

  function Min(a: nat, b: nat): nat {
    if a < b then a else b
  }

  function ProbeInterval(failures: nat): nat {
    var f := if failures > 4 then 4 else failures;
    var d := BASE_INTERVAL * Pow2(f);
    if d > MAX_INTERVAL then MAX_INTERVAL else d
  }

  /** The interval is 30s doubled per failure up to four, never outside 30s..480s; counting beyond the
      cap of 8 would not change it. */
  lemma IntervalFacts(failures: nat)
    ensures ProbeInterval(failures) == BASE_INTERVAL * Pow2(Min(failures, 4))
    ensures BASE_INTERVAL <= ProbeInterval(failures) <= MAX_INTERVAL
    ensures failures >= 4 ==> ProbeInterval(failures) == MAX_INTERVAL
    ensures ProbeInterval(Min(failures, MAX_FAILURES)) == ProbeInterval(failures)
  {
    assert Pow2(1) == 2 && Pow2(2) == 4 && Pow2(3) == 8 && Pow2(4) == 16;
  }

  datatype Table = Table(failures: map<string, nat>, last: map<string, nat>)

  function Failures(t: Table, name: string): nat {
    if name in t.failures then t.failures[name] else 0
  }

  function Last(t: Table, name: string): nat {
    if name in t.last then t.last[name] else 0
  }

  predicate Grants(t: Table, name: string, now: nat) {
    Last(t, name) == 0 || now - Last(t, name) >= ProbeInterval(Failures(t, name))
  }

  /** A call on the table; every method holds the lock for its whole body, so calls are atomic. */
  datatype Call = ShouldProbe(name: string, now: nat) | MarkResult(name: string, success: bool) | Cleanup(exist: set<string>)

  function Do(t: Table, c: Call): Table {
    match c
    case ShouldProbe(n, now) => if Grants(t, n, now) then t.(last := t.last[n := now]) else t
    case MarkResult(n, success) =>
      if success then t.(failures := t.failures - {n})
      else t.(failures := t.failures[n := Min(Failures(t, n) + 1, MAX_FAILURES)])
    case Cleanup(exist) =>
      Table(map n | n in t.failures && n in exist :: t.failures[n], map n | n in t.last && n in exist :: t.last[n])
  }

  /** The table as the object it is. */
  class ProbeBackoff {
    var failures: map<string, nat>
    var lastAttempt: map<string, nat>

    function View(): Table
      reads this
    {
      Table(failures, lastAttempt)
    }

    constructor ()
      ensures View() == Table(map[], map[])
    {
      failures, lastAttempt := map[], map[];
    }

    method ShouldProbe(name: string, now: nat) returns (ok: bool)
      modifies this
      ensures View() == Do(old(View()), Call.ShouldProbe(name, now)) && ok == Grants(old(View()), name, now)
    {
      var last := if name in lastAttempt then lastAttempt[name] else 0;
      var count := if name in failures then failures[name] else 0;
      if last == 0 || now - last >= ProbeInterval(count) {
        lastAttempt := lastAttempt[name := now];
        return true;
      }
      return false;
    }

    method MarkResult(name: string, success: bool)
      modifies this
      ensures View() == Do(old(View()), Call.MarkResult(name, success))
    {
      if success {
        failures := failures - {name};
        return;
      }
      var f := (if name in failures then failures[name] else 0) + 1;
      if f > MAX_FAILURES { f := MAX_FAILURES; }
      failures := failures[name := f];
    }

    /** Deletes, one by one, the entries of both maps whose name is not in `exist`. */
    method Cleanup(exist: set<string>)
      modifies this
      ensures View() == Do(old(View()), Call.Cleanup(exist))
    {
      var left := failures.Keys;
      while left != {}
        invariant left <= failures.Keys <= old(failures.Keys) && lastAttempt == old(lastAttempt)
        invariant forall n :: n in old(failures) ==> (n in failures <==> n in left || n in exist)
        invariant forall n :: n in failures ==> failures[n] == old(failures)[n]
        decreases |left|
      {
        var n :| n in left;
        if n !in exist { failures := failures - {n}; }
        left := left - {n};
      }
      assert failures == Do(old(View()), Call.Cleanup(exist)).failures;
      left := lastAttempt.Keys;
      ghost var f := failures;
      while left != {}
        invariant left <= lastAttempt.Keys <= old(lastAttempt.Keys) && failures == f
        invariant forall n :: n in old(lastAttempt) ==> (n in lastAttempt <==> n in left || n in exist)
        invariant forall n :: n in lastAttempt ==> lastAttempt[n] == old(lastAttempt)[n]
        decreases |left|
      {
        var n :| n in left;
        if n !in exist { lastAttempt := lastAttempt - {n}; }
        left := left - {n};
      }
      assert lastAttempt == Do(old(View()), Call.Cleanup(exist)).last;
    }
  }

  // ---------------------------------------------------------------- histories

  /** The table after the first k calls. */
  function After(h: seq<Call>, k: nat): Table
    requires k <= |h|
  {
    if k == 0 then Table(map[], map[]) else Do(After(h, k - 1), h[k - 1])
  }

  predicate Drops(c: Call, name: string) {
    c.Cleanup? && name !in c.exist
  }

  /** Call k asks for a probe of the name and gets it. */
  predicate Granted(h: seq<Call>, k: nat, name: string) {
    k < |h| && h[k].ShouldProbe? && h[k].name == name && Grants(After(h, k), name, h[k].now)
  }

  /** The uncapped number of failures recorded since the last success, or since the name was dropped. */
  function Streak(h: seq<Call>, k: nat, name: string): nat
    requires k <= |h|
  {
    if k == 0 then 0
    else match h[k - 1]
         case MarkResult(n, success) =>
           if n != name then Streak(h, k - 1, name) else if success then 0 else Streak(h, k - 1, name) + 1
         case Cleanup(exist) => if name in exist then Streak(h, k - 1, name) else 0
         case ShouldProbe(_, _) => Streak(h, k - 1, name)
  }

  /** The stored count is the streak capped at 8. */
  lemma {:induction false} CountIsCappedStreak(h: seq<Call>, k: nat, name: string)
    requires k <= |h|
    ensures Failures(After(h, k), name) == Min(Streak(h, k, name), MAX_FAILURES)
  {
    if k > 0 {
      CountIsCappedStreak(h, k - 1, name);
    }
  }

  /** Readings for the name are after the zero time. They need not be in order: each caller reads the clock
      before it gets to the table. */
  ghost predicate Clocked(h: seq<Call>, name: string) {
    forall k :: 0 <= k < |h| && h[k].ShouldProbe? && h[k].name == name ==> h[k].now > 0
  }

  ghost predicate Kept(h: seq<Call>, i: nat, k: nat, name: string) {
    forall m :: i <= m < k && m < |h| ==> !Drops(h[m], name)
  }

  /** After a granted probe, the time stored is that of the last grant. */
  lemma {:induction false} LastIsGrant(h: seq<Call>, i: nat, k: nat, name: string)
    requires i < k <= |h| && Granted(h, i, name) && Kept(h, i, k, name)
    requires forall m :: i < m < k ==> !Granted(h, m, name)
    ensures Last(After(h, k), name) == h[i].now
  {
    if k > i + 1 {
      LastIsGrant(h, i, k - 1, name);
      assert !Granted(h, k - 1, name);
    }
  }

  /** The last granted probe of the name before call k, if the name has not been dropped since. */
  ghost predicate LastGranted(h: seq<Call>, i: nat, k: nat, name: string) {
    i < k <= |h| && Granted(h, i, name) && Kept(h, i, k, name) && forall m :: i < m < k ==> !Granted(h, m, name)
  }

  lemma {:induction false} LastTells(h: seq<Call>, k: nat, name: string) returns (i: nat)
    requires k <= |h|
    ensures if i < k then LastGranted(h, i, k, name) && Last(After(h, k), name) == h[i].now
            else Last(After(h, k), name) == 0 && forall m :: 0 <= m < k ==> !LastGranted(h, m, k, name)
  {
    if k == 0 {
      i := 0;
    } else if Granted(h, k - 1, name) {
      i := k - 1;
    } else if Drops(h[k - 1], name) {
      i := k;
    } else {
      i := LastTells(h, k - 1, name);
      if i < k - 1 {
        assert LastGranted(h, i, k, name);
      } else {
        i := k;
        forall m | 0 <= m < k ensures !LastGranted(h, m, k, name) {
          if m < k - 1 { assert LastGranted(h, m, k, name) ==> LastGranted(h, m, k - 1, name); }
        }
      }
    }
  }

  /** How long to wait after so many failures in a row: 30s, 1, 2, 4 and then 8 minutes. */
  function WaitAfter(streak: nat): nat {
    if streak == 0 then 30_000_000_000 else if streak == 1 then 60_000_000_000 else if streak == 2 then 120_000_000_000
    else if streak == 3 then 240_000_000_000 else 480_000_000_000
  }

  /** Which probes are granted, over any history: a name's first one since it is known, and after that every
      one that is due, which it is when the wait for the failures in a row recorded by then is over. */
  lemma GrantedIff(h: seq<Call>, k: nat, name: string)
    requires k < |h| && h[k].ShouldProbe? && h[k].name == name && Clocked(h, name)
    ensures Granted(h, k, name) <==>
            forall i: nat :: LastGranted(h, i, k, name) ==> h[k].now >= h[i].now + WaitAfter(Streak(h, k, name))
  {
    var i := LastTells(h, k, name);
    CountIsCappedStreak(h, k, name);
    IntervalFacts(Streak(h, k, name));
    assert Pow2(0) == 1 && Pow2(1) == 2 && Pow2(2) == 4 && Pow2(3) == 8 && Pow2(4) == 16;
    forall m: nat | LastGranted(h, m, k, name) ensures m == i && h[i].now > 0 {}
  }

  /** Two successive granted probes of a name not dropped in between are at least 30s times two to the
      number of consecutive failures, at most four doublings, apart: however other calls interleave. */
  lemma SpacedGrants(h: seq<Call>, i: nat, k: nat, name: string)
    requires i < k < |h| && Granted(h, i, name) && Granted(h, k, name) && Kept(h, i, k, name) && h[i].now > 0
    requires forall m :: i < m < k ==> !Granted(h, m, name)
    ensures h[k].now - h[i].now >= BASE_INTERVAL * Pow2(Min(Streak(h, k, name), 4))
  {
    LastIsGrant(h, i, k, name);
    CountIsCappedStreak(h, k, name);
    IntervalFacts(Streak(h, k, name));
  }

  /** The number of granted probes of the name among calls i..k-1. */
  function CountGrants(h: seq<Call>, i: nat, k: nat, name: string): nat
    requires i <= k <= |h|
  {
    if i == k then 0 else CountGrants(h, i, k - 1, name) + if Granted(h, k - 1, name) then 1 else 0
  }

  /** The last grant among calls i..k-1. */
  function LastGrant(h: seq<Call>, i: nat, k: nat, name: string): (g: nat)
    requires i <= k <= |h| && CountGrants(h, i, k, name) > 0
    ensures i <= g < k && Granted(h, g, name)
    ensures forall m :: g < m < k ==> !Granted(h, m, name)
  {
    if Granted(h, k - 1, name) then k - 1 else LastGrant(h, i, k - 1, name)
  }

  function IntervalAt(h: seq<Call>, k: nat, name: string): nat
    requires k <= |h|
  {
    ProbeInterval(Failures(After(h, k), name))
  }

  lemma NextGrant(h: seq<Call>, i: nat, k: nat, name: string)
    requires i < k < |h| && Granted(h, i, name) && Granted(h, k, name) && Kept(h, i, k, name) && h[i].now > 0
    requires forall m :: i < m < k ==> !Granted(h, m, name)
    ensures h[k].now >= h[i].now + IntervalAt(h, k, name)
  {
    LastIsGrant(h, i, k, name);
  }

  function Times(n: nat, d: nat): nat {
    if n == 0 then 0 else Times(n - 1, d) + d
  }

  lemma {:induction false} TimesIsProduct(n: nat, d: nat)
    ensures Times(n, d) == n * d
  {
    if n > 0 { TimesIsProduct(n - 1, d); }
  }

  /** Grants at least d apart, the first not before `from`: the n-th is at least (n - 1) * d later. */
  lemma {:induction false} GrantsSpread(h: seq<Call>, i: nat, k: nat, name: string, d: nat, from: nat)
    requires i <= k <= |h| && Clocked(h, name) && Kept(h, i, k, name) && CountGrants(h, i, k, name) > 0
    requires forall m :: i <= m < k && Granted(h, m, name) ==> h[m].now >= from && IntervalAt(h, m, name) >= d
    ensures h[LastGrant(h, i, k, name)].now >= from + Times(CountGrants(h, i, k, name) - 1, d)
  {
    var n := CountGrants(h, i, k - 1, name);
    if n > 0 {
      GrantsSpread(h, i, k - 1, name, d, from);
      if Granted(h, k - 1, name) {
        NextGrant(h, LastGrant(h, i, k - 1, name), k - 1, name);
      }
    }
  }

  /** Granted probes of a name whose readings fall in a window of length w, among calls that do not drop the
      name, number at most 1 + w/30s, and at most 1 + w/480s if four straight failures were recorded before
      it and no success in it. */
  lemma WindowBound(h: seq<Call>, i: nat, k: nat, name: string, from: nat, w: nat)
    requires i <= k <= |h| && Clocked(h, name) && Kept(h, i, k, name)
    requires forall m :: i <= m < k && Granted(h, m, name) ==> from <= h[m].now <= from + w
    ensures CountGrants(h, i, k, name) <= 1 + w / BASE_INTERVAL
    ensures Streak(h, i, name) >= 4 && (forall m :: i <= m < k ==> h[m] != MarkResult(name, true))
            ==> CountGrants(h, i, k, name) <= 1 + w / MAX_INTERVAL
  {
    var n := CountGrants(h, i, k, name);
    if n > 0 {
      forall m | i <= m < k && Granted(h, m, name)
        ensures IntervalAt(h, m, name) >= BASE_INTERVAL
      {
        IntervalFacts(Failures(After(h, m), name));
      }
      GrantsSpread(h, i, k, name, BASE_INTERVAL, from);
      TimesIsProduct(n - 1, BASE_INTERVAL);
      DivideBound(n - 1, BASE_INTERVAL, w);
      if Streak(h, i, name) >= 4 && forall m :: i <= m < k ==> h[m] != MarkResult(name, true) {
        forall m | i <= m < k && Granted(h, m, name)
          ensures IntervalAt(h, m, name) >= MAX_INTERVAL
        {
          StreakHolds(h, i, m, name);
          CountIsCappedStreak(h, m, name);
          IntervalFacts(Streak(h, m, name));
        }
        GrantsSpread(h, i, k, name, MAX_INTERVAL, from);
        TimesIsProduct(n - 1, MAX_INTERVAL);
        DivideBound(n - 1, MAX_INTERVAL, w);
      }
    }
  }

  lemma {:induction false} StreakHolds(h: seq<Call>, i: nat, k: nat, name: string)
    requires i <= k <= |h| && Kept(h, i, k, name) && forall m :: i <= m < k ==> h[m] != MarkResult(name, true)
    ensures Streak(h, k, name) >= Streak(h, i, name)
  {
    if i < k {
      StreakHolds(h, i, k - 1, name);
    }
  }

  lemma DivideBound(n: nat, d: nat, w: nat)
    requires d > 0 && n * d <= w
    ensures n <= w / d
  {
    if n > w / d {
      Monotone(w / d + 1, n, d);
      assert false;
    }
  }

  lemma Monotone(a: nat, b: nat, d: nat)
    requires a <= b
    ensures a * d <= b * d
  {
  }
}
