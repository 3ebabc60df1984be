/** The list of output items a response stream builds up, item event by item event. */
module OutputItems {

  /** The fields of an output item the key looks at; an absent field is the empty string. */
  datatype Item = Item(id: string, callId: string, kind: string, name: string, payload: string)

  function Key(x: Item): string {
    if x.id != "" then "id:" + x.id
    else if x.callId != "" then "call_id:" + x.callId
    else if x.kind != "" then (if x.name != "" then x.kind + ":" + x.name else x.kind)
    else ""
  }

  /** The first position holding the key, or the length. */
  function Find(items: seq<Item>, key: string): (p: nat)
    ensures p <= |items| && (p < |items| ==> Key(items[p]) == key)
    ensures forall k :: 0 <= k < p ==> Key(items[k]) != key
  {
    if items == [] || Key(items[0]) == key then 0 else 1 + Find(items[1..], key)
  }

  function Upserted(items: seq<Item>, x: Item): seq<Item> {
    if Key(x) == "" || Find(items, Key(x)) == |items| then items + [x] else items[Find(items, Key(x)) := x]
  }

  method UpsertOutputItem(items: seq<Item>, x: Item) returns (r: seq<Item>)
    ensures r == Upserted(items, x)
  {
    var key := Key(x);
    if key == "" { return items + [x]; }
    for i := 0 to |items|
      invariant forall k :: 0 <= k < i ==> Key(items[k]) != key
    {
      if Key(items[i]) == key { return items[i := x]; }
    }
    r := items + [x];
  }

  /** All item events of a stream, folded by `UpsertOutputItem`. */
  function Folded(events: seq<Item>): seq<Item> {
    if events == [] then [] else Upserted(Folded(events[..|events| - 1]), events[|events| - 1])
  }

  // ---------------------------------------------------------------- the insertion-ordered map it refines

  /** Event k opens a slot: it has no key, or is the first with its key. */
  predicate Opens(events: seq<Item>, k: nat) {
    k < |events| && (Key(events[k]) == "" || forall j :: 0 <= j < k ==> Key(events[j]) != Key(events[k]))
  }

  function Slots(events: seq<Item>, n: nat): seq<nat>
    requires n <= |events|
  {
    if n == 0 then [] else Slots(events, n - 1) + if Opens(events, n - 1) then [n - 1] else []
  }

  /** The last of the first n events with the key of event k, or k itself when it has none. */
  function Latest(events: seq<Item>, n: nat, k: nat): (r: nat)
    requires k < n <= |events|
    ensures r < n
  {
    if Key(events[k]) == "" || Key(events[n - 1]) == Key(events[k]) || n - 1 == k then
      (if Key(events[k]) == "" then k else n - 1)
    else Latest(events, n - 1, k)
  }

  /** `items` is the map after n events: slot order is first appearance, slot value is the last. */
  ghost predicate Refines(events: seq<Item>, n: nat, items: seq<Item>)
    requires n <= |events|
  {
    && |items| == |Slots(events, n)|
    && forall s :: 0 <= s < |items| ==> SlotHolds(events, n, Slots(events, n)[s], items[s])
  }

  ghost predicate SlotHolds(events: seq<Item>, n: nat, k: nat, x: Item)
    requires n <= |events|
  {
    k < n && Opens(events, k) && x == events[Latest(events, n, k)] && Key(x) == Key(events[k])
  }

  /** Slots are openings, in order, and all of them. */
  lemma {:induction false} SlotOpens(events: seq<Item>, n: nat, s: nat)
    requires n <= |events| && s < |Slots(events, n)|
    ensures Slots(events, n)[s] < n && Opens(events, Slots(events, n)[s])
  {
    var before := Slots(events, n - 1);
    if s < |before| {
      SlotOpens(events, n - 1, s);
      assert Slots(events, n)[s] == before[s];
    } else {
      assert Slots(events, n)[s] == n - 1;
    }
  }

  lemma {:induction false} SlotsIncrease(events: seq<Item>, n: nat, s: nat, t: nat)
    requires n <= |events| && s < t < |Slots(events, n)|
    ensures Slots(events, n)[s] < Slots(events, n)[t]
  {
    if n > 0 {
      var before := Slots(events, n - 1);
      assert Slots(events, n)[s] == before[s];
      if t < |before| {
        SlotsIncrease(events, n - 1, s, t);
        assert Slots(events, n)[t] == before[t];
      } else {
        SlotOpens(events, n - 1, s);
        assert Slots(events, n)[t] == n - 1;
      }
    }
  }

  lemma {:induction false} OpeningHasSlot(events: seq<Item>, n: nat, k: nat) returns (s: nat)
    requires k < n <= |events| && Opens(events, k)
    ensures s < |Slots(events, n)| && Slots(events, n)[s] == k
  {
    if k == n - 1 {
      s := |Slots(events, n - 1)|;
    } else {
      s := OpeningHasSlot(events, n - 1, k);
    }
  }

  lemma SlotIff(events: seq<Item>, k: nat)
    ensures k in Slots(events, |events|) <==> k < |events| && Opens(events, k)
  {
    var n := |events|;
    if k in Slots(events, n) {
      var s :| 0 <= s < |Slots(events, n)| && Slots(events, n)[s] == k;
      SlotOpens(events, n, s);
    } else if k < n && Opens(events, k) {
      var s := OpeningHasSlot(events, n, k);
    }
  }

  /** Every event seen so far with a key shares it with the slot its first occurrence opened. */
  lemma {:induction false} SlotOf(events: seq<Item>, n: nat, k: nat) returns (s: nat)
    requires k < n <= |events| && Key(events[k]) != ""
    ensures s < |Slots(events, n)| && Slots(events, n)[s] <= k && Key(events[Slots(events, n)[s]]) == Key(events[k])
  {
    if Opens(events, k) {
      s := OpeningHasSlot(events, n, k);
    } else {
      var j :| 0 <= j < k && Key(events[j]) == Key(events[k]);
      s := SlotOf(events, n, j);
    }
  }

  lemma SlotKeysDiffer(events: seq<Item>, n: nat, s: nat, t: nat)
    requires n <= |events| && s < t < |Slots(events, n)| && Slots(events, n)[s] < |events| && Slots(events, n)[t] < |events|
    ensures Key(events[Slots(events, n)[t]]) != "" ==> Key(events[Slots(events, n)[s]]) != Key(events[Slots(events, n)[t]])
  {
    SlotOpens(events, n, t);
    SlotsIncrease(events, n, s, t);
  }

  lemma ReplaceRefines(events: seq<Item>, n: nat, items: seq<Item>, p: nat)
    requires n < |events| && Refines(events, n, items) && Key(events[n]) != ""
    requires p < |items| && Key(items[p]) == Key(events[n])
    ensures Refines(events, n + 1, items[p := events[n]])
  {
    var slots, x := Slots(events, n), events[n];
    assert SlotHolds(events, n, slots[p], items[p]);
    assert !Opens(events, n);
    assert slots + [] == slots;
    forall s | 0 <= s < |items| ensures SlotHolds(events, n + 1, slots[s], items[p := x][s]) {
      assert SlotHolds(events, n, slots[s], items[s]);
      if s < p { SlotKeysDiffer(events, n, s, p); } else if p < s { SlotKeysDiffer(events, n, p, s); }
    }
  }

  lemma ItemOf(events: seq<Item>, n: nat, items: seq<Item>, j: nat) returns (s: nat)
    requires j < n < |events| && Refines(events, n, items) && Key(events[j]) != ""
    ensures s < |items| && Key(items[s]) == Key(events[j])
  {
    s := SlotOf(events, n, j);
    assert SlotHolds(events, n, Slots(events, n)[s], items[s]);
  }

  lemma AppendRefines(events: seq<Item>, n: nat, items: seq<Item>)
    requires n < |events| && Refines(events, n, items)
    requires Key(events[n]) == "" || forall s :: 0 <= s < |items| ==> Key(items[s]) != Key(events[n])
    ensures Refines(events, n + 1, items + [events[n]])
  {
    var slots, x := Slots(events, n), events[n];
    if Key(x) != "" {
      forall j | 0 <= j < n ensures Key(events[j]) != Key(x) {
        if Key(events[j]) == Key(x) {
          var s := ItemOf(events, n, items, j);
          assert false;
        }
      }
    }
    assert Opens(events, n);
    forall s | 0 <= s < |items| ensures SlotHolds(events, n + 1, slots[s], items[s]) {
      assert SlotHolds(events, n, slots[s], items[s]);
    }
  }

  lemma StepRefines(events: seq<Item>, n: nat, items: seq<Item>)
    requires n < |events| && Refines(events, n, items)
    ensures Refines(events, n + 1, Upserted(items, events[n]))
  {
    var p := Find(items, Key(events[n]));
    if Key(events[n]) != "" && p < |items| {
      ReplaceRefines(events, n, items, p);
    } else {
      AppendRefines(events, n, items);
    }
  }

  lemma FoldedNext(before: seq<Item>, x: Item)
    ensures Folded(before + [x]) == Upserted(Folded(before), x)
  {
    assert (before + [x])[..|before|] == before;
  }

  lemma RefinesNext(events: seq<Item>, n: nat, before: seq<Item>, after: seq<Item>)
    requires n < |events| && after == before + [events[n]] && Refines(events, n, Folded(before))
    ensures Refines(events, n + 1, Folded(after))
  {
    StepRefines(events, n, Folded(before));
    FoldedNext(before, events[n]);
  }

  lemma {:induction false} FoldedRefines(events: seq<Item>, n: nat)
    requires n <= |events|
    ensures Refines(events, n, Folded(events[..n]))
  {
    if n > 0 {
      FoldedRefines(events, n - 1);
      RefinesNext(events, n - 1, events[..n - 1], events[..n]);
    }
  }

  /** Folding the events of any stream gives the insertion-ordered map: no key twice, slots in order of
      first appearance, each holding the last value of its key, keyless items all kept. */
  lemma FoldIsOrderedMap(events: seq<Item>)
    ensures Refines(events, |events|, Folded(events))
    ensures forall i, j :: 0 <= i < j < |Folded(events)| && Key(Folded(events)[j]) != "" ==> Key(Folded(events)[i]) != Key(Folded(events)[j])
    ensures forall k :: 0 <= k < |events| && Key(events[k]) == "" ==> k in Slots(events, |events|)
    ensures forall k :: 0 <= k < |events| ==> exists s :: 0 <= s < |Folded(events)| && Key(Folded(events)[s]) == Key(events[k])
  {
    var n := |events|;
    FoldedRefines(events, n);
    assert events[..n] == events;
    forall i, j | 0 <= i < j < |Folded(events)| && Key(Folded(events)[j]) != ""
      ensures Key(Folded(events)[i]) != Key(Folded(events)[j])
    {
      SlotKeysDiffer(events, n, i, j);
    }
    forall k | 0 <= k < |events| && Key(events[k]) == "" ensures k in Slots(events, n) { SlotIff(events, k); }
    forall k | 0 <= k < |events| ensures exists s :: 0 <= s < |Folded(events)| && Key(Folded(events)[s]) == Key(events[k]) {
      if Key(events[k]) != "" {
        var s := SlotOf(events, n, k);
        assert Key(Folded(events)[s]) == Key(events[k]);
      } else {
        var s := OpeningHasSlot(events, n, k);
        assert Key(Folded(events)[s]) == Key(events[k]);
      }
    }
  }

  /** The latest event of a slot really is the last one with its key. */
  lemma LatestIsLast(events: seq<Item>, n: nat, k: nat)
    requires k < n <= |events|
    ensures k <= Latest(events, n, k) < n && Key(events[Latest(events, n, k)]) == Key(events[k])
    ensures forall j :: Latest(events, n, k) < j < n ==> Key(events[k]) == "" || Key(events[j]) != Key(events[k])
  {
    LatestKey(events, n, k);
    forall j | Latest(events, n, k) < j < n && Key(events[k]) != "" ensures Key(events[j]) != Key(events[k]) {
      NothingLater(events, n, k, j);
    }
  }

  lemma {:induction false} LatestKey(events: seq<Item>, n: nat, k: nat)
    requires k < n <= |events|
    ensures k <= Latest(events, n, k) < n && Key(events[Latest(events, n, k)]) == Key(events[k])
  {
    if Key(events[k]) != "" && Key(events[n - 1]) != Key(events[k]) { LatestKey(events, n - 1, k); }
  }

  lemma {:induction false} NothingLater(events: seq<Item>, n: nat, k: nat, j: nat)
    requires k < n <= |events| && Key(events[k]) != "" && Latest(events, n, k) < j < n
    ensures Key(events[j]) != Key(events[k])
  {
    if j < n - 1 && Key(events[n - 1]) != Key(events[k]) { NothingLater(events, n - 1, k, j); }
  }

  // ---------------------------------------------------------------- what keys tell apart

  lemma KeyOf(x: Item)
    ensures x.id != "" ==> Key(x) == "id" + ":" + x.id
    ensures x.id == "" && x.callId != "" ==> Key(x) == "call_id" + ":" + x.callId
    ensures x.id == "" && x.callId == "" ==> Key(x) == if x.kind == "" || x.name == "" then x.kind else x.kind + ":" + x.name
  {
    assert "id:" == "id" + ":" && "call_id:" == "call_id" + ":";
  }

  /** Texts with a colon after a colon-free prefix are the same exactly when prefix and rest are. */
  lemma Colon(a: string, b: string, c: string, d: string)
    requires ':' !in a && ':' !in c
    ensures a + ":" + b == c + ":" + d <==> a == c && b == d
    ensures a + ":" + b != c
  {
    var s, t := a + ":" + b, c + ":" + d;
    assert s[|a|] == ':' && t[|c|] == ':';
    assert forall k :: 0 <= k < |a| ==> s[k] == a[k];
    assert forall k :: 0 <= k < |c| ==> t[k] == c[k];
    if s == t {
      assert |a| == |c|;
      assert a == s[..|a|] && c == t[..|c|] && b == s[|a| + 1..] && d == t[|c| + 1..];
    }
    assert s[|a|] in s;
  }

  lemma NoColons()
    ensures ':' !in "id" && ':' !in "call_id" && "id" != "call_id"
  {
    assert |"id"| == 2 && |"call_id"| == 7;
  }

  /** Items with an id are the same item exactly when their ids agree, items with a call id alone when their call
      ids do, and others when type and name do, as long as no type holds a colon; none of these is another. */
  lemma KeyTells(x: Item, y: Item)
    ensures Key(x) == "" <==> x.id == "" && x.callId == "" && x.kind == ""
    ensures x.id != "" && y.id != "" ==> (Key(x) == Key(y) <==> x.id == y.id)
    ensures x.id == "" && y.id == "" && x.callId != "" && y.callId != "" ==> (Key(x) == Key(y) <==> x.callId == y.callId)
    ensures x.id != "" && y.id == "" && y.callId != "" ==> Key(x) != Key(y)
    ensures Bare(x) && Bare(y) ==> (Key(x) == Key(y) <==> x.kind == y.kind && x.name == y.name)
    ensures Bare(x) && !Bare(y) && (y.id != "" || y.callId != "") && x.kind != "id" && x.kind != "call_id" ==> Key(x) != Key(y)
  {
    KeyOf(x);
    KeyOf(y);
    NoColons();
    Colon("id", x.id, "id", y.id);
    Colon("call_id", x.callId, "call_id", y.callId);
    Colon("id", x.id, "call_id", y.callId);
    if Bare(x) && Bare(y) {
      Colon(x.kind, x.name, y.kind, y.name);
      Colon(y.kind, y.name, x.kind, x.name);
    } else if Bare(x) {
      Colon(x.kind, x.name, "id", y.id);
      Colon(x.kind, x.name, "call_id", y.callId);
      Colon("id", y.id, x.kind, x.name);
      Colon("call_id", y.callId, x.kind, x.name);
    }
  }

  /** An item known by its type and name only. */
  predicate Bare(x: Item) {
    x.id == "" && x.callId == "" && x.kind != "" && ':' !in x.kind
  }

  ghost predicate LastWithId(events: seq<Item>, x: Item) {
    x.id != "" && exists k :: 0 <= k < |events| && events[k] == x && forall j :: k < j < |events| ==> events[j].id != x.id
  }

  ghost predicate AllHaveIds(events: seq<Item>) {
    forall k :: 0 <= k < |events| ==> events[k].id != ""
  }

  lemma SlotIsLast(events: seq<Item>, k: nat, x: Item)
    requires AllHaveIds(events) && SlotHolds(events, |events|, k, x)
    ensures LastWithId(events, x)
  {
    var n := |events|;
    LatestKey(events, n, k);
    var l := Latest(events, n, k);
    KeyTells(events[k], events[l]);
    forall j | l < j < n ensures events[j].id != x.id {
      NothingLater(events, n, k, j);
      KeyTells(events[j], events[k]);
    }
  }

  lemma KeptIsLast(events: seq<Item>, s: nat)
    requires AllHaveIds(events) && s < |Folded(events)|
    ensures LastWithId(events, Folded(events)[s])
  {
    FoldedRefines(events, |events|);
    assert events[..|events|] == events;
    SlotIsLast(events, Slots(events, |events|)[s], Folded(events)[s]);
  }

  lemma KeptDiffer(events: seq<Item>, i: nat, j: nat)
    requires AllHaveIds(events) && i < j < |Folded(events)|
    ensures Folded(events)[i].id != Folded(events)[j].id
  {
    FoldIsOrderedMap(events);
    KeptIsLast(events, i);
    KeptIsLast(events, j);
    KeyTells(Folded(events)[i], Folded(events)[j]);
    KeyTells(Folded(events)[j], Folded(events)[i]);
    assert Key(Folded(events)[j]) != "";
    assert Key(Folded(events)[i]) != Key(Folded(events)[j]);
  }

  predicate HasId(items: seq<Item>, id: string) {
    exists s :: 0 <= s < |items| && items[s].id == id
  }

  lemma Kept(events: seq<Item>, k: nat) returns (s: nat)
    requires AllHaveIds(events) && k < |events|
    ensures s < |Folded(events)| && Folded(events)[s].id == events[k].id
  {
    FoldIsOrderedMap(events);
    s :| 0 <= s < |Folded(events)| && Key(Folded(events)[s]) == Key(events[k]);
    KeptIsLast(events, s);
    KeyTells(Folded(events)[s], events[k]);
  }

  /** Of a stream of items with ids, one item is kept per id, and it is the last one with that id. */
  lemma FoldById(events: seq<Item>)
    requires AllHaveIds(events)
    ensures forall i, j :: 0 <= i < j < |Folded(events)| ==> Folded(events)[i].id != Folded(events)[j].id
    ensures forall k :: 0 <= k < |events| ==> HasId(Folded(events), events[k].id)
    ensures forall s :: 0 <= s < |Folded(events)| ==> LastWithId(events, Folded(events)[s])
  {
    forall s | 0 <= s < |Folded(events)| ensures LastWithId(events, Folded(events)[s]) { KeptIsLast(events, s); }
    forall i, j | 0 <= i < j < |Folded(events)| ensures Folded(events)[i].id != Folded(events)[j].id { KeptDiffer(events, i, j); }
    forall k | 0 <= k < |events| ensures HasId(Folded(events), events[k].id) {
      var s := Kept(events, k);
    }
  }
}
