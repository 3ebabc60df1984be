/** Reassembly of a response from its stream of decoded events. */
module ResponseStream {
  import opened Collections
  import opened OutputItems
  import C = ChatStream

  /** A response object: its own output list, and a number standing for the rest of it. */
  datatype Response = Response(rest: int, output: seq<Item>)

  /** What the type of an event makes of it; `ItemEvent` covers added and done items. */
  datatype Body = Delta(text: string) | ItemEvent(item: Option<Item>) | Failed(message: string) | Other
  datatype Event = Event(response: Option<Response>, body: Body)

  /** `base` is None when no event carried a response, so that the last event itself is returned. `text` is
      None when it is to be taken from the response. */
  datatype Parsed = Failure(message: string) | Completion(base: Option<Response>, items: seq<Item>, text: Option<string>)

  function DeltasOf(events: seq<Event>): seq<string> {
    if events == [] then []
    else
      var e := events[|events| - 1];
      DeltasOf(events[..|events| - 1]) + if e.body.Delta? && e.body.text != "" then [e.body.text] else []
  }

  function ItemsOf(events: seq<Event>): seq<Item> {
    if events == [] then []
    else
      var e := events[|events| - 1];
      ItemsOf(events[..|events| - 1]) + if e.body.ItemEvent? && e.body.item.Some? then [e.body.item.value] else []
  }

  /** The response carried by the last event that carries one. */
  function LastResponse(events: seq<Event>): Option<Response> {
    if events == [] then None
    else if events[|events| - 1].response.Some? then events[|events| - 1].response
    else LastResponse(events[..|events| - 1])
  }

  /** The position of the first failure event, or the length. */
  function FailureAt(events: seq<Event>): (k: nat)
    ensures k <= |events| && (k < |events| ==> events[k].body.Failed?) && forall j :: 0 <= j < k ==> !events[j].body.Failed?
  {
    if events == [] || events[0].body.Failed? then 0
    else
      var k := FailureAt(events[1..]);
      assert forall j :: 0 < j < k + 1 ==> events[j] == events[1..][j - 1];
      k + 1
  }

  lemma {:induction false} EmptyText(events: seq<Event>)
    ensures C.Concat(DeltasOf(events)) == "" <==> DeltasOf(events) == []
  {
    if events != [] {
      EmptyText(events[..|events| - 1]);
      var d, e := DeltasOf(events[..|events| - 1]), events[|events| - 1];
      if e.body.Delta? && e.body.text != "" { assert (d + [e.body.text])[..|d|] == d; } else { assert d + [] == d; }
    }
  }

  lemma EventNext(events: seq<Event>, k: nat)
    requires k < |events|
    ensures var (xs, ys, e) := (events[..k], events[..k + 1], events[k]);
            && LastResponse(ys) == (if e.response.Some? then e.response else LastResponse(xs))
            && DeltasOf(ys) == (if e.body.Delta? && e.body.text != "" then DeltasOf(xs) + [e.body.text] else DeltasOf(xs))
            && ItemsOf(ys) == (if e.body.ItemEvent? && e.body.item.Some? then ItemsOf(xs) + [e.body.item.value] else ItemsOf(xs))
  {
    assert events[..k + 1][..k] == events[..k];
  }

  lemma FailureHere(events: seq<Event>, k: nat)
    requires k <= FailureAt(events) && k < |events|
    ensures if events[k].body.Failed? then FailureAt(events) == k else k < FailureAt(events)
  {
  }

  /** What the parser answers for any stream. */
  ghost predicate Answers(events: seq<Event>, r: Parsed, emitted: seq<string>) {
    && emitted == DeltasOf(events[..FailureAt(events)])
    && if FailureAt(events) < |events| then r == Failure(events[FailureAt(events)].body.message)
       else if events == [] then r == Failure("empty sse response")
       else r == Completion(LastResponse(events), Folded(ItemsOf(events)), if emitted == [] then None else Some(C.Concat(emitted)))
  }

  /** `parseSSEResponseStream` from decoded events on. The deltas passed on as they come are those up to the
      first failure; without one they spell the returned text, the items are the fold of all item events and
      the response is the last one seen. */
  method ParseResponse(events: seq<Event>) returns (r: Parsed, emitted: seq<string>)
    ensures Answers(events, r, emitted)
    ensures r.Failure? <==> events == [] || exists k :: 0 <= k < |events| && events[k].body.Failed?
  {
    var base: Option<Response>, items := None, [];
    emitted := [];
    for k := 0 to |events|
      invariant k <= FailureAt(events) && emitted == DeltasOf(events[..k])
      invariant base == LastResponse(events[..k]) && items == Folded(ItemsOf(events[..k]))
    {
      var e := events[k];
      EventNext(events, k);
      FailureHere(events, k);
      if e.response.Some? { base := e.response; }
      match e.body {
        case Delta(text) =>
          if text != "" { emitted := emitted + [text]; }
        case ItemEvent(item) =>
          if item.Some? {
            FoldedNext(ItemsOf(events[..k]), item.value);
            items := UpsertOutputItem(items, item.value);
          }
        case Failed(message) => return Failure(message), emitted;
        case Other =>
      }
    }
    assert events[..|events|] == events;
    if events == [] { return Failure("empty sse response"), emitted; }
    EmptyText(events);
    var text := C.Concat(emitted);
    r := Completion(base, items, if text == "" then None else Some(text));
  }

  /** The events of one key: opened at `first`, and `x` is what the one at `last`, the last of them, holds. */
  ghost predicate Spans(xs: seq<Item>, x: Item, first: nat, last: nat) {
    && first <= last < |xs| && Key(x) != "" && Key(xs[first]) == Key(x) && xs[last] == x
    && (forall j :: 0 <= j < first ==> Key(xs[j]) != Key(x))
    && (forall j :: last < j < |xs| ==> Key(xs[j]) != Key(x))
  }

  /** What a list of keyed items looks like as events: each completed item has a span, spans start in the
      order of the list, and no event belongs to anything else. */
  ghost predicate Announced(xs: seq<Item>, done: seq<Item>, first: seq<nat>, last: seq<nat>) {
    && |first| == |last| == |done|
    && (forall j, k :: 0 <= j < k < |done| ==> first[j] < first[k])
    && (forall k :: 0 <= k < |done| ==> Spans(xs, done[k], first[k], last[k]))
    && (forall i :: 0 <= i < |xs| ==> Owned(Key(xs[i]), done))
  }

  predicate Owned(key: string, done: seq<Item>) {
    exists k :: 0 <= k < |done| && Key(done[k]) == key
  }

  lemma SpanSlot(xs: seq<Item>, x: Item, first: nat, last: nat)
    requires Spans(xs, x, first, last)
    ensures Opens(xs, first) && xs[Latest(xs, |xs|, first)] == x
    ensures forall s :: 0 <= s < |xs| && Opens(xs, s) && Key(xs[s]) == Key(x) ==> s == first
  {
    LatestHere(xs, |xs|, first, last);
  }

  lemma OpenedFirst(xs: seq<Item>, done: seq<Item>, first: seq<nat>, last: seq<nat>, s: nat)
    requires Announced(xs, done, first, last) && s < |xs|
    ensures Opens(xs, s) <==> s in first
  {
    assert Owned(Key(xs[s]), done);
    var k :| 0 <= k < |done| && Key(done[k]) == Key(xs[s]);
    SpanSlot(xs, done[k], first[k], last[k]);
    assert first[k] in first;
    if s in first {
      var j :| 0 <= j < |first| && first[j] == s;
      SpanSlot(xs, done[j], first[j], last[j]);
    }
  }

  lemma FirstInside(xs: seq<Item>, done: seq<Item>, first: seq<nat>, last: seq<nat>, s: nat)
    requires Announced(xs, done, first, last) && s in first
    ensures s < |xs|
  {
    var k :| 0 <= k < |first| && first[k] == s;
    assert Spans(xs, done[k], first[k], last[k]);
  }

  lemma SlotsAre(xs: seq<Item>, done: seq<Item>, first: seq<nat>, last: seq<nat>)
    requires Announced(xs, done, first, last)
    ensures Slots(xs, |xs|) == first
  {
    var slots := Slots(xs, |xs|);
    forall s, t | 0 <= s < t < |slots| ensures slots[s] < slots[t] { SlotsIncrease(xs, |xs|, s, t); }
    forall s: nat ensures s in slots <==> s in first {
      SlotIff(xs, s);
      if s in first { FirstInside(xs, done, first, last, s); }
      if s < |xs| { OpenedFirst(xs, done, first, last, s); }
    }
    SameIncreasing(first, slots);
  }

  /** An item announced, updated and completed under one key appears once, where it was announced, as it was
      completed: with distinct non-empty keys the returned list is exactly the completed items, however
      the events of different items are interleaved. */
  lemma CompletedItems(xs: seq<Item>, done: seq<Item>, first: seq<nat>, last: seq<nat>)
    requires Announced(xs, done, first, last)
    ensures Folded(xs) == done
  {
    FoldedRefines(xs, |xs|);
    assert xs[..|xs|] == xs;
    SlotsAre(xs, done, first, last);
    forall k | 0 <= k < |done| ensures Folded(xs)[k] == done[k] {
      SpanSlot(xs, done[k], first[k], last[k]);
      assert SlotHolds(xs, |xs|, first[k], Folded(xs)[k]);
    }
  }

  lemma {:induction false} LatestHere(xs: seq<Item>, n: nat, k: nat, last: nat)
    requires k <= last < n <= |xs| && Key(xs[k]) != "" && Key(xs[last]) == Key(xs[k])
    requires forall j :: last < j < n ==> Key(xs[j]) != Key(xs[k])
    ensures Latest(xs, n, k) == last
  {
    if last < n - 1 { LatestHere(xs, n - 1, k, last); }
  }

  lemma HeadIn<T>(b: seq<T>)
    requires b != []
    ensures b[0] in b
  {
  }

  lemma {:induction false} SameIncreasing(a: seq<nat>, b: seq<nat>)
    requires forall i, j :: 0 <= i < j < |a| ==> a[i] < a[j]
    requires forall i, j :: 0 <= i < j < |b| ==> b[i] < b[j]
    requires forall x :: x in a <==> x in b
    ensures a == b
  {
    if a == [] {
      if b != [] { HeadIn(b); }
    } else {
      assert a[|a| - 1] in b && b != [];
      assert b[|b| - 1] in a;
      var x := a[|a| - 1];
      assert b[|b| - 1] == x;
      var af, bf := a[..|a| - 1], b[..|b| - 1];
      forall y ensures y in af <==> y in bf {
        assert y in af <==> y in a && y != x;
        assert y in bf <==> y in b && y != x;
      }
      SameIncreasing(af, bf);
    }
  }
}
