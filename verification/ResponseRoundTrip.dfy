/** The round trip of a response, stated by where a producer puts what. */
module ResponseRoundTrip {
  import opened Collections
  import opened OutputItems
  import opened ResponseStream
  import C = ChatStream
  import R = ChatRoundTrip

  // ---------------------------------------------------------------- text deltas

  /** The pieces stand, in order, in the text deltas at these positions, and no other delta has any text. */
  ghost predicate Spelled(events: seq<Event>, at: seq<nat>, pieces: seq<string>) {
    && |at| == |pieces| && (forall j, k :: 0 <= j < k < |at| ==> at[j] < at[k])
    && (forall k :: 0 <= k < |at| ==> at[k] < |events| && pieces[k] != "" && events[at[k]].body == Delta(pieces[k]))
    && (forall e: nat :: e < |events| && events[e].body.Delta? && events[e].body.text != "" ==> e in at)
  }

  lemma SpelledLess(events: seq<Event>, at: seq<nat>, pieces: seq<string>)
    requires events != [] && Spelled(events, at, pieces) && |events| - 1 in at
    ensures at != [] && at[|at| - 1] == |events| - 1 && Spelled(events[..|events| - 1], at[..|at| - 1], pieces[..|at| - 1])
  {
    var n, m := |events| - 1, |at| - 1;
    forall e: nat | e < n && events[e].body.Delta? && events[e].body.text != "" ensures e in at[..m] {
      assert e in at;
    }
  }

  lemma {:induction false} SpelledDeltas(events: seq<Event>, at: seq<nat>, pieces: seq<string>)
    requires Spelled(events, at, pieces)
    ensures DeltasOf(events) == pieces
  {
    if events == [] {
      assert at == [];
    } else {
      var n := |events| - 1;
      if n in at {
        SpelledLess(events, at, pieces);
        SpelledDeltas(events[..n], at[..|at| - 1], pieces[..|at| - 1]);
        assert pieces == pieces[..|at| - 1] + [pieces[|at| - 1]];
      } else {
        SpelledDeltas(events[..n], at, pieces);
      }
    }
  }

  // ---------------------------------------------------------------- items

  /** The items stand, in order, in the item events at these positions, and no other event has one. */
  ghost predicate Carries(events: seq<Event>, at: seq<nat>, xs: seq<Item>) {
    && |at| == |xs| && (forall j, k :: 0 <= j < k < |at| ==> at[j] < at[k])
    && (forall k :: 0 <= k < |at| ==> at[k] < |events| && events[at[k]].body == ItemEvent(Some(xs[k])))
    && (forall e: nat :: e < |events| && events[e].body.ItemEvent? && events[e].body.item.Some? ==> e in at)
  }

  lemma CarriesLess(events: seq<Event>, at: seq<nat>, xs: seq<Item>)
    requires events != [] && Carries(events, at, xs) && |events| - 1 in at
    ensures at != [] && at[|at| - 1] == |events| - 1 && Carries(events[..|events| - 1], at[..|at| - 1], xs[..|at| - 1])
  {
    var n, m := |events| - 1, |at| - 1;
    forall e: nat | e < n && events[e].body.ItemEvent? && events[e].body.item.Some? ensures e in at[..m] {
      assert e in at;
    }
  }

  lemma {:induction false} CarriedItems(events: seq<Event>, at: seq<nat>, xs: seq<Item>)
    requires Carries(events, at, xs)
    ensures ItemsOf(events) == xs
  {
    if events == [] {
      assert at == [];
    } else {
      var n := |events| - 1;
      if n in at {
        CarriesLess(events, at, xs);
        CarriedItems(events[..n], at[..|at| - 1], xs[..|at| - 1]);
        assert xs == xs[..|at| - 1] + [xs[|at| - 1]];
      } else {
        CarriedItems(events[..n], at, xs);
      }
    }
  }

  // ---------------------------------------------------------------- the whole

  /** The round trip. Take any text, cut in any way into non-empty pieces, and any items with distinct non-empty
      keys, each announced, updated and completed in any number of events, and put pieces and item events into a
      stream in any order that keeps the pieces in order: what the parser answers is the text, or none, and the
      completed items in the order of their announcement, and the deltas it passes on are the pieces. */
  lemma ResponseExact(events: seq<Event>, text: string, cuts: seq<nat>, spots: seq<nat>, pieces: seq<string>,
                      at: seq<nat>, xs: seq<Item>, done: seq<Item>, first: seq<nat>, last: seq<nat>,
                      r: Parsed, emitted: seq<string>)
    requires R.CutInto(text, cuts, pieces) && Spelled(events, spots, pieces)
    requires Carries(events, at, xs) && Announced(xs, done, first, last)
    requires events != [] && (forall k :: 0 <= k < |events| ==> !events[k].body.Failed?) && Answers(events, r, emitted)
    ensures r.Completion? && r.text == (if text == "" then None else Some(text)) && r.items == done && emitted == pieces
  {
    assert events[..|events|] == events;
    SpelledDeltas(events, spots, pieces);
    CarriedItems(events, at, xs);
    CompletedItems(xs, done, first, last);
    R.CutJoins(text, cuts, pieces, |pieces|);
    assert pieces[..|pieces|] == pieces && text[..|text|] == text;
    EmptyText(events);
  }

  /** At the first failure event the parser gives up with its message, and has passed on the pieces before it. */
  lemma FailureEnds(events: seq<Event>, k: nat, spots: seq<nat>, pieces: seq<string>, r: Parsed, emitted: seq<string>)
    requires k < |events| && events[k].body.Failed? && forall j :: 0 <= j < k ==> !events[j].body.Failed?
    requires Spelled(events[..k], spots, pieces) && Answers(events, r, emitted)
    ensures r == Failure(events[k].body.message) && emitted == pieces
  {
    assert FailureAt(events) == k;
    SpelledDeltas(events[..k], spots, pieces);
  }

  /** The response answered is the last one sent, if there is any. */
  lemma {:induction false} LastResponseSent(events: seq<Event>)
    ensures LastResponse(events) == None <==> forall k :: 0 <= k < |events| ==> events[k].response == None
    ensures LastResponse(events).Some? ==>
              exists k :: 0 <= k < |events| && events[k].response == LastResponse(events) &&
                          forall j :: k < j < |events| ==> events[j].response == None
  {
    if events != [] {
      var front, last := events[..|events| - 1], events[|events| - 1];
      LastResponseSent(front);
      if last.response == None && LastResponse(front).Some? {
        var k :| 0 <= k < |front| && front[k].response == LastResponse(front) &&
                 forall j :: k < j < |front| ==> front[j].response == None;
        assert events[k].response == LastResponse(events);
      }
    }
  }
}
