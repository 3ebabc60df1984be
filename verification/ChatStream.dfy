/** Reassembly of a chat completion from its stream of decoded events. */
module ChatStream {
  import opened Collections

  // An absent or non-string field is the empty string, an absent index is 0.
  datatype ToolDelta = ToolDelta(index: int, id: string, name: string, arguments: string)
  datatype Choice = Choice(content: string, tools: seq<ToolDelta>)
  datatype Event = Choices(id: string, choices: seq<Choice>) | ErrorEvent(id: string, message: string)

  datatype Call = Call(id: string, name: string, arguments: string)
  datatype Parsed = Failure(message: string) | Completion(id: string, text: string, calls: seq<Call>)

  function Concat(parts: seq<string>): string {
    if parts == [] then "" else Concat(parts[..|parts| - 1]) + parts[|parts| - 1]
  }

  lemma {:induction false} ConcatAppend(a: seq<string>, b: seq<string>)
    ensures Concat(a + b) == Concat(a) + Concat(b)
  {
    if b == [] {
      assert a + b == a;
    } else {
      ConcatAppend(a, b[..|b| - 1]);
      assert (a + b)[..|a + b| - 1] == a + b[..|b| - 1];
    }
  }

  function ContentsOf(choices: seq<Choice>): seq<string> {
    if choices == [] then []
    else ContentsOf(choices[..|choices| - 1]) +
         if choices[|choices| - 1].content == "" then [] else [choices[|choices| - 1].content]
  }

  function ToolsOf(choices: seq<Choice>): seq<ToolDelta> {
    if choices == [] then [] else ToolsOf(choices[..|choices| - 1]) + choices[|choices| - 1].tools
  }

  function ChoicesOf(events: seq<Event>): seq<Choice> {
    if events == [] then []
    else ChoicesOf(events[..|events| - 1]) + if events[|events| - 1].Choices? then events[|events| - 1].choices else []
  }

  function LastId(events: seq<Event>): string {
    if events == [] then ""
    else if events[|events| - 1].id != "" then events[|events| - 1].id else LastId(events[..|events| - 1])
  }

  // ---------------------------------------------------------------- what the parser does

  /** The accumulator of one index after one more fragment: later ids and names win, arguments are appended. */
  function Merge(acc: Call, d: ToolDelta): Call {
    Call(if d.id != "" then d.id else acc.id, if d.name != "" then d.name else acc.name, acc.arguments + d.arguments)
  }

  function Accumulate(m: map<int, Call>, ds: seq<ToolDelta>): map<int, Call> {
    if ds == [] then m
    else
      var m', d := Accumulate(m, ds[..|ds| - 1]), ds[|ds| - 1];
      m'[d.index := Merge(if d.index in m' then m'[d.index] else Call("", "", ""), d)]
  }

  lemma {:induction false} AccumulateAppend(m: map<int, Call>, a: seq<ToolDelta>, b: seq<ToolDelta>, m': map<int, Call>)
    requires m' == Accumulate(m, a)
    ensures Accumulate(m, a + b) == Accumulate(m', b)
  {
    if b == [] {
      assert a + b == a;
    } else {
      AccumulateAppend(m, a, b[..|b| - 1], m');
      assert (a + b)[..|a + b| - 1] == a + b[..|b| - 1];
    }
  }

  method ApplyTool(m: map<int, Call>, d: ToolDelta) returns (r: map<int, Call>)
    ensures r == m[d.index := Merge(if d.index in m then m[d.index] else Call("", "", ""), d)]
  {
    var acc := if d.index in m then m[d.index] else Call("", "", "");
    assert acc.arguments + "" == acc.arguments;
    if d.id != "" { acc := acc.(id := d.id); }
    if d.name != "" { acc := acc.(name := d.name); }
    if d.arguments != "" { acc := acc.(arguments := acc.arguments + d.arguments); }
    r := m[d.index := acc];
  }

  method ApplyTools(m: map<int, Call>, ds: seq<ToolDelta>) returns (r: map<int, Call>)
    ensures r == Accumulate(m, ds)
  {
    r := m;
    for k := 0 to |ds|
      invariant r == Accumulate(m, ds[..k])
    {
      assert ds[..k + 1][..k] == ds[..k];
      r := ApplyTool(r, ds[k]);
    }
    assert ds[..|ds|] == ds;
  }

  predicate Increasing(s: seq<int>) {
    forall i, j :: 0 <= i < j < |s| ==> s[i] < s[j]
  }

  /** The keys of the accumulator map, sorted. */
  method SortedKeys(m: map<int, Call>) returns (s: seq<int>)
    ensures Increasing(s) && forall i :: i in s <==> i in m
  {
    s := [];
    var left := m.Keys;
    while left != {}
      invariant left <= m.Keys && Increasing(s)
      invariant forall i :: i in s <==> i in m && i !in left
      invariant forall i, j :: i in s && j in left ==> i < j
      decreases |left|
    {
      var least := Least(left);
      assert forall k :: 0 <= k < |s| ==> s[k] in s;
      s, left := s + [least], left - {least};
    }
  }

  method Least(s: set<int>) returns (m: int)
    requires s != {}
    ensures m in s && forall i :: i in s ==> m <= i
  {
    m := Pick(s);
    var left := s - {m};
    while left != {}
      invariant m in s && left <= s && forall i :: i in s && i !in left ==> m <= i
      decreases |left|
    {
      var i := Pick(left);
      if i < m { m := i; }
      left := left - {i};
    }
  }

  function CallsAt(m: map<int, Call>, indices: seq<int>): seq<Call>
    requires forall k :: 0 <= k < |indices| ==> indices[k] in m
  {
    seq(|indices|, k requires 0 <= k < |indices| => m[indices[k]])
  }

  ghost predicate NoErrors(events: seq<Event>, n: nat) {
    forall k :: 0 <= k < n && k < |events| ==> events[k].Choices?
  }

  /** What the parser answers for a stream without error events, and the deltas it passes on. */
  ghost predicate Reassembled(events: seq<Event>, r: Parsed, emitted: seq<string>) {
    && r.Completion? && r.id == LastId(events) && r.text == Concat(emitted) && emitted == ContentsOf(ChoicesOf(events))
    && exists ix :: CallsInOrder(Accumulate(map[], ToolsOf(ChoicesOf(events))), ix, r.calls)
  }

  /** What the parser answers for any stream. */
  ghost predicate Answers(events: seq<Event>, r: Parsed, emitted: seq<string>) {
    if events == [] then r == Failure("empty sse response") && emitted == []
    else if NoErrors(events, |events|) then Reassembled(events, r, emitted)
    else r == Failure(events[FirstError(events)].message) && emitted == ContentsOf(ChoicesOf(events[..FirstError(events)]))
  }

  /** `parseChatCompletionsSSE` from decoded events on; `emitted` are the deltas passed on as they come. */
  method ParseChat(events: seq<Event>) returns (r: Parsed, emitted: seq<string>)
    ensures Answers(events, r, emitted)
    ensures r.Failure? <==> events == [] || !NoErrors(events, |events|)
  {
    var id, text, calls := "", "", map[];
    emitted := [];
    for k := 0 to |events|
      invariant NoErrors(events, k)
      invariant id == LastId(events[..k]) && text == Concat(emitted) && emitted == ContentsOf(ChoicesOf(events[..k]))
      invariant calls == Accumulate(map[], ToolsOf(ChoicesOf(events[..k])))
    {
      var e := events[k];
      assert events[..k + 1][..k] == events[..k];
      if e.id != "" { id := e.id; }
      if e.ErrorEvent? {
        FirstErrorIs(events, k);
        return Failure(e.message), emitted;
      }
      ContentsAppend(ChoicesOf(events[..k]), e.choices);
      AccumulateAppend(map[], ToolsOf(ChoicesOf(events[..k])), ToolsOf(e.choices), calls);
      var cs;
      calls, cs := ApplyChoices(calls, e.choices);
      ConcatAppend(emitted, cs);
      text := text + Concat(cs);
      emitted := emitted + cs;
    }
    assert events[..|events|] == events;
    if events == [] { return Failure("empty sse response"), emitted; }
    var indices := SortedKeys(calls);
    assert forall k :: 0 <= k < |indices| ==> indices[k] in indices;
    assert CallsInOrder(calls, indices, CallsAt(calls, indices));
    r := Completion(id, text, CallsAt(calls, indices));
  }

  ghost predicate CallsInOrder(m: map<int, Call>, ix: seq<int>, calls: seq<Call>) {
    && Increasing(ix) && (forall i :: i in ix <==> i in m)
    && |calls| == |ix| && forall k :: 0 <= k < |ix| ==> calls[k] == m[ix[k]]
  }

  function FirstError(events: seq<Event>): (k: nat)
    requires exists k :: 0 <= k < |events| && events[k].ErrorEvent?
    ensures k < |events| && events[k].ErrorEvent? && forall j :: 0 <= j < k ==> events[j].Choices?
  {
    if events[0].ErrorEvent? then 0
    else
      assert events[1..] != [] && exists k :: 0 <= k < |events[1..]| && events[1..][k].ErrorEvent? by {
        var k :| 0 <= k < |events| && events[k].ErrorEvent?;
        assert events[1..][k - 1].ErrorEvent?;
      }
      var k := FirstError(events[1..]);
      assert forall j :: 0 < j < k + 1 ==> events[j] == events[1..][j - 1];
      k + 1
  }

  lemma FirstErrorIs(events: seq<Event>, k: nat)
    requires k < |events| && events[k].ErrorEvent? && NoErrors(events, k)
    ensures FirstError(events) == k
  {
    assert FirstError(events) >= k;
  }

  method ApplyChoices(m: map<int, Call>, choices: seq<Choice>) returns (r: map<int, Call>, cs: seq<string>)
    ensures r == Accumulate(m, ToolsOf(choices)) && cs == ContentsOf(choices)
  {
    r, cs := m, [];
    for k := 0 to |choices|
      invariant r == Accumulate(m, ToolsOf(choices[..k])) && cs == ContentsOf(choices[..k])
    {
      assert choices[..k + 1][..k] == choices[..k];
      if choices[k].content != "" { cs := cs + [choices[k].content]; }
      AccumulateAppend(m, ToolsOf(choices[..k]), choices[k].tools, r);
      r := ApplyTools(r, choices[k].tools);
    }
    assert choices[..|choices|] == choices;
  }

  lemma {:induction false} ContentsAppend(a: seq<Choice>, b: seq<Choice>)
    ensures ContentsOf(a + b) == ContentsOf(a) + ContentsOf(b)
    ensures ToolsOf(a + b) == ToolsOf(a) + ToolsOf(b)
  {
    ToolsAppend(a, b);
    if b == [] {
      assert a + b == a;
    } else {
      var c, x := b[..|b| - 1], b[|b| - 1];
      ContentsAppend(a, c);
      assert (a + b)[..|a + b| - 1] == a + c && (a + b)[|a + b| - 1] == x;
      Regroup(ContentsOf(a), ContentsOf(c), if x.content == "" then [] else [x.content]);
    }
  }

  lemma {:induction false} ToolsAppend(a: seq<Choice>, b: seq<Choice>)
    ensures ToolsOf(a + b) == ToolsOf(a) + ToolsOf(b)
  {
    if b == [] {
      assert a + b == a;
    } else {
      var c, x := b[..|b| - 1], b[|b| - 1];
      ToolsAppend(a, c);
      assert (a + b)[..|a + b| - 1] == a + c && (a + b)[|a + b| - 1] == x;
      Regroup(ToolsOf(a), ToolsOf(c), x.tools);
    }
  }

  // ---------------------------------------------------------------- fragmentation and interleaving

  function AtIndex(ds: seq<ToolDelta>, i: int): seq<ToolDelta> {
    if ds == [] then []
    else AtIndex(ds[..|ds| - 1], i) + if ds[|ds| - 1].index == i then [ds[|ds| - 1]] else []
  }

  function MergeAll(ds: seq<ToolDelta>): Call {
    if ds == [] then Call("", "", "") else Merge(MergeAll(ds[..|ds| - 1]), ds[|ds| - 1])
  }

  /** The accumulator of an index depends only on that index's fragments, in their order. */
  lemma {:induction false} AccumulatorsIndependent(ds: seq<ToolDelta>, i: int)
    ensures i in Accumulate(map[], ds) <==> AtIndex(ds, i) != []
    ensures i in Accumulate(map[], ds) ==> Accumulate(map[], ds)[i] == MergeAll(AtIndex(ds, i))
  {
    if ds != [] {
      AccumulatorsIndependent(ds[..|ds| - 1], i);
      var a := AtIndex(ds[..|ds| - 1], i);
      assert (a + [ds[|ds| - 1]])[..|a|] == a && a + [] == a;
    }
  }

  lemma HasMember(s: seq<int>) returns (i: int)
    requires s != []
    ensures i in s
  {
    i := s[0];
  }

  lemma {:induction false} IncreasingUnique(a: seq<int>, b: seq<int>)
    requires Increasing(a) && Increasing(b) && forall i :: i in a <==> i in b
    ensures a == b
  {
    if a == [] || b == [] {
      if a != b { var i := HasMember(if a == [] then b else a); }
    } else {
      assert a[0] in b && b[0] in a;
      assert a[0] == b[0];
      forall i ensures i in a[1..] <==> i in b[1..] {
        assert i in a[1..] ==> i in a && i != a[0];
        assert i in b[1..] ==> i in b && i != b[0];
        assert i in a && i != a[0] ==> i in a[1..];
        assert i in b && i != b[0] ==> i in b[1..];
      }
      IncreasingUnique(a[1..], b[1..]);
    }
  }

  lemma SameAccumulators(a: seq<ToolDelta>, b: seq<ToolDelta>)
    requires forall i :: AtIndex(a, i) == AtIndex(b, i)
    ensures Accumulate(map[], a) == Accumulate(map[], b)
  {
    forall i ensures i in Accumulate(map[], a) <==> i in Accumulate(map[], b)
             ensures i in Accumulate(map[], a) ==> Accumulate(map[], a)[i] == Accumulate(map[], b)[i] {
      AccumulatorsIndependent(a, i);
      AccumulatorsIndependent(b, i);
    }
  }

  lemma CallsUnique(accs: map<int, Call>, ix: seq<int>, ix': seq<int>, calls: seq<Call>, calls': seq<Call>)
    requires CallsInOrder(accs, ix, calls) && CallsInOrder(accs, ix', calls')
    ensures calls == calls'
  {
    assert forall i :: i in ix <==> i in ix';
    IncreasingUnique(ix, ix');
  }

  /** Two streams that agree on the joined text and, index by index, on the fragments give the same
      text and calls, whatever the order between indices. */
  lemma OrderBetweenCallsIrrelevant(ea: seq<Event>, eb: seq<Event>, ra: Parsed, rb: Parsed)
    requires exists ca, cb :: Reassembled(ea, ra, ca) && Reassembled(eb, rb, cb) && Concat(ca) == Concat(cb)
    requires forall i :: AtIndex(ToolsOf(ChoicesOf(ea)), i) == AtIndex(ToolsOf(ChoicesOf(eb)), i)
    ensures ra.text == rb.text && ra.calls == rb.calls
  {
    var a, b := ToolsOf(ChoicesOf(ea)), ToolsOf(ChoicesOf(eb));
    SameAccumulators(a, b);
    var ca, cb :| Reassembled(ea, ra, ca) && Reassembled(eb, rb, cb) && Concat(ca) == Concat(cb);
    var ixa :| CallsInOrder(Accumulate(map[], a), ixa, ra.calls);
    var ixb :| CallsInOrder(Accumulate(map[], b), ixb, rb.calls);
    CallsUnique(Accumulate(map[], a), ixa, ixb, ra.calls, rb.calls);
  }
}
