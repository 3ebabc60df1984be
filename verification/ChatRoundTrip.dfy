/** The round trip of a chat completion, stated by where a producer puts what. */
module ChatRoundTrip {
  import opened Collections
  import opened ChatStream

  // ---------------------------------------------------------------- where things stand in a stream

  /** Positions in a stream: event, choice in it, tool fragment in that. */
  datatype Place = Place(event: nat, choice: nat, tool: nat)

  predicate Before(p: Place, q: Place) {
    p.event < q.event || (p.event == q.event && (p.choice < q.choice || (p.choice == q.choice && p.tool < q.tool)))
  }

  predicate HasChoice(events: seq<Event>, e: nat, c: nat) {
    e < |events| && events[e].Choices? && c < |events[e].choices|
  }

  predicate HasTool(events: seq<Event>, p: Place) {
    HasChoice(events, p.event, p.choice) && p.tool < |events[p.event].choices[p.choice].tools|
  }

  function ToolAt(events: seq<Event>, p: Place): ToolDelta
    requires HasTool(events, p)
  {
    events[p.event].choices[p.choice].tools[p.tool]
  }

  /** The position of a choice among all choices. */
  function ChoiceIndex(events: seq<Event>, e: nat, c: nat): nat
    requires e <= |events|
  {
    |ChoicesOf(events[..e])| + c
  }

  lemma {:induction false} ChoiceIs(events: seq<Event>, e: nat, c: nat)
    requires HasChoice(events, e, c)
    ensures ChoiceIndex(events, e, c) < |ChoicesOf(events)|
    ensures ChoicesOf(events)[ChoiceIndex(events, e, c)] == events[e].choices[c]
  {
    var front := events[..|events| - 1];
    if e < |front| {
      ChoiceIs(front, e, c);
      assert front[..e] == events[..e];
    }
  }

  lemma {:induction false} ChoiceOf(events: seq<Event>, j: nat) returns (e: nat, c: nat)
    requires j < |ChoicesOf(events)|
    ensures HasChoice(events, e, c) && ChoiceIndex(events, e, c) == j
  {
    var front := events[..|events| - 1];
    if j < |ChoicesOf(front)| {
      e, c := ChoiceOf(front, j);
      assert front[..e] == events[..e];
    } else {
      e, c := |front|, j - |ChoicesOf(front)|;
    }
  }

  lemma ChoicesIncrease(events: seq<Event>, e: nat, c: nat, e': nat, c': nat)
    requires HasChoice(events, e, c) && e < e' < |events|
    ensures ChoiceIndex(events, e, c) < ChoiceIndex(events, e', c')
  {
    ChoiceIs(events[..e'], e, c);
    assert events[..e'][..e] == events[..e];
  }

  /** The position of a fragment among those of a list of choices. */
  function ToolIndex(choices: seq<Choice>, h: nat, t: nat): nat
    requires h <= |choices|
  {
    |ToolsOf(choices[..h])| + t
  }

  lemma {:induction false} ToolIs(choices: seq<Choice>, h: nat, t: nat)
    requires h < |choices| && t < |choices[h].tools|
    ensures ToolIndex(choices, h, t) < |ToolsOf(choices)| && ToolsOf(choices)[ToolIndex(choices, h, t)] == choices[h].tools[t]
  {
    var front := choices[..|choices| - 1];
    if h < |front| {
      ToolIs(front, h, t);
      assert front[..h] == choices[..h];
    }
  }

  lemma {:induction false} ToolOf(choices: seq<Choice>, j: nat) returns (h: nat, t: nat)
    requires j < |ToolsOf(choices)|
    ensures h < |choices| && t < |choices[h].tools| && ToolIndex(choices, h, t) == j
  {
    var front := choices[..|choices| - 1];
    if j < |ToolsOf(front)| {
      h, t := ToolOf(front, j);
      assert front[..h] == choices[..h];
    } else {
      h, t := |front|, j - |ToolsOf(front)|;
    }
  }

  lemma ToolsIncrease(choices: seq<Choice>, h: nat, t: nat, h': nat, t': nat)
    requires h < h' < |choices| && t < |choices[h].tools|
    ensures ToolIndex(choices, h, t) < ToolIndex(choices, h', t')
  {
    ToolIs(choices[..h'], h, t);
    assert choices[..h'][..h] == choices[..h];
  }

  /** The position of a fragment among all fragments. */
  function Index(events: seq<Event>, p: Place): nat
    requires HasTool(events, p)
  {
    ChoiceIs(events, p.event, p.choice);
    ToolIndex(ChoicesOf(events), ChoiceIndex(events, p.event, p.choice), p.tool)
  }

  lemma IndexIs(events: seq<Event>, p: Place)
    requires HasTool(events, p)
    ensures Index(events, p) < |ToolsOf(ChoicesOf(events))| && ToolsOf(ChoicesOf(events))[Index(events, p)] == ToolAt(events, p)
  {
    ChoiceIs(events, p.event, p.choice);
    ToolIs(ChoicesOf(events), ChoiceIndex(events, p.event, p.choice), p.tool);
  }

  lemma PlaceOf(events: seq<Event>, j: nat) returns (p: Place)
    requires j < |ToolsOf(ChoicesOf(events))|
    ensures HasTool(events, p) && Index(events, p) == j
  {
    var h, t := ToolOf(ChoicesOf(events), j);
    var e, c := ChoiceOf(events, h);
    ChoiceIs(events, e, c);
    p := Place(e, c, t);
  }

  lemma IndexIncreases(events: seq<Event>, p: Place, q: Place)
    requires HasTool(events, p) && HasTool(events, q) && Before(p, q)
    ensures Index(events, p) < Index(events, q)
  {
    ChoiceIs(events, p.event, p.choice);
    ChoiceIs(events, q.event, q.choice);
    if p.event < q.event { ChoicesIncrease(events, p.event, p.choice, q.event, q.choice); }
    if p.event < q.event || p.choice < q.choice {
      ToolsIncrease(ChoicesOf(events), ChoiceIndex(events, p.event, p.choice), p.tool,
                    ChoiceIndex(events, q.event, q.choice), q.tool);
    }
  }

  // ---------------------------------------------------------------- texts cut into pieces

  /** The pieces are the whole, cut at these offsets. */
  ghost predicate CutInto(whole: string, cuts: seq<nat>, pieces: seq<string>) {
    && |cuts| == |pieces| + 1 && cuts[0] == 0 && cuts[|pieces|] == |whole|
    && forall k :: 0 <= k < |pieces| ==> IsPiece(whole, cuts[k], cuts[k + 1], pieces[k])
  }

  predicate IsPiece(whole: string, from: nat, to: nat, piece: string) {
    from <= to <= |whole| && piece == whole[from..to]
  }

  lemma {:induction false} CutJoins(whole: string, cuts: seq<nat>, pieces: seq<string>, n: nat)
    requires CutInto(whole, cuts, pieces) && n <= |pieces|
    ensures cuts[n] <= |whole| && Concat(pieces[..n]) == whole[..cuts[n]]
  {
    if n > 0 {
      CutJoins(whole, cuts, pieces, n - 1);
      assert pieces[..n][..n - 1] == pieces[..n - 1];
      assert whole[..cuts[n]] == whole[..cuts[n - 1]] + whole[cuts[n - 1]..cuts[n]];
    }
  }

  datatype Spot = Spot(event: nat, choice: nat)

  /** The pieces stand, in order, at these places, and no other choice has any content. */
  ghost predicate Spelled(events: seq<Event>, spots: seq<Spot>, pieces: seq<string>) {
    && |spots| == |pieces|
    && (forall k :: 0 <= k < |spots| ==> pieces[k] != "" && SpotHas(events, spots[k], pieces[k]))
    && (forall j, k :: 0 <= j < k < |spots| ==> Earlier(spots[j], spots[k]))
    && (forall e: nat, c: nat :: HasChoice(events, e, c) && events[e].choices[c].content != "" ==> Spot(e, c) in spots)
  }

  predicate SpotHas(events: seq<Event>, s: Spot, content: string) {
    HasChoice(events, s.event, s.choice) && events[s.event].choices[s.choice].content == content
  }

  predicate Earlier(s: Spot, t: Spot) {
    s.event < t.event || (s.event == t.event && s.choice < t.choice)
  }

  /** These are the positions of the choices with content. */
  ghost predicate Speaking(choices: seq<Choice>, pos: seq<nat>) {
    && (forall j, k :: 0 <= j < k < |pos| ==> pos[j] < pos[k])
    && (forall k :: 0 <= k < |pos| ==> pos[k] < |choices| && choices[pos[k]].content != "")
    && (forall h: nat :: h < |choices| && choices[h].content != "" ==> h in pos)
  }

  lemma {:induction false} ContentsAre(choices: seq<Choice>, pos: seq<nat>)
    requires Speaking(choices, pos)
    ensures |ContentsOf(choices)| == |pos|
    ensures forall k :: 0 <= k < |pos| ==> ContentsOf(choices)[k] == choices[pos[k]].content
  {
    if choices == [] {
      assert pos == [];
    } else {
      var n := |choices| - 1;
      var front := choices[..n];
      if choices[n].content != "" {
        SpeakingLess(choices, pos);
        ContentsAre(front, pos[..|pos| - 1]);
        assert ContentsOf(choices) == ContentsOf(front) + [choices[n].content];
      } else {
        ContentsAre(front, pos);
        assert ContentsOf(choices) == ContentsOf(front);
      }
    }
  }

  lemma SpeakingLess(choices: seq<Choice>, pos: seq<nat>)
    requires choices != [] && choices[|choices| - 1].content != "" && Speaking(choices, pos)
    ensures pos != [] && pos[|pos| - 1] == |choices| - 1 && Speaking(choices[..|choices| - 1], pos[..|pos| - 1])
  {
    var n, m := |choices| - 1, |pos| - 1;
    assert n in pos;
    forall h: nat | h < n && choices[h].content != "" ensures h in pos[..m] {
      assert h in pos;
    }
  }

  lemma {:induction false} SpotIndices(events: seq<Event>, spots: seq<Spot>) returns (pos: seq<nat>)
    requires forall k :: 0 <= k < |spots| ==> HasChoice(events, spots[k].event, spots[k].choice)
    ensures |pos| == |spots|
    ensures forall k :: 0 <= k < |pos| ==>
              HasChoice(events, spots[k].event, spots[k].choice) && pos[k] == ChoiceIndex(events, spots[k].event, spots[k].choice)
  {
    if spots == [] {
      pos := [];
    } else {
      pos := SpotIndices(events, spots[..|spots| - 1]);
      pos := pos + [ChoiceIndex(events, spots[|spots| - 1].event, spots[|spots| - 1].choice)];
    }
  }

  /** The contents of a stream are the pieces put into it. */
  lemma SpelledContents(events: seq<Event>, spots: seq<Spot>, pieces: seq<string>)
    requires Spelled(events, spots, pieces)
    ensures ContentsOf(ChoicesOf(events)) == pieces
  {
    var choices := ChoicesOf(events);
    forall k | 0 <= k < |spots| ensures HasChoice(events, spots[k].event, spots[k].choice) {
      assert SpotHas(events, spots[k], pieces[k]);
    }
    var pos := SpotIndices(events, spots);
    forall k | 0 <= k < |pos| ensures pos[k] < |choices| && choices[pos[k]].content == pieces[k] != "" {
      assert SpotHas(events, spots[k], pieces[k]);
      ChoiceIs(events, spots[k].event, spots[k].choice);
    }
    forall j, k | 0 <= j < k < |pos| ensures pos[j] < pos[k] {
      assert SpotHas(events, spots[j], pieces[j]) && SpotHas(events, spots[k], pieces[k]) && Earlier(spots[j], spots[k]);
      if spots[j].event < spots[k].event {
        ChoicesIncrease(events, spots[j].event, spots[j].choice, spots[k].event, spots[k].choice);
      }
    }
    forall h: nat | h < |choices| && choices[h].content != "" ensures h in pos {
      var e, c := ChoiceOf(events, h);
      ChoiceIs(events, e, c);
      assert Spot(e, c) in spots;
      var k :| 0 <= k < |spots| && spots[k] == Spot(e, c);
      assert pos[k] == h;
    }
    ContentsAre(choices, pos);
  }

  // ---------------------------------------------------------------- calls cut into fragments

  /** The last non-empty id among the fragments is this one; it is empty if all are. */
  ghost predicate IdSaid(part: seq<ToolDelta>, id: string) {
    if id == "" then forall m :: 0 <= m < |part| ==> part[m].id == ""
    else exists m :: 0 <= m < |part| && part[m].id == id && forall j :: m < j < |part| ==> part[j].id == ""
  }

  ghost predicate NameSaid(part: seq<ToolDelta>, name: string) {
    if name == "" then forall m :: 0 <= m < |part| ==> part[m].name == ""
    else exists m :: 0 <= m < |part| && part[m].name == name && forall j :: m < j < |part| ==> part[j].name == ""
  }

  function Args(part: seq<ToolDelta>): seq<string> {
    seq(|part|, k requires 0 <= k < |part| => part[k].arguments)
  }

  /** How a producer may cut one call up: at least one fragment, the last id and the last name sent are the
      right ones, the argument pieces are the arguments cut somewhere. */
  ghost predicate Fragments(part: seq<ToolDelta>, call: Call, cuts: seq<nat>) {
    part != [] && IdSaid(part, call.id) && NameSaid(part, call.name) && CutInto(call.arguments, cuts, Args(part))
  }

  lemma {:induction false} MergedId(part: seq<ToolDelta>, id: string)
    requires IdSaid(part, id)
    ensures MergeAll(part).id == id
  {
    if part != [] {
      var front, d := part[..|part| - 1], part[|part| - 1];
      if d.id == "" {
        if id != "" {
          var m :| 0 <= m < |part| && part[m].id == id && forall j :: m < j < |part| ==> part[j].id == "";
          assert front[m].id == id;
        }
        MergedId(front, id);
      }
    }
  }

  lemma {:induction false} MergedName(part: seq<ToolDelta>, name: string)
    requires NameSaid(part, name)
    ensures MergeAll(part).name == name
  {
    if part != [] {
      var front, d := part[..|part| - 1], part[|part| - 1];
      if d.name == "" {
        if name != "" {
          var m :| 0 <= m < |part| && part[m].name == name && forall j :: m < j < |part| ==> part[j].name == "";
          assert front[m].name == name;
        }
        MergedName(front, name);
      }
    }
  }

  lemma {:induction false} MergedArguments(part: seq<ToolDelta>, n: nat)
    requires n <= |part|
    ensures MergeAll(part[..n]).arguments == Concat(Args(part)[..n])
  {
    if n > 0 {
      MergedArguments(part, n - 1);
      assert part[..n][..n - 1] == part[..n - 1] && Args(part)[..n][..n - 1] == Args(part)[..n - 1];
    }
  }

  lemma MergedCall(part: seq<ToolDelta>, call: Call, cuts: seq<nat>)
    requires Fragments(part, call, cuts)
    ensures MergeAll(part) == call
  {
    var n := |part|;
    MergedId(part, call.id);
    MergedName(part, call.name);
    MergedArguments(part, n);
    CutJoins(call.arguments, cuts, Args(part), n);
    assert part[..n] == part && Args(part)[..n] == Args(part) && call.arguments[..cuts[n]] == call.arguments;
  }

  /** These are the positions of the fragments of an index. */
  ghost predicate Indexed(ds: seq<ToolDelta>, i: int, pos: seq<nat>) {
    && (forall j, k :: 0 <= j < k < |pos| ==> pos[j] < pos[k])
    && (forall k :: 0 <= k < |pos| ==> pos[k] < |ds| && ds[pos[k]].index == i)
    && (forall h: nat :: h < |ds| && ds[h].index == i ==> h in pos)
  }

  lemma {:induction false} AtIndexAre(ds: seq<ToolDelta>, i: int, pos: seq<nat>)
    requires Indexed(ds, i, pos)
    ensures |AtIndex(ds, i)| == |pos|
    ensures forall k :: 0 <= k < |pos| ==> AtIndex(ds, i)[k] == ds[pos[k]]
  {
    if ds == [] {
      assert pos == [];
    } else {
      var n := |ds| - 1;
      var front := ds[..n];
      if ds[n].index == i {
        IndexedLess(ds, i, pos);
        AtIndexAre(front, i, pos[..|pos| - 1]);
        assert AtIndex(ds, i) == AtIndex(front, i) + [ds[n]];
      } else {
        AtIndexAre(front, i, pos);
        assert AtIndex(ds, i) == AtIndex(front, i);
      }
    }
  }

  lemma IndexedLess(ds: seq<ToolDelta>, i: int, pos: seq<nat>)
    requires ds != [] && ds[|ds| - 1].index == i && Indexed(ds, i, pos)
    ensures pos != [] && pos[|pos| - 1] == |ds| - 1 && Indexed(ds[..|ds| - 1], i, pos[..|pos| - 1])
  {
    var n, m := |ds| - 1, |pos| - 1;
    assert n in pos;
    forall h: nat | h < n && ds[h].index == i ensures h in pos[..m] {
      assert h in pos;
    }
  }

  /** The fragments of an index stand, in order, at these places, and nowhere else. */
  ghost predicate Sent(events: seq<Event>, i: int, at: seq<Place>, part: seq<ToolDelta>) {
    && |at| == |part|
    && (forall m :: 0 <= m < |at| ==> PlaceHas(events, at[m], part[m]) && part[m].index == i)
    && (forall j, m :: 0 <= j < m < |at| ==> Before(at[j], at[m]))
    && (forall p :: HasTool(events, p) && ToolAt(events, p).index == i ==> p in at)
  }

  predicate PlaceHas(events: seq<Event>, p: Place, d: ToolDelta) {
    HasTool(events, p) && ToolAt(events, p) == d
  }

  lemma {:induction false} PlaceIndices(events: seq<Event>, at: seq<Place>) returns (pos: seq<nat>)
    requires forall k :: 0 <= k < |at| ==> HasTool(events, at[k])
    ensures |pos| == |at| && forall k :: 0 <= k < |pos| ==> pos[k] == Index(events, at[k])
  {
    if at == [] {
      pos := [];
    } else {
      pos := PlaceIndices(events, at[..|at| - 1]);
      pos := pos + [Index(events, at[|at| - 1])];
    }
  }

  /** The fragments of an index, in stream order, are those sent under it. */
  lemma SentFragments(events: seq<Event>, i: int, at: seq<Place>, part: seq<ToolDelta>)
    requires Sent(events, i, at, part)
    ensures AtIndex(ToolsOf(ChoicesOf(events)), i) == part
  {
    var ds := ToolsOf(ChoicesOf(events));
    forall k | 0 <= k < |at| ensures HasTool(events, at[k]) { assert PlaceHas(events, at[k], part[k]); }
    var pos := PlaceIndices(events, at);
    forall k | 0 <= k < |pos| ensures pos[k] < |ds| && ds[pos[k]] == part[k] && part[k].index == i {
      assert PlaceHas(events, at[k], part[k]);
      IndexIs(events, at[k]);
    }
    forall j, k | 0 <= j < k < |pos| ensures pos[j] < pos[k] { IndexIncreases(events, at[j], at[k]); }
    forall h: nat | h < |ds| && ds[h].index == i ensures h in pos {
      var p := PlaceOf(events, h);
      IndexIs(events, p);
      var k :| 0 <= k < |at| && at[k] == p;
      assert pos[k] == h;
    }
    AtIndexAre(ds, i, pos);
  }

  /** A stream into which these calls were put, each under its index, and no other fragment. */
  ghost predicate Carries(events: seq<Event>, calls: seq<Call>, ix: seq<int>, at: seq<seq<Place>>,
                          parts: seq<seq<ToolDelta>>, cuts: seq<seq<nat>>) {
    && |calls| == |ix| == |at| == |parts| == |cuts| && Increasing(ix)
    && (forall k :: 0 <= k < |calls| ==> Sent(events, ix[k], at[k], parts[k]) && Fragments(parts[k], calls[k], cuts[k]))
    && (forall p :: HasTool(events, p) ==> ToolAt(events, p).index in ix)
  }

  lemma CarriedIndices(events: seq<Event>, calls: seq<Call>, ix: seq<int>, at: seq<seq<Place>>,
                       parts: seq<seq<ToolDelta>>, cuts: seq<seq<nat>>, i: int)
    requires Carries(events, calls, ix, at, parts, cuts)
    ensures i in Accumulate(map[], ToolsOf(ChoicesOf(events))) <==> i in ix
  {
    var ds := ToolsOf(ChoicesOf(events));
    AccumulatorsIndependent(ds, i);
    if i in ix {
      var k :| 0 <= k < |ix| && ix[k] == i;
      assert Fragments(parts[k], calls[k], cuts[k]);
      SentFragments(events, i, at[k], parts[k]);
    } else if AtIndex(ds, i) != [] {
      var h := SomeAt(ds, i);
      var p := PlaceOf(events, h);
      IndexIs(events, p);
    }
  }

  lemma {:induction false} SomeAt(ds: seq<ToolDelta>, i: int) returns (h: nat)
    requires AtIndex(ds, i) != []
    ensures h < |ds| && ds[h].index == i
  {
    h := |ds| - 1;
    if ds[h].index != i { h := SomeAt(ds[..h], i); }
  }

  /** The round trip. Take any text, cut in any way into non-empty pieces, and any calls at increasing indices,
      each cut in any way into fragments, and put pieces and fragments into a stream in any way that keeps the
      pieces in order and the fragments of each call in order: what the parser answers is the text and the
      calls in index order, and the deltas it passes on are the pieces. */
  lemma ReassemblyExact(events: seq<Event>, text: string, textCuts: seq<nat>, spots: seq<Spot>, pieces: seq<string>,
                        calls: seq<Call>, ix: seq<int>, at: seq<seq<Place>>, parts: seq<seq<ToolDelta>>, cuts: seq<seq<nat>>,
                        r: Parsed, emitted: seq<string>)
    requires CutInto(text, textCuts, pieces) && Spelled(events, spots, pieces)
    requires Carries(events, calls, ix, at, parts, cuts)
    requires events != [] && (forall k :: 0 <= k < |events| ==> events[k].Choices?) && Answers(events, r, emitted)
    ensures r.text == text && r.calls == calls && emitted == pieces
  {
    var ds := ToolsOf(ChoicesOf(events));
    SpelledContents(events, spots, pieces);
    CutJoins(text, textCuts, pieces, |pieces|);
    assert pieces[..|pieces|] == pieces && text[..|text|] == text;
    var ix' :| CallsInOrder(Accumulate(map[], ds), ix', r.calls);
    forall i ensures i in ix <==> i in ix' { CarriedIndices(events, calls, ix, at, parts, cuts, i); }
    IncreasingUnique(ix, ix');
    forall k | 0 <= k < |calls| ensures r.calls[k] == calls[k] {
      assert Sent(events, ix[k], at[k], parts[k]) && Fragments(parts[k], calls[k], cuts[k]);
      SentFragments(events, ix[k], at[k], parts[k]);
      AccumulatorsIndependent(ds, ix[k]);
      MergedCall(parts[k], calls[k], cuts[k]);
    }
  }

  /** At the first error event the parser gives up with its message, and has passed on the pieces before it. */
  lemma ErrorEnds(events: seq<Event>, k: nat, spots: seq<Spot>, pieces: seq<string>, r: Parsed, emitted: seq<string>)
    requires k < |events| && events[k].ErrorEvent? && forall j :: 0 <= j < k ==> events[j].Choices?
    requires Spelled(events[..k], spots, pieces) && Answers(events, r, emitted)
    ensures r == Failure(events[k].message) && emitted == pieces
  {
    FirstErrorIs(events, k);
    SpelledContents(events[..k], spots, pieces);
  }

  /** The id answered is the last one sent that is not empty, if there is any. */
  lemma {:induction false} LastIdSent(events: seq<Event>)
    ensures LastId(events) == "" <==> forall k :: 0 <= k < |events| ==> events[k].id == ""
    ensures LastId(events) != "" ==>
              exists k :: 0 <= k < |events| && events[k].id == LastId(events) && forall j :: k < j < |events| ==> events[j].id == ""
  {
    if events != [] {
      var front, last := events[..|events| - 1], events[|events| - 1];
      LastIdSent(front);
      if last.id == "" && LastId(front) != "" {
        var k :| 0 <= k < |front| && front[k].id == LastId(front) && forall j :: k < j < |front| ==> front[j].id == "";
        assert events[k].id == LastId(events);
      }
    }
  }
}
