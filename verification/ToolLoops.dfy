/** The two bounded tool loops of the assistant and the shape of every transcript they send. */
module ToolLoops {
  import opened Collections
  import opened OutputItems

  const MAX_CALLS: nat := 8

  /** What an entry of a transcript means to the pairing of calls and results. */
  datatype Mark = CallMark(id: string) | ResultMark(id: string) | Other

  function CallIds(t: seq<Mark>): seq<string> {
    if t == [] then []
    else CallIds(t[..|t| - 1]) + if t[|t| - 1].CallMark? then [t[|t| - 1].id] else []
  }

  function ResultIds(t: seq<Mark>): seq<string> {
    if t == [] then []
    else ResultIds(t[..|t| - 1]) + if t[|t| - 1].ResultMark? then [t[|t| - 1].id] else []
  }

  lemma {:induction false} IdsAppend(a: seq<Mark>, b: seq<Mark>)
    ensures CallIds(a + b) == CallIds(a) + CallIds(b) && ResultIds(a + b) == ResultIds(a) + ResultIds(b)
  {
    if b == [] {
      assert a + b == a;
    } else {
      IdsAppend(a, b[..|b| - 1]);
      assert (a + b)[..|a + b| - 1] == a + b[..|b| - 1];
    }
  }

  function Results(ids: seq<string>): seq<Mark> {
    if ids == [] then [] else Results(ids[..|ids| - 1]) + [ResultMark(ids[|ids| - 1])]
  }

  lemma {:induction false} ResultsIds(ids: seq<string>)
    ensures CallIds(Results(ids)) == [] && ResultIds(Results(ids)) == ids
  {
    if ids != [] {
      var front := ids[..|ids| - 1];
      ResultsIds(front);
      IdsNext(Results(front), ResultMark(ids[|ids| - 1]));
      assert ids == front + [ids[|ids| - 1]];
    }
  }

  /** Every result answers a call before it, in call order: of any prefix, the result ids are a prefix of the call ids. */
  predicate Answered(t: seq<Mark>) {
    t == [] || (Answered(t[..|t| - 1]) && ResultIds(t) <= CallIds(t))
  }

  lemma {:induction false} AnsweredPrefix(t: seq<Mark>, m: nat)
    requires Answered(t) && m <= |t|
    ensures Answered(t[..m]) && ResultIds(t[..m]) <= CallIds(t[..m])
  {
    if m == |t| {
      assert t[..m] == t;
    } else {
      AnsweredPrefix(t[..|t| - 1], m);
      assert t[..|t| - 1][..m] == t[..m];
    }
  }

  lemma AnsweredStep(t: seq<Mark>, x: Mark)
    requires Answered(t) && ResultIds(t + [x]) <= CallIds(t + [x])
    ensures Answered(t + [x])
  {
    assert (t + [x])[..|t|] == t;
  }

  lemma IdsNext(t: seq<Mark>, x: Mark)
    ensures CallIds(t + [x]) == CallIds(t) + if x.CallMark? then [x.id] else []
    ensures ResultIds(t + [x]) == ResultIds(t) + if x.ResultMark? then [x.id] else []
  {
    assert (t + [x])[..|t|] == t;
  }

  lemma AnsweredOther(t: seq<Mark>, x: Mark)
    requires Answered(t) && !x.ResultMark?
    ensures Answered(t + [x])
  {
    IdsNext(t, x);
    AnsweredStep(t, x);
  }

  /** Entries with no result in them keep a transcript answered. */
  lemma {:induction false} AnsweredNoResults(t: seq<Mark>, b: seq<Mark>)
    requires Answered(t) && ResultIds(b) == []
    ensures Answered(t + b)
  {
    if b == [] {
      assert t + b == t;
    } else {
      var front, x := b[..|b| - 1], b[|b| - 1];
      assert b == front + [x];
      IdsNext(front, x);
      AnsweredNoResults(t, front);
      AnsweredOther(t + front, x);
      Regroup(t, front, [x]);
    }
  }

  /** Results for the calls still open, or the first of them, in order, keep a transcript answered. */
  lemma {:induction false} AnsweredSome(t: seq<Mark>, ids: seq<string>)
    requires Answered(t) && ResultIds(t) + ids <= CallIds(t)
    ensures Answered(t + Results(ids)) && ResultIds(t + Results(ids)) == ResultIds(t) + ids && CallIds(t + Results(ids)) == CallIds(t)
  {
    ResultsIds(ids);
    IdsAppend(t, Results(ids));
    if ids == [] {
      assert t + Results(ids) == t;
    } else {
      var front := ids[..|ids| - 1];
      AnsweredSome(t, front);
      Regroup(t, Results(front), [ResultMark(ids[|ids| - 1])]);
      AnsweredStep(t + Results(front), ResultMark(ids[|ids| - 1]));
    }
  }

  lemma AnsweredResults(t: seq<Mark>, ids: seq<string>)
    requires Answered(t) && CallIds(t) == ResultIds(t) + ids
    ensures Answered(t + Results(ids)) && ResultIds(t + Results(ids)) == CallIds(t + Results(ids))
  {
    AnsweredSome(t, ids);
  }

  /** One turn: what the model said, with no result of its own in it, then one result per call. */
  lemma AnsweredTurn(t: seq<Mark>, said: seq<Mark>)
    requires Answered(t) && ResultIds(t) == CallIds(t) && ResultIds(said) == []
    ensures Answered(t + said + Results(CallIds(said)))
    ensures ResultIds(t + said + Results(CallIds(said))) == CallIds(t + said + Results(CallIds(said)))
  {
    AnsweredNoResults(t, said);
    IdsAppend(t, said);
    AnsweredResults(t + said, CallIds(said));
  }

  function Count(ids: seq<string>, id: string): nat {
    multiset(ids)[id]
  }

  ghost predicate NoRepeats(ids: seq<string>) {
    forall i, j :: 0 <= i < j < |ids| ==> ids[i] != ids[j]
  }

  lemma {:induction false} NoRepeatsCount(ids: seq<string>)
    ensures NoRepeats(ids) <==> forall id :: id in ids ==> Count(ids, id) == 1
  {
    if ids != [] {
      var front, last := ids[..|ids| - 1], ids[|ids| - 1];
      NoRepeatsCount(front);
      assert ids == front + [last];
      assert forall id :: Count(ids, id) == Count(front, id) + if id == last then 1 else 0;
      assert last in ids && forall id :: id in front ==> id in ids;
      if NoRepeats(ids) {
        assert last !in front;
        assert NoRepeats(front);
      }
      if forall id :: id in ids ==> Count(ids, id) == 1 {
        assert last !in front by { assert Count(ids, last) == Count(front, last) + 1; }
        forall id | id in front ensures Count(front, id) == 1 { assert Count(ids, id) == 1; }
      }
    }
  }

  // ---------------------------------------------------------------- chat completions

  datatype ToolCall = ToolCall(id: string, name: string, arguments: string)

  /** What a tool gives: `run(i, k, call)` is the output of running `call` as the k-th call of the i-th answer. */
  type Runner = (nat, nat, ToolCall) -> string

  datatype Message = Plain(role: string, text: string) | Assistant(text: string, calls: seq<ToolCall>) | Tool(id: string, output: string)
  datatype Answer = Failed | Said(text: string, calls: seq<ToolCall>)
  datatype LoopResult = Final(text: string) | ModelError | Exceeded

  function ChatMarks(m: Message): seq<Mark> {
    match m
    case Plain(_, _) => [Other]
    case Assistant(_, calls) => CallMarks(calls)
    case Tool(id, _) => [ResultMark(id)]
  }

  function CallMarks(calls: seq<ToolCall>): seq<Mark> {
    if calls == [] then [] else CallMarks(calls[..|calls| - 1]) + [CallMark(calls[|calls| - 1].id)]
  }

  function ChatTranscript(ms: seq<Message>): seq<Mark> {
    if ms == [] then [] else ChatTranscript(ms[..|ms| - 1]) + ChatMarks(ms[|ms| - 1])
  }

  ghost predicate AllPlain(ms: seq<Message>) {
    forall k :: 0 <= k < |ms| ==> ms[k].Plain?
  }

  /** A request whose calls are all answered, in order. */
  predicate Good(ms: seq<Message>) {
    Answered(ChatTranscript(ms)) && ResultIds(ChatTranscript(ms)) == CallIds(ChatTranscript(ms))
  }

  /** The ids of the tool calls in the last message the model sent. */
  function IdsOf(calls: seq<ToolCall>): seq<string> {
    if calls == [] then [] else IdsOf(calls[..|calls| - 1]) + [calls[|calls| - 1].id]
  }

  lemma {:induction false} CallMarksIds(calls: seq<ToolCall>)
    ensures CallIds(CallMarks(calls)) == IdsOf(calls) && ResultIds(CallMarks(calls)) == []
  {
    if calls != [] {
      CallMarksIds(calls[..|calls| - 1]);
      IdsNext(CallMarks(calls[..|calls| - 1]), CallMark(calls[|calls| - 1].id));
    }
  }

  lemma {:induction false} PlainMarks(ms: seq<Message>)
    requires AllPlain(ms)
    ensures CallIds(ChatTranscript(ms)) == [] && ResultIds(ChatTranscript(ms)) == []
  {
    if ms != [] {
      PlainMarks(ms[..|ms| - 1]);
      IdsAppend(ChatTranscript(ms[..|ms| - 1]), [Other]);
      assert [Other][..0] == [];
    }
  }

  /** One message per call of turn i, with its id and what running it gave. */
  function ToolMessages(calls: seq<ToolCall>, i: nat, run: Runner): seq<Message> {
    if calls == [] then []
    else ToolMessages(calls[..|calls| - 1], i, run) + [Tool(calls[|calls| - 1].id, run(i, |calls| - 1, calls[|calls| - 1]))]
  }

  /** The model has answered the first n requests. */
  ghost predicate SaidAll(answers: seq<Answer>, n: nat) {
    n <= |answers| && forall k :: 0 <= k < n ==> answers[k].Said?
  }

  /** One turn: the assistant message, then one tool message per call. */
  function Spoken(a: Answer, i: nat, run: Runner): seq<Message>
    requires a.Said?
  {
    [Assistant(a.text, a.calls)] + ToolMessages(a.calls, i, run)
  }

  /** The n-th request: the first one, then turn after turn. */
  ghost function ChatRequest(first: seq<Message>, answers: seq<Answer>, run: Runner, n: nat): seq<Message>
    requires SaidAll(answers, n)
  {
    if n == 0 then first else ChatRequest(first, answers, run, n - 1) + Spoken(answers[n - 1], n - 1, run)
  }

  predicate WantsTools(a: Answer) {
    a.Said? && a.calls != []
  }

  /** These messages are the n-th request. */
  ghost predicate IsChatRequest(first: seq<Message>, answers: seq<Answer>, run: Runner, n: nat, messages: seq<Message>) {
    SaidAll(answers, n) && messages == ChatRequest(first, answers, run, n)
  }

  lemma ChatRequestStep(first: seq<Message>, answers: seq<Answer>, run: Runner, n: nat, before: seq<Message>, after: seq<Message>)
    requires n < |answers| && answers[n].Said? && IsChatRequest(first, answers, run, n, before)
    requires after == before + Spoken(answers[n], n, run)
    ensures IsChatRequest(first, answers, run, n + 1, after)
  {
  }

  /** Request q' is q, then what the model said to it with all its calls, then for each call in turn its id and
      what running that very call gave. */
  ghost predicate ChatFollows(q: seq<Message>, q': seq<Message>, a: Answer, i: nat, run: Runner) {
    && a.Said? && |q'| == |q| + 1 + |a.calls| && q'[..|q|] == q && q'[|q|] == Assistant(a.text, a.calls)
    && forall k :: 0 <= k < |a.calls| ==> q'[|q| + 1 + k] == Tool(a.calls[k].id, run(i, k, a.calls[k]))
  }

  /** Every request follows the one before it. */
  ghost predicate ChatChain(sent: seq<seq<Message>>, answers: seq<Answer>, run: Runner) {
    |sent| <= |answers| && forall i :: 1 <= i < |sent| ==> ChatFollows(sent[i - 1], sent[i], answers[i - 1], i - 1, run)
  }

  lemma {:induction false} ToolMessageAt(calls: seq<ToolCall>, i: nat, run: Runner, k: nat)
    requires k < |calls|
    ensures |ToolMessages(calls, i, run)| == |calls|
    ensures ToolMessages(calls, i, run)[k] == Tool(calls[k].id, run(i, k, calls[k]))
  {
    var front := calls[..|calls| - 1];
    if k < |front| { ToolMessageAt(front, i, run, k); } else { ToolMessageCount(front, i, run); }
  }

  lemma {:induction false} ToolMessageCount(calls: seq<ToolCall>, i: nat, run: Runner)
    ensures |ToolMessages(calls, i, run)| == |calls|
  {
    if calls != [] { ToolMessageCount(calls[..|calls| - 1], i, run); }
  }

  lemma SpokenFollows(q: seq<Message>, q': seq<Message>, a: Answer, i: nat, run: Runner)
    requires a.Said? && q' == q + Spoken(a, i, run)
    ensures ChatFollows(q, q', a, i, run)
  {
    ToolMessageCount(a.calls, i, run);
    forall k | 0 <= k < |a.calls| ensures q'[|q| + 1 + k] == Tool(a.calls[k].id, run(i, k, a.calls[k])) {
      ToolMessageAt(a.calls, i, run, k);
      assert q'[|q| + 1 + k] == ToolMessages(a.calls, i, run)[k];
    }
  }

  /** The i-th of these requests is the i-th request. */
  ghost predicate AllRequests(first: seq<Message>, answers: seq<Answer>, run: Runner, sent: seq<seq<Message>>) {
    forall i :: 0 <= i < |sent| ==> IsChatRequest(first, answers, run, i, sent[i])
  }

  lemma OneMoreRequest(first: seq<Message>, answers: seq<Answer>, run: Runner, sent: seq<seq<Message>>, messages: seq<Message>)
    requires |sent| < |answers| && AllRequests(first, answers, run, sent) && IsChatRequest(first, answers, run, |sent|, messages)
    ensures AllRequests(first, answers, run, sent + [messages])
    ensures ChatChain(sent + [messages], answers, run) && (sent + [messages])[0] == first
  {
    RequestsFollow(first, answers, run, sent + [messages]);
  }

  lemma RequestsFollow(first: seq<Message>, answers: seq<Answer>, run: Runner, sent: seq<seq<Message>>)
    requires |sent| <= |answers| && AllRequests(first, answers, run, sent)
    ensures ChatChain(sent, answers, run) && (sent != [] ==> sent[0] == first)
  {
    if sent != [] { assert IsChatRequest(first, answers, run, 0, sent[0]); }
    forall i | 1 <= i < |sent| ensures ChatFollows(sent[i - 1], sent[i], answers[i - 1], i - 1, run) {
      RequestFollows(first, answers, run, i - 1, sent[i - 1], sent[i]);
    }
  }

  lemma RequestFollows(first: seq<Message>, answers: seq<Answer>, run: Runner, n: nat, q: seq<Message>, q': seq<Message>)
    requires IsChatRequest(first, answers, run, n, q) && IsChatRequest(first, answers, run, n + 1, q')
    ensures ChatFollows(q, q', answers[n], n, run)
  {
    SpokenFollows(q, q', answers[n], n, run);
  }

  /** `runChatCompletionsLoopStream`: `answers[i]` is what the model says to the i-th request, and `run`
      what the tools return, error texts included. `sent` are the requests. */
  method ChatLoop(input: seq<Message>, system: string, answers: seq<Answer>, run: Runner)
    returns (r: LoopResult, sent: seq<seq<Message>>)
    requires |answers| == MAX_CALLS
    ensures 1 <= |sent| <= 8 && (r == Exceeded <==> |sent| == 8 && WantsTools(answers[7]))
    ensures sent[0] == [Plain("system", system)] + input && ChatChain(sent, answers, run)
    ensures forall i :: 0 <= i < |sent| - 1 ==> WantsTools(answers[i])
    ensures AllRequests([Plain("system", system)] + input, answers, run, sent)
    ensures r.Final? ==> answers[|sent| - 1] == Said(r.text, [])
    ensures r.ModelError? ==> answers[|sent| - 1].Failed?
  {
    var messages := [Plain("system", system)] + input;
    ghost var first := messages;
    sent := [];
    for i := 0 to MAX_CALLS
      invariant |sent| == i && forall j :: 0 <= j < i ==> WantsTools(answers[j])
      invariant IsChatRequest(first, answers, run, i, messages) && (i > 0 ==> sent[0] == first && ChatChain(sent, answers, run))
      invariant AllRequests(first, answers, run, sent)
    {
      OneMoreRequest(first, answers, run, sent, messages);
      sent := sent + [messages];
      if answers[i].Failed? { return ModelError, sent; }
      if |answers[i].calls| == 0 { return Final(answers[i].text), sent; }
      var next := ChatTurn(messages, answers[i], i, run);
      ChatRequestStep(first, answers, run, i, messages, next);
      messages := next;
    }
    r := Exceeded;
  }

  /** One turn of the chat loop. */
  method ChatTurn(messages: seq<Message>, a: Answer, i: nat, run: Runner) returns (r: seq<Message>)
    requires a.Said?
    ensures r == messages + Spoken(a, i, run)
  {
    r := messages + [Assistant(a.text, a.calls)];
    for k := 0 to |a.calls|
      invariant r == messages + [Assistant(a.text, a.calls)] + ToolMessages(a.calls[..k], i, run)
    {
      assert a.calls[..k + 1][..k] == a.calls[..k];
      r := r + [Tool(a.calls[k].id, run(i, k, a.calls[k]))];
    }
    assert a.calls[..|a.calls|] == a.calls;
    Regroup(messages, [Assistant(a.text, a.calls)], ToolMessages(a.calls, i, run));
  }

  lemma TranscriptNext(a: seq<Message>, x: Message)
    ensures ChatTranscript(a + [x]) == ChatTranscript(a) + ChatMarks(x)
  {
    assert (a + [x])[..|a|] == a;
  }

  lemma {:induction false} ToolTranscript(before: seq<Message>, calls: seq<ToolCall>, i: nat, run: Runner)
    ensures ChatTranscript(before + ToolMessages(calls, i, run)) == ChatTranscript(before) + Results(IdsOf(calls))
  {
    var tools := ToolMessages(calls, i, run);
    if calls == [] {
      assert before + tools == before;
    } else {
      var front, last := calls[..|calls| - 1], Tool(calls[|calls| - 1].id, run(i, |calls| - 1, calls[|calls| - 1]));
      ToolTranscript(before, front, i, run);
      Regroup(before, ToolMessages(front, i, run), [last]);
      TranscriptNext(before + ToolMessages(front, i, run), last);
      ResultsOfNext(calls);
      Regroup(ChatTranscript(before), Results(IdsOf(front)), [ResultMark(last.id)]);
    }
  }

  lemma ResultsOfNext(calls: seq<ToolCall>)
    requires calls != []
    ensures Results(IdsOf(calls)) == Results(IdsOf(calls[..|calls| - 1])) + [ResultMark(calls[|calls| - 1].id)]
  {
    var ids := IdsOf(calls[..|calls| - 1]);
    assert (ids + [calls[|calls| - 1].id])[..|ids|] == ids;
  }

  lemma TurnMarked(before: seq<Message>, a: Answer, i: nat, run: Runner)
    requires a.Said?
    ensures ChatTranscript(before + Spoken(a, i, run)) == ChatTranscript(before) + CallMarks(a.calls) + Results(IdsOf(a.calls))
  {
    var said := Assistant(a.text, a.calls);
    Regroup(before, [said], ToolMessages(a.calls, i, run));
    TranscriptNext(before, said);
    ToolTranscript(before + [said], a.calls, i, run);
  }

  lemma TurnGood(before: seq<Message>, a: Answer, i: nat, run: Runner, after: seq<Message>)
    requires a.Said? && after == before + Spoken(a, i, run) && Good(before)
    ensures Good(after)
  {
    CallMarksIds(a.calls);
    TurnMarked(before, a, i, run);
    AnsweredTurn(ChatTranscript(before), CallMarks(a.calls));
  }

  lemma PlainGood(ms: seq<Message>)
    requires AllPlain(ms)
    ensures Good(ms)
  {
    PlainMarks(ms);
    assert Answered([]);
    AnsweredNoResults([], ChatTranscript(ms));
    assert [] + ChatTranscript(ms) == ChatTranscript(ms);
  }

  lemma {:induction false} AnsweredOn(first: seq<Message>, answers: seq<Answer>, run: Runner, n: nat, t: seq<Message>)
    requires IsChatRequest(first, answers, run, n, t) && Good(first)
    ensures Good(t)
  {
    if n > 0 {
      var before := ChatRequest(first, answers, run, n - 1);
      AnsweredOn(first, answers, run, n - 1, before);
      TurnGood(before, answers[n - 1], n - 1, run, t);
    }
  }

  /** Whatever the model answers: in every request each tool call in it is followed by its result, the
      results come in call order and none lacks its call. */
  lemma ChatRequestsAnswered(first: seq<Message>, answers: seq<Answer>, run: Runner, n: nat)
    requires SaidAll(answers, n) && AllPlain(first)
    ensures Good(ChatRequest(first, answers, run, n))
  {
    PlainGood(first);
    AnsweredOn(first, answers, run, n, ChatRequest(first, answers, run, n));
  }

  /** Each request strictly extends the one before. */
  lemma ChatRequestsGrow(first: seq<Message>, answers: seq<Answer>, run: Runner, n: nat)
    requires SaidAll(answers, n + 1)
    ensures ChatRequest(first, answers, run, n) < ChatRequest(first, answers, run, n + 1)
  {
  }

  // ---------------------------------------------------------------- responses

  /** An element of a response's output: not an object, or an object with these fields (absent is empty). */
  datatype Value = Scalar | Object(item: Item)
  datatype Reply = NoReply | Reply(output: seq<Value>, text: string)

  predicate IsCall(x: Item) {
    x.kind == "function_call" && x.callId != "" && x.name != ""
  }

  function CallOf(x: Item): ToolCall {
    ToolCall(x.callId, x.name, x.payload)
  }

  function Output(id: string, payload: string): Item {
    Item("", id, "function_call_output", "", payload)
  }

  function ItemMark(x: Item): Mark {
    if IsCall(x) then CallMark(x.callId)
    else if x.kind == "function_call_output" then ResultMark(x.callId)
    else Other
  }

  function ItemMarks(xs: seq<Item>): seq<Mark> {
    if xs == [] then [] else ItemMarks(xs[..|xs| - 1]) + [ItemMark(xs[|xs| - 1])]
  }

  function Objects(output: seq<Value>): seq<Item> {
    if output == [] then []
    else Objects(output[..|output| - 1]) + if output[|output| - 1].Object? then [output[|output| - 1].item] else []
  }

  function Calls(xs: seq<Item>): seq<Item> {
    if xs == [] then [] else Calls(xs[..|xs| - 1]) + if IsCall(xs[|xs| - 1]) then [xs[|xs| - 1]] else []
  }

  method ExtractOutputItems(output: seq<Value>) returns (items: seq<Item>)
    ensures items == Objects(output)
  {
    items := [];
    for k := 0 to |output|
      invariant items == Objects(output[..k])
    {
      assert output[..k + 1][..k] == output[..k];
      if output[k].Object? { items := items + [output[k].item]; }
    }
    assert output[..|output|] == output;
  }

  lemma CallsNext(xs: seq<Item>, x: Item)
    ensures Calls(xs + [x]) == if IsCall(x) then Calls(xs) + [x] else Calls(xs)
  {
    assert (xs + [x])[..|xs|] == xs;
  }

  method ExtractToolCalls(output: seq<Value>) returns (calls: seq<Item>)
    ensures calls == Calls(Objects(output))
  {
    calls := [];
    for k := 0 to |output|
      invariant calls == Calls(Objects(output[..k]))
    {
      var before := output[..k];
      assert output[..k + 1][..k] == before;
      if output[k].Object? {
        var x := output[k].item;
        CallsNext(Objects(before), x);
        if x.kind == "function_call" && x.callId != "" && x.name != "" {
          calls := calls + [x];
        }
      } else {
        assert Objects(before) + [] == Objects(before);
      }
    }
    assert output[..|output|] == output;
  }

  function CallIdsOf(calls: seq<Item>): seq<string> {
    if calls == [] then [] else CallIdsOf(calls[..|calls| - 1]) + [calls[|calls| - 1].callId]
  }

  lemma {:induction false} CallsMarks(xs: seq<Item>)
    ensures CallIds(ItemMarks(xs)) == CallIdsOf(Calls(xs))
  {
    if xs != [] {
      var front, x := xs[..|xs| - 1], xs[|xs| - 1];
      CallsMarks(front);
      IdsNext(ItemMarks(front), ItemMark(x));
      assert (Calls(front) + [x])[..|Calls(front)|] == Calls(front);
      assert Calls(front) + [] == Calls(front) && CallIdsOf(Calls(front)) + [] == CallIdsOf(Calls(front));
    }
  }

  /** For the k-th extracted call an output item with its id. */
  function Outputs(calls: seq<Item>, i: nat, run: Runner): seq<Item> {
    if calls == [] then []
    else Outputs(calls[..|calls| - 1], i, run) + [Output(calls[|calls| - 1].callId, run(i, |calls| - 1, CallOf(calls[|calls| - 1])))]
  }

  /** One turn: the output objects, then the outputs of the calls among them. */
  function Turn(x: Reply, i: nat, run: Runner): seq<Item>
    requires x.Reply?
  {
    Objects(x.output) + Outputs(Calls(Objects(x.output)), i, run)
  }

  /** The model wants tools to be run. */
  predicate Asks(x: Reply) {
    x.Reply? && Calls(Objects(x.output)) != []
  }

  /** The model has answered the first n requests. */
  ghost predicate Responded(answers: seq<Reply>, n: nat) {
    n <= |answers| && forall k :: 0 <= k < n ==> answers[k].Reply?
  }

  ghost function Transcript(input: seq<Item>, answers: seq<Reply>, run: Runner, n: nat): seq<Item>
    requires Responded(answers, n)
  {
    if n == 0 then input else Transcript(input, answers, run, n - 1) + Turn(answers[n - 1], n - 1, run)
  }

  method ResponseTurn(start: seq<Item>, x: Reply, calls: seq<Item>, i: nat, run: Runner) returns (items: seq<Item>)
    requires x.Reply? && calls == Calls(Objects(x.output))
    ensures items == start + Turn(x, i, run)
  {
    var outputs := ExtractOutputItems(x.output);
    items := start;
    if |outputs| > 0 { items := items + outputs; }
    assert items == start + outputs;
    for k := 0 to |calls|
      invariant items == start + outputs + Outputs(calls[..k], i, run)
    {
      assert calls[..k + 1][..k] == calls[..k];
      items := items + [Output(calls[k].callId, run(i, k, CallOf(calls[k])))];
    }
    assert calls[..|calls|] == calls;
    Regroup(start, outputs, Outputs(calls, i, run));
  }

  /** These items are the transcript of the first n turns. */
  ghost predicate IsTranscript(input: seq<Item>, answers: seq<Reply>, run: Runner, n: nat, items: seq<Item>) {
    Responded(answers, n) && items == Transcript(input, answers, run, n)
  }

  lemma TranscriptStep(input: seq<Item>, answers: seq<Reply>, run: Runner, n: nat, before: seq<Item>, after: seq<Item>)
    requires n < |answers| && answers[n].Reply? && IsTranscript(input, answers, run, n, before)
    requires after == before + Turn(answers[n], n, run)
    ensures IsTranscript(input, answers, run, n + 1, after)
  {
  }

  ghost predicate Increasing(at: seq<nat>) {
    forall j, k :: 0 <= j < k < |at| ==> at[j] < at[k]
  }

  /** The positions of the objects of an output, in order. */
  ghost predicate ObjectsAt(output: seq<Value>, at: seq<nat>) {
    && Increasing(at)
    && (forall k :: 0 <= k < |at| ==> at[k] < |output| && output[at[k]].Object?)
    && (forall h: nat :: h < |output| && output[h].Object? ==> h in at)
  }

  predicate Callable(v: Value) {
    v.Object? && v.item.kind == "function_call" && v.item.callId != "" && v.item.name != ""
  }

  /** The positions of the function calls with id and name, in order. */
  ghost predicate CallsAt(output: seq<Value>, at: seq<nat>) {
    && Increasing(at)
    && (forall k :: 0 <= k < |at| ==> at[k] < |output| && Callable(output[at[k]]))
    && (forall h: nat :: h < |output| && Callable(output[h]) ==> h in at)
  }

  /** Request q' is q, then the objects of the answer's output, then for each function call among them with id
      and name, in turn, an output item with its id and what running that very call gave. */
  ghost predicate Follows(q: seq<Item>, q': seq<Item>, x: Reply, i: nat, run: Runner) {
    x.Reply? && exists objects, calls :: FollowsAt(q, q', x.output, i, run, objects, calls)
  }

  ghost predicate FollowsAt(q: seq<Item>, q': seq<Item>, output: seq<Value>, i: nat, run: Runner, objects: seq<nat>, calls: seq<nat>) {
    && ObjectsAt(output, objects) && CallsAt(output, calls)
    && |q'| == |q| + |objects| + |calls| && q'[..|q|] == q
    && (forall k :: 0 <= k < |objects| ==> q'[|q| + k] == output[objects[k]].item)
    && (forall k :: 0 <= k < |calls| ==> q'[|q| + |objects| + k] == Result(output[calls[k]].item, i, k, run))
  }

  function Result(c: Item, i: nat, k: nat, run: Runner): Item {
    Item("", c.callId, "function_call_output", "", run(i, k, ToolCall(c.callId, c.name, c.payload)))
  }

  /** Every request follows the one before it. */
  ghost predicate Chain(sent: seq<seq<Item>>, answers: seq<Reply>, run: Runner) {
    |sent| <= |answers| && forall i :: 1 <= i < |sent| ==> Follows(sent[i - 1], sent[i], answers[i - 1], i - 1, run)
  }

  lemma ObjectsNext(output: seq<Value>, v: Value)
    ensures Objects(output + [v]) == if v.Object? then Objects(output) + [v.item] else Objects(output)
  {
    assert (output + [v])[..|output|] == output;
  }

  lemma ObjectsAtMore(output: seq<Value>, at: seq<nat>)
    requires output != [] && output[|output| - 1].Object? && ObjectsAt(output[..|output| - 1], at)
    ensures ObjectsAt(output, at + [|output| - 1])
  {
    var n := |output| - 1;
    var more := at + [n];
    forall h: nat | h < |output| && output[h].Object? ensures h in more {
      assert h < n ==> output[..n][h] == output[h] && h in at;
      InMore(at, n, h);
    }
  }

  lemma {:induction false} ObjectPositions(output: seq<Value>) returns (at: seq<nat>)
    ensures ObjectsAt(output, at) && |at| == |Objects(output)|
    ensures forall k :: 0 <= k < |at| ==> Objects(output)[k] == output[at[k]].item
  {
    if output == [] {
      at := [];
    } else {
      var n := |output| - 1;
      at := ObjectPositions(output[..n]);
      ObjectsNext(output[..n], output[n]);
      assert output == output[..n] + [output[n]];
      if output[n].Object? {
        ObjectsAtMore(output, at);
        at := at + [n];
      }
    }
  }

  lemma CallsAtMore(output: seq<Value>, at: seq<nat>)
    requires output != [] && Callable(output[|output| - 1]) && CallsAt(output[..|output| - 1], at)
    ensures CallsAt(output, at + [|output| - 1])
  {
    var n := |output| - 1;
    var more := at + [n];
    forall h: nat | h < |output| && Callable(output[h]) ensures h in more {
      assert h < n ==> output[..n][h] == output[h] && h in at;
      InMore(at, n, h);
    }
  }

  lemma CallsAtSame(output: seq<Value>, at: seq<nat>)
    requires output != [] && !Callable(output[|output| - 1]) && CallsAt(output[..|output| - 1], at)
    ensures CallsAt(output, at)
  {
    forall h: nat | h < |output| && Callable(output[h]) ensures h in at {
      assert output[..|output| - 1][h] == output[h];
    }
  }

  lemma CallableNext(output: seq<Value>, v: Value)
    ensures Calls(Objects(output + [v])) == if Callable(v) then Calls(Objects(output)) + [v.item] else Calls(Objects(output))
  {
    ObjectsNext(output, v);
    if v.Object? { CallsNext(Objects(output), v.item); }
  }

  lemma {:induction false} CallPositions(output: seq<Value>) returns (at: seq<nat>)
    ensures CallsAt(output, at) && |at| == |Calls(Objects(output))|
    ensures forall k :: 0 <= k < |at| ==> Calls(Objects(output))[k] == output[at[k]].item
  {
    if output == [] {
      at := [];
    } else {
      var n := |output| - 1;
      at := CallPositions(output[..n]);
      CallableNext(output[..n], output[n]);
      assert output == output[..n] + [output[n]];
      if Callable(output[n]) {
        CallsAtMore(output, at);
        at := at + [n];
      } else {
        CallsAtSame(output, at);
      }
    }
  }

  /** One of the values is a function call with id and name. */
  predicate HasCallable(output: seq<Value>) {
    exists h :: 0 <= h < |output| && Callable(output[h])
  }

  lemma AsksIff(x: Reply)
    requires x.Reply?
    ensures Asks(x) <==> HasCallable(x.output)
  {
    var at := CallPositions(x.output);
    if HasCallable(x.output) {
      var h: nat :| h < |x.output| && Callable(x.output[h]);
      assert h in at;
    }
    if at != [] { assert Callable(x.output[at[0]]); }
  }

  lemma {:induction false} OutputCount(calls: seq<Item>, i: nat, run: Runner)
    ensures |Outputs(calls, i, run)| == |calls|
  {
    if calls != [] { OutputCount(calls[..|calls| - 1], i, run); }
  }

  lemma {:induction false} OutputAt(calls: seq<Item>, i: nat, run: Runner, k: nat)
    requires k < |calls|
    ensures |Outputs(calls, i, run)| == |calls|
    ensures Outputs(calls, i, run)[k] == Output(calls[k].callId, run(i, k, CallOf(calls[k])))
  {
    var front := calls[..|calls| - 1];
    if k < |front| { OutputAt(front, i, run, k); } else { OutputCount(front, i, run); }
  }

  lemma OutputsAre(calls: seq<Item>, i: nat, run: Runner, output: seq<Value>, at: seq<nat>)
    requires |at| == |calls| && CallsAt(output, at) && forall k :: 0 <= k < |at| ==> calls[k] == output[at[k]].item
    ensures |Outputs(calls, i, run)| == |at|
    ensures forall k :: 0 <= k < |at| ==> Outputs(calls, i, run)[k] == Result(output[at[k]].item, i, k, run)
  {
    OutputCount(calls, i, run);
    forall k | 0 <= k < |at| ensures Outputs(calls, i, run)[k] == Result(output[at[k]].item, i, k, run) {
      OutputAt(calls, i, run, k);
    }
  }

  lemma PartsFollow(q: seq<Item>, a: seq<Item>, b: seq<Item>, q': seq<Item>,
                    output: seq<Value>, i: nat, run: Runner, objects: seq<nat>, calls: seq<nat>)
    requires q' == q + (a + b) && ObjectsAt(output, objects) && CallsAt(output, calls)
    requires |a| == |objects| && forall k :: 0 <= k < |a| ==> a[k] == output[objects[k]].item
    requires |b| == |calls| && forall k :: 0 <= k < |b| ==> b[k] == Result(output[calls[k]].item, i, k, run)
    ensures FollowsAt(q, q', output, i, run, objects, calls)
  {
    assert forall k :: 0 <= k < |a| ==> q'[|q| + k] == a[k];
    assert forall k :: 0 <= k < |b| ==> q'[|q| + |a| + k] == b[k];
  }

  lemma TurnFollows(q: seq<Item>, q': seq<Item>, x: Reply, i: nat, run: Runner)
    requires x.Reply? && q' == q + Turn(x, i, run)
    ensures Follows(q, q', x, i, run)
  {
    var objects := ObjectPositions(x.output);
    var calls := CallPositions(x.output);
    var items, cs := Objects(x.output), Calls(Objects(x.output));
    OutputsAre(cs, i, run, x.output, calls);
    PartsFollow(q, items, Outputs(cs, i, run), q', x.output, i, run, objects, calls);
  }

  /** The i-th of these requests is the transcript of the turns before it. */
  ghost predicate AllTranscripts(input: seq<Item>, answers: seq<Reply>, run: Runner, sent: seq<seq<Item>>) {
    forall i :: 0 <= i < |sent| ==> IsTranscript(input, answers, run, i, sent[i])
  }

  lemma OneMoreTranscript(input: seq<Item>, answers: seq<Reply>, run: Runner, sent: seq<seq<Item>>, items: seq<Item>)
    requires |sent| < |answers| && AllTranscripts(input, answers, run, sent) && IsTranscript(input, answers, run, |sent|, items)
    ensures AllTranscripts(input, answers, run, sent + [items])
    ensures Chain(sent + [items], answers, run) && (sent + [items])[0] == input
  {
    TranscriptsFollow(input, answers, run, sent + [items]);
  }

  lemma TranscriptsFollow(input: seq<Item>, answers: seq<Reply>, run: Runner, sent: seq<seq<Item>>)
    requires |sent| <= |answers| && AllTranscripts(input, answers, run, sent)
    ensures Chain(sent, answers, run) && (sent != [] ==> sent[0] == input)
  {
    if sent != [] { assert IsTranscript(input, answers, run, 0, sent[0]); }
    forall i | 1 <= i < |sent| ensures Follows(sent[i - 1], sent[i], answers[i - 1], i - 1, run) {
      TranscriptFollows(input, answers, run, i - 1, sent[i - 1], sent[i]);
    }
  }

  lemma TranscriptFollows(input: seq<Item>, answers: seq<Reply>, run: Runner, n: nat, q: seq<Item>, q': seq<Item>)
    requires IsTranscript(input, answers, run, n, q) && IsTranscript(input, answers, run, n + 1, q')
    ensures Follows(q, q', answers[n], n, run)
  {
    TurnFollows(q, q', answers[n], n, run);
  }

  /** `runResponsesLoopStream`. Every request is the transcript of the turns before it. */
  method ResponsesLoop(input: seq<Item>, answers: seq<Reply>, run: Runner)
    returns (r: LoopResult, sent: seq<seq<Item>>)
    requires |answers| == MAX_CALLS
    ensures 1 <= |sent| <= 8 && (r == Exceeded <==> |sent| == 8 && Asks(answers[7]))
    ensures sent[0] == input && Chain(sent, answers, run)
    ensures forall i :: 0 <= i < |sent| - 1 ==> Asks(answers[i]) && HasCallable(answers[i].output)
    ensures AllTranscripts(input, answers, run, sent)
    ensures r.Final? ==> answers[|sent| - 1].Reply? && answers[|sent| - 1].text == r.text && !HasCallable(answers[|sent| - 1].output)
    ensures r.ModelError? ==> answers[|sent| - 1].NoReply?
  {
    var items := input;
    sent := [];
    for i := 0 to MAX_CALLS
      invariant |sent| == i && forall j :: 0 <= j < i ==> Asks(answers[j]) && HasCallable(answers[j].output)
      invariant IsTranscript(input, answers, run, i, items) && (i > 0 ==> sent[0] == input && Chain(sent, answers, run))
      invariant AllTranscripts(input, answers, run, sent)
    {
      OneMoreTranscript(input, answers, run, sent, items);
      sent := sent + [items];
      if answers[i].NoReply? { return ModelError, sent; }
      var calls := ExtractToolCalls(answers[i].output);
      AsksIff(answers[i]);
      if |calls| == 0 { return Final(answers[i].text), sent; }
      var next := ResponseTurn(items, answers[i], calls, i, run);
      TranscriptStep(input, answers, run, i, items, next);
      items := next;
    }
    r := Exceeded;
  }

  lemma TranscriptBefore(input: seq<Item>, answers: seq<Reply>, run: Runner, n: nat, t: seq<Item>) returns (before: seq<Item>)
    requires n > 0 && IsTranscript(input, answers, run, n, t)
    ensures IsTranscript(input, answers, run, n - 1, before) && t == before + Turn(answers[n - 1], n - 1, run)
  {
    before := Transcript(input, answers, run, n - 1);
  }

  /** The transcript only grows. */
  lemma {:induction false} TranscriptGrows(input: seq<Item>, answers: seq<Reply>, run: Runner, m: nat, n: nat)
    requires m <= n && Responded(answers, n)
    ensures Transcript(input, answers, run, m) <= Transcript(input, answers, run, n)
    ensures m < n && Asks(answers[n - 1]) ==> Transcript(input, answers, run, m) < Transcript(input, answers, run, n)
  {
    if m < n {
      TranscriptGrows(input, answers, run, m, n - 1);
      Longer(Transcript(input, answers, run, m), Transcript(input, answers, run, n - 1), Turn(answers[n - 1], n - 1, run),
             Transcript(input, answers, run, n));
      if Asks(answers[n - 1]) { AskingTurn(answers[n - 1], n - 1, run); }
    }
  }

  lemma Longer<T>(a: seq<T>, b: seq<T>, c: seq<T>, d: seq<T>)
    requires a <= b && d == b + c
    ensures a <= d && (c != [] ==> a < d)
  {
  }

  lemma AskingTurn(x: Reply, i: nat, run: Runner)
    requires Asks(x)
    ensures Turn(x, i, run) != []
  {
    assert Outputs(Calls(Objects(x.output)), i, run) != [];
  }

  function ForgedIn(x: Reply): nat
    requires x.Reply?
  {
    |ResultIds(ItemMarks(Objects(x.output)))|
  }

  /** The model's own items that pose as results. */
  ghost function Forged(answers: seq<Reply>, n: nat): nat
    requires Responded(answers, n)
  {
    if n == 0 then 0 else Forged(answers, n - 1) + ForgedIn(answers[n - 1])
  }

  lemma {:induction false} MarksAppend(a: seq<Item>, b: seq<Item>)
    ensures ItemMarks(a + b) == ItemMarks(a) + ItemMarks(b)
  {
    if b == [] {
      assert a + b == a;
    } else {
      MarksAppend(a, b[..|b| - 1]);
      assert (a + b)[..|a + b| - 1] == a + b[..|b| - 1] && (a + b)[|a + b| - 1] == b[|b| - 1];
    }
  }

  lemma OutputMark(id: string, payload: string)
    ensures ItemMark(Output(id, payload)) == ResultMark(id)
  {
    assert |"function_call"| == 13 && |"function_call_output"| == 20;
  }

  lemma TurnMarks(x: Reply, i: nat, run: Runner)
    requires x.Reply?
    ensures var said := ItemMarks(Objects(x.output)); ItemMarks(Turn(x, i, run)) == said + Results(CallIds(said))
  {
    var xs := Objects(x.output);
    CallsMarks(xs);
    OutputsMarks(Calls(xs), i, run);
    MarksAppend(xs, Outputs(Calls(xs), i, run));
  }

  lemma {:induction false} OutputsMarks(calls: seq<Item>, i: nat, run: Runner)
    ensures ItemMarks(Outputs(calls, i, run)) == Results(CallIdsOf(calls))
  {
    if calls != [] {
      var front, last := calls[..|calls| - 1], calls[|calls| - 1];
      var outs, out := Outputs(front, i, run), Output(last.callId, run(i, |calls| - 1, CallOf(last)));
      OutputsMarks(front, i, run);
      OutputMark(last.callId, run(i, |calls| - 1, CallOf(last)));
      assert (outs + [out])[..|outs|] == outs;
      assert (CallIdsOf(front) + [last.callId])[..|CallIdsOf(front)|] == CallIdsOf(front);
    }
  }

  /** Calls and results pair up: results follow their calls, in call order, and no call is left open. */
  predicate Paired(t: seq<Mark>) {
    Answered(t) && ResultIds(t) == CallIds(t)
  }

  lemma TurnAnswered(before: seq<Item>, x: Reply, i: nat, run: Runner, after: seq<Item>)
    requires x.Reply? && ForgedIn(x) == 0 && after == before + Turn(x, i, run)
    requires Paired(ItemMarks(before))
    ensures Paired(ItemMarks(after))
  {
    MarksAppend(before, Turn(x, i, run));
    TurnMarks(x, i, run);
    var said := ItemMarks(Objects(x.output));
    AnsweredTurn(ItemMarks(before), said);
    Regroup(ItemMarks(before), said, Results(CallIds(said)));
  }

  lemma {:induction false} PairedOn(input: seq<Item>, answers: seq<Reply>, run: Runner, n: nat, t: seq<Item>)
    requires IsTranscript(input, answers, run, n, t) && Paired(ItemMarks(input)) && Forged(answers, n) == 0
    ensures Paired(ItemMarks(t))
  {
    if n > 0 {
      var before := TranscriptBefore(input, answers, run, n, t);
      PairedOn(input, answers, run, n - 1, before);
      TurnAnswered(before, answers[n - 1], n - 1, run, t);
    }
  }

  /** Whatever the model answers, as long as it sends no result items itself: in every request each
      extracted call is followed by its result, results come in call order and none lacks its call. */
  lemma TranscriptAnswered(input: seq<Item>, answers: seq<Reply>, run: Runner, n: nat)
    requires Responded(answers, n)
    requires CallIds(ItemMarks(input)) == ResultIds(ItemMarks(input)) == [] && Forged(answers, n) == 0
    ensures Paired(ItemMarks(Transcript(input, answers, run, n)))
  {
    assert Answered([]);
    AnsweredNoResults([], ItemMarks(input));
    assert [] + ItemMarks(input) == ItemMarks(input);
    PairedOn(input, answers, run, n, Transcript(input, answers, run, n));
  }

  /** The number of results less the number of calls. */
  function Surplus(t: seq<Mark>): int {
    |ResultIds(t)| - |CallIds(t)|
  }

  lemma TurnSurplus(t: seq<Mark>, said: seq<Mark>)
    ensures Surplus(t + (said + Results(CallIds(said)))) == Surplus(t) + |ResultIds(said)|
  {
    IdsAppend(said, Results(CallIds(said)));
    ResultsIds(CallIds(said));
    IdsAppend(t, said + Results(CallIds(said)));
  }

  lemma StepSurplus(before: seq<Item>, x: Reply, i: nat, run: Runner, after: seq<Item>)
    requires x.Reply? && after == before + Turn(x, i, run)
    ensures Surplus(ItemMarks(after)) == Surplus(ItemMarks(before)) + ForgedIn(x)
  {
    MarksAppend(before, Turn(x, i, run));
    TurnMarks(x, i, run);
    TurnSurplus(ItemMarks(before), ItemMarks(Objects(x.output)));
  }

  lemma {:induction false} CountsOn(input: seq<Item>, answers: seq<Reply>, run: Runner, n: nat, t: seq<Item>)
    requires IsTranscript(input, answers, run, n, t) && Surplus(ItemMarks(input)) == 0
    ensures Surplus(ItemMarks(t)) == Forged(answers, n)
  {
    if n > 0 {
      var before := TranscriptBefore(input, answers, run, n, t);
      CountsOn(input, answers, run, n - 1, before);
      StepSurplus(before, answers[n - 1], n - 1, run, t);
    }
  }

  lemma TranscriptCounts(input: seq<Item>, answers: seq<Reply>, run: Runner, n: nat)
    requires Responded(answers, n)
    requires CallIds(ItemMarks(input)) == ResultIds(ItemMarks(input)) == []
    ensures Surplus(ItemMarks(Transcript(input, answers, run, n))) == Forged(answers, n)
  {
    CountsOn(input, answers, run, n, Transcript(input, answers, run, n));
  }

  /** The exact condition for calls and results to pair up in a request: the model forged no result item. */
  lemma PairedIff(input: seq<Item>, answers: seq<Reply>, run: Runner, n: nat)
    requires Responded(answers, n)
    requires CallIds(ItemMarks(input)) == ResultIds(ItemMarks(input)) == []
    ensures Paired(ItemMarks(Transcript(input, answers, run, n))) <==> Forged(answers, n) == 0
  {
    TranscriptCounts(input, answers, run, n);
    if Forged(answers, n) == 0 { TranscriptAnswered(input, answers, run, n); }
  }

  // ---------------------------------------------------------------- exactly one result per call

  /** Calls and results pair up and no call has a second result with its id. */
  ghost predicate OneResultEach(t: seq<Mark>) {
    Paired(t) && forall id :: id in CallIds(t) ==> Count(ResultIds(t), id) == 1
  }

  lemma PairedOnce(t: seq<Mark>)
    requires Paired(t)
    ensures OneResultEach(t) <==> NoRepeats(CallIds(t))
  {
    NoRepeatsCount(CallIds(t));
  }

  /** The ids of all calls extracted from the first n answers, in order. */
  ghost function Extracted(answers: seq<Reply>, n: nat): seq<string>
    requires Responded(answers, n)
  {
    if n == 0 then [] else Extracted(answers, n - 1) + CallIdsOf(Calls(Objects(answers[n - 1].output)))
  }

  lemma StepCalls(before: seq<Item>, x: Reply, i: nat, run: Runner, after: seq<Item>)
    requires x.Reply? && after == before + Turn(x, i, run)
    ensures CallIds(ItemMarks(after)) == CallIds(ItemMarks(before)) + CallIdsOf(Calls(Objects(x.output)))
  {
    var said := ItemMarks(Objects(x.output));
    MarksAppend(before, Turn(x, i, run));
    TurnMarks(x, i, run);
    IdsAppend(ItemMarks(before), said + Results(CallIds(said)));
    IdsAppend(said, Results(CallIds(said)));
    ResultsIds(CallIds(said));
    CallsMarks(Objects(x.output));
  }

  lemma {:induction false} TranscriptCallsOn(input: seq<Item>, answers: seq<Reply>, run: Runner, n: nat, t: seq<Item>)
    requires IsTranscript(input, answers, run, n, t) && CallIds(ItemMarks(input)) == []
    ensures CallIds(ItemMarks(t)) == Extracted(answers, n)
  {
    if n > 0 {
      var before := TranscriptBefore(input, answers, run, n, t);
      TranscriptCallsOn(input, answers, run, n - 1, before);
      StepCalls(before, answers[n - 1], n - 1, run, t);
    }
  }

  lemma TranscriptCalls(input: seq<Item>, answers: seq<Reply>, run: Runner, n: nat)
    requires Responded(answers, n) && CallIds(ItemMarks(input)) == []
    ensures CallIds(ItemMarks(Transcript(input, answers, run, n))) == Extracted(answers, n)
  {
    TranscriptCallsOn(input, answers, run, n, Transcript(input, answers, run, n));
  }

  /** In a request every extracted call has exactly one result, and no result is left over, if and only if
      the answers so far contain no result items and repeat no call id. */
  lemma ExactlyOneResultIff(input: seq<Item>, answers: seq<Reply>, run: Runner, n: nat)
    requires Responded(answers, n) && CallIds(ItemMarks(input)) == ResultIds(ItemMarks(input)) == []
    ensures OneResultEach(ItemMarks(Transcript(input, answers, run, n))) <==> Forged(answers, n) == 0 && NoRepeats(Extracted(answers, n))
  {
    PairedIff(input, answers, run, n);
    TranscriptCalls(input, answers, run, n);
    if Forged(answers, n) == 0 { PairedOnce(ItemMarks(Transcript(input, answers, run, n))); }
  }

  /** The ids of all calls in the first n chat answers, in order. */
  ghost function ChatExtracted(answers: seq<Answer>, n: nat): seq<string>
    requires SaidAll(answers, n)
  {
    if n == 0 then [] else ChatExtracted(answers, n - 1) + IdsOf(answers[n - 1].calls)
  }

  lemma ChatStepCalls(before: seq<Message>, a: Answer, i: nat, run: Runner, after: seq<Message>)
    requires a.Said? && after == before + Spoken(a, i, run)
    ensures CallIds(ChatTranscript(after)) == CallIds(ChatTranscript(before)) + IdsOf(a.calls)
  {
    var ids := IdsOf(a.calls);
    CallMarksIds(a.calls);
    TurnMarked(before, a, i, run);
    IdsAppend(ChatTranscript(before) + CallMarks(a.calls), Results(ids));
    IdsAppend(ChatTranscript(before), CallMarks(a.calls));
    ResultsIds(ids);
  }

  lemma {:induction false} CallsOn(first: seq<Message>, answers: seq<Answer>, run: Runner, n: nat, t: seq<Message>)
    requires IsChatRequest(first, answers, run, n, t) && CallIds(ChatTranscript(first)) == []
    ensures CallIds(ChatTranscript(t)) == ChatExtracted(answers, n)
  {
    if n > 0 {
      var before := ChatRequest(first, answers, run, n - 1);
      CallsOn(first, answers, run, n - 1, before);
      ChatStepCalls(before, answers[n - 1], n - 1, run, t);
    }
  }

  lemma ChatCalls(first: seq<Message>, answers: seq<Answer>, run: Runner, n: nat)
    requires SaidAll(answers, n) && AllPlain(first)
    ensures CallIds(ChatTranscript(ChatRequest(first, answers, run, n))) == ChatExtracted(answers, n)
  {
    PlainMarks(first);
    CallsOn(first, answers, run, n, ChatRequest(first, answers, run, n));
  }

  /** The chat loop sends only its own results, so there one result per call needs distinct ids and no more. */
  lemma ChatOneResultIff(first: seq<Message>, answers: seq<Answer>, run: Runner, n: nat)
    requires SaidAll(answers, n) && AllPlain(first)
    ensures OneResultEach(ChatTranscript(ChatRequest(first, answers, run, n))) <==> NoRepeats(ChatExtracted(answers, n))
  {
    ChatRequestsAnswered(first, answers, run, n);
    ChatCalls(first, answers, run, n);
    PairedOnce(ChatTranscript(ChatRequest(first, answers, run, n)));
  }

  lemma ResultItem(x: Item)
    requires x.kind == "function_call_output"
    ensures !IsCall(x) && ItemMark(x) == ResultMark(x.callId)
  {
    assert |"function_call"| == 13 && |"function_call_output"| == 20;
  }

  /** An answer with a result item of its own, whatever it says: the next request has a result without a call. */
  lemma ForgedAnswer(x: Item, text: string, run: Runner) returns (answers: seq<Reply>)
    requires x.kind == "function_call_output"
    ensures answers == [Reply([Object(x)], text)] && Responded(answers, 1)
    ensures !Paired(ItemMarks(Transcript([], answers, run, 1)))
  {
    ResultItem(x);
    answers := ForgedBy(x, text);
    ForgedUnpaired(answers, run);
  }

  lemma ForgedBy(x: Item, text: string) returns (answers: seq<Reply>)
    requires !IsCall(x) && ItemMark(x).ResultMark?
    ensures answers == [Reply([Object(x)], text)] && Responded(answers, 1) && Forged(answers, 1) > 0
  {
    var output := [] + [Object(x)];
    answers := [Reply(output, text)];
    ForgedObject(x);
    OneAnswer(answers, [], 1);
  }

  lemma ForgedUnpaired(answers: seq<Reply>, run: Runner)
    requires Responded(answers, 1) && Forged(answers, 1) > 0
    ensures !Paired(ItemMarks(Transcript([], answers, run, 1)))
  {
    NoMarks();
    PairedIff([], answers, run, 1);
  }

  lemma ForgedObject(x: Item)
    requires ItemMark(x).ResultMark? && !IsCall(x)
    ensures Objects([] + [Object(x)]) == [] + [x] && Calls([] + [x]) == [] && ResultIds(ItemMarks([] + [x])) == [x.callId]
  {
    assert ([] + [Object(x)])[..0] == [] && ([] + [x])[..0] == [];
    IdsNext([], ItemMark(x));
    assert ItemMarks([] + [x]) == [] + [ItemMark(x)];
  }

  lemma AnotherCall(out: seq<Value>, xs: seq<Item>, ids: seq<string>, c: Item)
    requires IsCall(c) && Objects(out) == xs && CallIdsOf(Calls(xs)) == ids && ResultIds(ItemMarks(xs)) == []
    ensures Objects(out + [Object(c)]) == xs + [c] && CallIdsOf(Calls(xs + [c])) == ids + [c.callId]
    ensures ResultIds(ItemMarks(xs + [c])) == []
  {
    assert (out + [Object(c)])[..|out|] == out && (xs + [c])[..|xs|] == xs;
    assert (Calls(xs) + [c])[..|Calls(xs)|] == Calls(xs);
    IdsNext(ItemMarks(xs), ItemMark(c));
  }

  /** What one answer gives. */
  lemma OneAnswer(answers: seq<Reply>, ids: seq<string>, forged: nat)
    requires |answers| == 1 && answers[0].Reply? && CallIdsOf(Calls(Objects(answers[0].output))) == ids
    requires ForgedIn(answers[0]) == forged
    ensures Responded(answers, 1) && Extracted(answers, 1) == ids && Forged(answers, 1) == forged
  {
    assert Extracted(answers, 0) == [] && Forged(answers, 0) == 0;
    assert [] + ids == ids;
  }

  lemma NoMarks()
    ensures CallIds(ItemMarks([])) == ResultIds(ItemMarks([])) == []
  {
  }

  /** Nothing stops the model from repeating a call, id included: then its calls have two results each. */
  lemma RepeatedId(c: Item, run: Runner) returns (answers: seq<Reply>)
    requires IsCall(c)
    ensures |answers| == 1 && Responded(answers, 1) && Forged(answers, 1) == 0
    ensures !OneResultEach(ItemMarks(Transcript([], answers, run, 1)))
  {
    var one, two := [] + [Object(c)], [] + [c];
    AnotherCall([], [], [], c);
    AnotherCall(one, two, [] + [c.callId], c);
    answers := [Reply(one + [Object(c)], "")];
    var ids := [] + [c.callId] + [c.callId];
    OneAnswer(answers, ids, 0);
    assert ids[0] == ids[1];
    NoMarks();
    ExactlyOneResultIff([], answers, run, 1);
  }
}
