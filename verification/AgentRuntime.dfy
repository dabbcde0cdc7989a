/** The loop every tool-using agent runs: offer the permitted tools, run what the model asks for, hand
    the results back, until it answers or the step budget is spent. */
module AgentRuntime {
  import opened Wrappers
  import opened Sequences

  datatype ToolCall = ToolCall(callId: string, name: string, arguments: string)

  datatype ToolResult = ToolResult(callId: string, content: string, isError: bool)

  datatype ToolInvocation = ToolInvocation(name: string, ok: bool)

  datatype Role = User | Assistant

  datatype Message = Message(role: Role, content: string, toolCalls: seq<ToolCall>, toolResults: seq<ToolResult>)

  datatype Usage = Usage(inputTokens: nat, outputTokens: nat, cost: real, model: Option<string>)

  datatype Response = Response(text: string, usage: Usage, fallbacks: seq<string>, toolCalls: seq<ToolCall>)

  /** One model call: the whole transcript, whether the answer must match the schema, and the tools offered. */
  datatype Request = Request(messages: seq<Message>, schema: bool, tools: seq<string>)

  /** What a tool does with a call: it returns a result, refuses the arguments, or breaks in a way the
      loop does not catch. */
  datatype ToolReply = Returned(content: string, isError: bool) | Rejected(reason: string) | Broke

  /** Everything outside the loop. The model and the tools may answer anything, and differently each
      time: the number of the call is an argument. `permitted` and `registered` are tool names. */
  datatype Setting = Setting(
    model: (nat, Request) -> Response,
    tool: (nat, ToolCall) -> ToolReply,
    parse: string -> Option<string>,
    accept: string -> Option<string>,
    permitted: set<string>,
    registered: seq<string>,
    maxSteps: nat)

  datatype Outcome =
    | Accepted(output: string, toolCalls: seq<ToolInvocation>, usage: Usage, fallbacks: seq<string>, steps: nat)
    | BudgetExhausted
    | Malformed
    | ToolBroke

  /** The turn that asks for the object; its wording is not part of the model. */
  const CLOSING_TURN := "close"

  const NO_USAGE := Usage(0, 0, 0.0, None)

  // ---- Accounting

  function NamedModel(u: Usage): bool {
    u.model.Some? && u.model.value != ""
  }

  /** One more turn on the bill; a turn that does not name its model leaves the one named before. */
  function Accumulate(total: Usage, turn: Usage): Usage {
    Usage(total.inputTokens + turn.inputTokens, total.outputTokens + turn.outputTokens, total.cost + turn.cost,
          if NamedModel(turn) then turn.model else total.model)
  }

  function TotalUsage(responses: seq<Response>): Usage {
    if responses == [] then NO_USAGE
    else Accumulate(TotalUsage(responses[..|responses| - 1]), responses[|responses| - 1].usage)
  }

  /** Tokens and cost add up over any split of the calls. */
  lemma {:induction false} UsageAddsUp(a: seq<Response>, b: seq<Response>)
    ensures TotalUsage(a + b).inputTokens == TotalUsage(a).inputTokens + TotalUsage(b).inputTokens
    ensures TotalUsage(a + b).outputTokens == TotalUsage(a).outputTokens + TotalUsage(b).outputTokens
    ensures TotalUsage(a + b).cost == TotalUsage(a).cost + TotalUsage(b).cost
    decreases |b|
  {
    if b == [] {
      assert a + b == a;
    } else {
      UsageAddsUp(a, b[..|b| - 1]);
      assert (a + b)[..|a + b| - 1] == a + b[..|b| - 1];
    }
  }

  /** The model reported is the last that named itself. */
  lemma {:induction false} UsageNamesLatest(responses: seq<Response>, k: nat)
    requires k < |responses| && NamedModel(responses[k].usage)
    requires forall i :: k < i < |responses| ==> !NamedModel(responses[i].usage)
    ensures TotalUsage(responses).model == responses[k].usage.model
    decreases |responses|
  {
    if k < |responses| - 1 {
      UsageNamesLatest(responses[..|responses| - 1], k);
    }
  }

  function InputTokens(responses: seq<Response>): nat {
    if responses == [] then 0 else responses[0].usage.inputTokens + InputTokens(responses[1..])
  }

  function OutputTokens(responses: seq<Response>): nat {
    if responses == [] then 0 else responses[0].usage.outputTokens + OutputTokens(responses[1..])
  }

  function Cost(responses: seq<Response>): real {
    if responses == [] then 0.0 else responses[0].usage.cost + Cost(responses[1..])
  }

  /** The last model that a response names; none when none names one. */
  ghost predicate LastNamed(responses: seq<Response>, model: Option<string>) {
    if model == None then forall r :: r in responses ==> r.usage.model == None || r.usage.model == Some("")
    else exists k :: NamesLast(responses, k) && responses[k].usage.model == model
  }

  ghost predicate NamesLast(responses: seq<Response>, k: int) {
    && 0 <= k < |responses| && responses[k].usage.model != None && responses[k].usage.model != Some("")
    && forall i :: k < i < |responses| ==> responses[i].usage.model == None || responses[i].usage.model == Some("")
  }

  /** The bill for these responses: each field the sum of their own, the model the last that was named. */
  ghost predicate Bills(usage: Usage, responses: seq<Response>) {
    && usage.inputTokens == InputTokens(responses) && usage.outputTokens == OutputTokens(responses)
    && usage.cost == Cost(responses) && LastNamed(responses, usage.model)
  }

  /** The total of one response is that response's. */
  lemma OneTurn(r: Response)
    ensures TotalUsage([r]).inputTokens == r.usage.inputTokens && TotalUsage([r]).outputTokens == r.usage.outputTokens
    ensures TotalUsage([r]).cost == r.usage.cost
  {
    assert [r][..0] == [];
  }

  lemma {:induction false} TokensAdd(responses: seq<Response>)
    ensures TotalUsage(responses).inputTokens == InputTokens(responses)
    ensures TotalUsage(responses).outputTokens == OutputTokens(responses)
    ensures TotalUsage(responses).cost == Cost(responses)
  {
    if responses != [] {
      var first, rest := responses[0], responses[1..];
      assert responses == [first] + rest;
      UsageAddsUp([first], rest);
      OneTurn(first);
      TokensAdd(rest);
    }
  }

  lemma {:induction false} ModelIsLastNamed(responses: seq<Response>)
    ensures LastNamed(responses, TotalUsage(responses).model)
  {
    if responses != [] {
      var front, last := responses[..|responses| - 1], responses[|responses| - 1];
      ModelIsLastNamed(front);
      assert responses == front + [last];
      if last.usage.model != None && last.usage.model != Some("") {
        assert NamesLast(responses, |front|);
      } else if TotalUsage(front).model != None {
        var k :| NamesLast(front, k) && front[k].usage.model == TotalUsage(front).model;
        assert NamesLast(responses, k);
      }
    }
  }

  /** The total is the bill. */
  lemma TotalIsBill(responses: seq<Response>)
    ensures Bills(TotalUsage(responses), responses)
  {
    TokensAdd(responses);
    ModelIsLastNamed(responses);
  }

  /** Keeps the first occurrence of each element, as `dict.fromkeys` does. */
  function FirstOccurrences(s: seq<string>): seq<string> {
    if s == [] then []
    else
      var rest, last := FirstOccurrences(s[..|s| - 1]), s[|s| - 1];
      if last in rest then rest else rest + [last]
  }

  lemma {:induction false} FirstOccurrencesAreEach(s: seq<string>)
    ensures Distinct(FirstOccurrences(s))
    ensures forall x :: x in FirstOccurrences(s) <==> x in s
  {
    if s != [] {
      FirstOccurrencesAreEach(s[..|s| - 1]);
      assert s == s[..|s| - 1] + [s[|s| - 1]];
    }
  }

  /** `kept` holds each element of `s` once, in the order in which they first occur: `at` are the places of
      those first occurrences. */
  ghost predicate FirstOfEach(s: seq<string>, kept: seq<string>, at: seq<nat>) {
    && |at| == |kept| && (forall i, j :: 0 <= i < j < |at| ==> at[i] < at[j])
    && (forall i :: 0 <= i < |at| ==> at[i] < |s| && s[at[i]] == kept[i] && kept[i] !in s[..at[i]])
    && (forall x :: x in s ==> x in kept)
  }

  lemma MetAgain(front: seq<string>, last: string, kept: seq<string>, at: seq<nat>)
    requires FirstOfEach(front, kept, at) && last in kept
    ensures FirstOfEach(front + [last], kept, at)
  {
    var s := front + [last];
    forall i | 0 <= i < |at| ensures at[i] < |s| && s[at[i]] == kept[i] && kept[i] !in s[..at[i]] {
      assert s[..at[i]] == front[..at[i]];
    }
  }

  lemma MetFirst(front: seq<string>, last: string, kept: seq<string>, at: seq<nat>)
    requires FirstOfEach(front, kept, at) && last !in kept
    ensures FirstOfEach(front + [last], kept + [last], at + [|front|])
  {
    var s, more, places := front + [last], kept + [last], at + [|front|];
    forall i | 0 <= i < |places| ensures places[i] < |s| && s[places[i]] == more[i] && more[i] !in s[..places[i]] {
      assert s[..places[i]] == front[..places[i]];
    }
  }

  lemma {:induction false} FirstOccurrencesInOrder(s: seq<string>) returns (at: seq<nat>)
    ensures FirstOfEach(s, FirstOccurrences(s), at)
  {
    if s == [] {
      at := [];
    } else {
      var front, last := s[..|s| - 1], s[|s| - 1];
      at := FirstOccurrencesInOrder(front);
      assert s == front + [last];
      if last in FirstOccurrences(front) {
        MetAgain(front, last, FirstOccurrences(front), at);
      } else {
        MetFirst(front, last, FirstOccurrences(front), at);
        at := at + [|front|];
      }
    }
  }

  function FallbacksOf(responses: seq<Response>): seq<string> {
    if responses == [] then []
    else FallbacksOf(responses[..|responses| - 1]) + responses[|responses| - 1].fallbacks
  }

  /** Updates the ordered set of fallbacks with a turn's. */
  method Remember(fallbacks: seq<string>, turn: seq<string>, ghost all: seq<string>) returns (updated: seq<string>)
    requires fallbacks == FirstOccurrences(all)
    ensures updated == FirstOccurrences(all + turn)
  {
    updated := fallbacks;
    assert all + turn[..0] == all;
    for i := 0 to |turn|
      invariant updated == FirstOccurrences(all + turn[..i])
    {
      assert (all + turn[..i + 1])[..|all| + i] == all + turn[..i];
      if turn[i] !in updated {
        updated := updated + [turn[i]];
      }
    }
    assert turn[..|turn|] == turn;
  }

  // ---- Tools

  /** The tools an agent is offered: those registered that it holds. */
  function Offered(registered: seq<string>, permitted: set<string>): seq<string> {
    if registered == [] then []
    else
      var rest, last := Offered(registered[..|registered| - 1], permitted), registered[|registered| - 1];
      if last in permitted then rest + [last] else rest
  }

  /** May this agent run a tool of this name? */
  predicate Holds(s: Setting, name: string) {
    name in s.permitted && name in s.registered
  }

  lemma {:induction false} OfferedAreHeld(registered: seq<string>, permitted: set<string>)
    ensures forall t :: t in Offered(registered, permitted) <==> t in registered && t in permitted
  {
    if registered != [] {
      OfferedAreHeld(registered[..|registered| - 1], permitted);
      assert registered == registered[..|registered| - 1] + [registered[|registered| - 1]];
    }
  }

  /** The tools offered are the permitted ones of the registry, each at its place, in the registry's order. */
  ghost predicate PickedFrom(registered: seq<string>, permitted: set<string>, offered: seq<string>, at: seq<nat>) {
    && |at| == |offered| && (forall i, j :: 0 <= i < j < |at| ==> at[i] < at[j])
    && (forall i :: 0 <= i < |at| ==> at[i] < |registered| && offered[i] == registered[at[i]])
    && (forall k :: 0 <= k < |registered| ==> (registered[k] in permitted <==> k in at))
  }

  lemma PickedOneMore(front: seq<string>, last: string, permitted: set<string>, offered: seq<string>, at: seq<nat>)
    requires PickedFrom(front, permitted, offered, at)
    ensures if last in permitted then PickedFrom(front + [last], permitted, offered + [last], at + [|front|])
            else PickedFrom(front + [last], permitted, offered, at)
  {
    var all, places := front + [last], if last in permitted then at + [|front|] else at;
    forall k | 0 <= k < |all| ensures all[k] in permitted <==> k in places {
      if k < |front| {
        assert all[k] == front[k];
      }
    }
  }

  lemma {:induction false} OfferedInOrder(registered: seq<string>, permitted: set<string>) returns (at: seq<nat>)
    ensures PickedFrom(registered, permitted, Offered(registered, permitted), at)
  {
    if registered == [] {
      at := [];
    } else {
      var front, last := registered[..|registered| - 1], registered[|registered| - 1];
      at := OfferedInOrder(front, permitted);
      assert registered == front + [last];
      PickedOneMore(front, last, permitted, Offered(front, permitted), at);
      at := if last in permitted then at + [|front|] else at;
    }
  }

  function Refusal(call: ToolCall): string {
    "no permission or no such tool: " + call.name
  }

  /** A result tells the model what the tool said, or why it did not run. */
  predicate Tells(s: Setting, number: nat, call: ToolCall, result: ToolResult) {
    if !Holds(s, call.name) then result.isError && result.content == Refusal(call)
    else
      match s.tool(number, call)
      case Returned(content, isError) => result.content == content && result.isError == isError
      case Rejected(reason) => result.content == reason && result.isError
      case Broke => false
  }

  /** The tool runs and breaks in a way the loop does not catch. */
  predicate Breaks(s: Setting, number: nat, call: ToolCall) {
    Holds(s, call.name) && s.tool(number, call).Broke?
  }

  /** One tool call. Whether or not the tool ran, the result answers to the id of the call. */
  method Invoke(s: Setting, number: nat, call: ToolCall) returns (result: Option<ToolResult>, ran: bool)
    ensures ran <==> call.name in s.permitted && call.name in s.registered
    ensures result.None? <==> Breaks(s, number, call)
    ensures result.Some? ==> result.value.callId == call.callId && Tells(s, number, call, result.value)
  {
    if !Holds(s, call.name) {
      return Some(ToolResult(call.callId, Refusal(call), true)), false;
    }
    match s.tool(number, call)
    case Returned(content, isError) => return Some(ToolResult(call.callId, content, isError)), true;
    case Rejected(reason) => return Some(ToolResult(call.callId, reason, true)), true;
    case Broke => return None, true;
  }

  // ---- Transcripts

  function Say(role: Role, content: string): Message {
    Message(role, content, [], [])
  }

  /** The results answer the calls one for one, in the same order. */
  ghost predicate Answers(calls: seq<ToolCall>, results: seq<ToolResult>) {
    && |calls| == |results|
    && forall i :: 0 <= i < |calls| ==> results[i].callId == calls[i].callId
  }

  /** A pair of turns the loop adds: the assistant's, and the user's that answers exactly its calls. */
  ghost predicate Exchange(a: Message, u: Message) {
    && a.role.Assistant? && u.role.User?
    && a.toolResults == [] && u.toolCalls == []
    && Answers(a.toolCalls, u.toolResults)
  }

  /** What the loop adds to a transcript: exchanges, one after the other. */
  ghost predicate Exchanges(added: seq<Message>) {
    && |added| % 2 == 0
    && forall i :: 0 <= i < |added| / 2 ==> Exchange(added[2 * i], added[2 * i + 1])
  }

  lemma OneMoreExchange(added: seq<Message>, a: Message, u: Message)
    requires Exchanges(added) && Exchange(a, u)
    ensures Exchanges(added + [a, u])
  {
  }

  function CallsIn(added: seq<Message>): seq<ToolCall> {
    if added == [] then [] else CallsIn(added[..|added| - 1]) + added[|added| - 1].toolCalls
  }

  lemma CallsInPair(added: seq<Message>, a: Message, u: Message)
    requires u.toolCalls == []
    ensures CallsIn(added + [a, u]) == CallsIn(added) + a.toolCalls
  {
    assert (added + [a, u])[..|added| + 1] == added + [a];
    assert (added + [a])[..|added|] == added;
  }

  function ResultsIn(added: seq<Message>): seq<ToolResult> {
    if added == [] then [] else ResultsIn(added[..|added| - 1]) + added[|added| - 1].toolResults
  }

  lemma ResultsInPair(added: seq<Message>, a: Message, u: Message)
    requires a.toolResults == []
    ensures ResultsIn(added + [a, u]) == ResultsIn(added) + u.toolResults
  {
    assert (added + [a, u])[..|added| + 1] == added + [a];
    assert (added + [a])[..|added|] == added;
  }

  /** Each result answers its call and says what that call, the so-many-th of the session, came to. */
  ghost predicate Told(s: Setting, number: nat, calls: seq<ToolCall>, results: seq<ToolResult>) {
    && Answers(calls, results)
    && forall i :: 0 <= i < |calls| ==> Tells(s, number + i, calls[i], results[i])
  }

  /** The log names the calls in the order they were made, with their success. */
  ghost predicate Logs(log: seq<ToolInvocation>, calls: seq<ToolCall>, results: seq<ToolResult>) {
    && |log| == |calls| == |results|
    && forall i :: 0 <= i < |log| ==> log[i] == ToolInvocation(calls[i].name, !results[i].isError)
  }

  /** The names of the calls that ran: those of tools the agent holds. */
  function HeldOf(s: Setting, calls: seq<ToolCall>): seq<string> {
    if calls == [] then []
    else HeldOf(s, calls[..|calls| - 1]) + if Holds(s, calls[|calls| - 1].name) then [calls[|calls| - 1].name] else []
  }

  lemma {:induction false} OnlyHeldRan(s: Setting, calls: seq<ToolCall>)
    ensures forall name :: name in HeldOf(s, calls) ==> name in s.permitted && name in s.registered
  {
    if calls != [] {
      OnlyHeldRan(s, calls[..|calls| - 1]);
    }
  }

  lemma {:induction false} HeldJoin(s: Setting, a: seq<ToolCall>, b: seq<ToolCall>)
    ensures HeldOf(s, a + b) == HeldOf(s, a) + HeldOf(s, b)
    decreases |b|
  {
    if b == [] {
      assert a + b == a;
    } else {
      assert (a + b)[..|a + b| - 1] == a + b[..|b| - 1];
      HeldJoin(s, a, b[..|b| - 1]);
    }
  }

  /** The calls of a turn that are attempted: up to the first that breaks. */
  function Attempted(s: Setting, number: nat, calls: seq<ToolCall>): seq<ToolCall>
    decreases |calls|
  {
    if calls == [] then []
    else [calls[0]] + if Breaks(s, number, calls[0]) then [] else Attempted(s, number + 1, calls[1..])
  }

  ghost predicate NoneBreaks(s: Setting, number: nat, calls: seq<ToolCall>) {
    forall i :: 0 <= i < |calls| ==> !Breaks(s, number + i, calls[i])
  }

  lemma {:induction false} AllAttempted(s: Setting, number: nat, calls: seq<ToolCall>)
    requires NoneBreaks(s, number, calls)
    ensures Attempted(s, number, calls) == calls
    decreases |calls|
  {
    if calls != [] {
      assert !Breaks(s, number + 0, calls[0]);
      forall i | 0 <= i < |calls[1..]| ensures !Breaks(s, number + 1 + i, calls[1..][i]) {
        assert !Breaks(s, number + (i + 1), calls[i + 1]);
      }
      AllAttempted(s, number + 1, calls[1..]);
    }
  }

  lemma {:induction false} AttemptedToBreak(s: Setting, number: nat, calls: seq<ToolCall>, k: nat)
    requires k < |calls| && NoneBreaks(s, number, calls[..k]) && Breaks(s, number + k, calls[k])
    ensures Attempted(s, number, calls) == calls[..k + 1]
    decreases k
  {
    if k > 0 {
      assert calls[..k][0] == calls[0] && !Breaks(s, number + 0, calls[..k][0]);
      var rest := calls[1..][..k - 1];
      forall i | 0 <= i < |rest| ensures !Breaks(s, number + 1 + i, rest[i]) {
        assert !Breaks(s, number + (i + 1), calls[..k][i + 1]);
      }
      AttemptedToBreak(s, number + 1, calls[1..], k - 1);
      assert calls[..k + 1] == [calls[0]] + calls[1..][..k];
    }
  }

  lemma OneMoreCall(s: Setting, number: nat, calls: seq<ToolCall>, results: seq<ToolResult>, log: seq<ToolInvocation>,
                    i: nat, result: ToolResult)
    requires i < |calls| && Told(s, number, calls[..i], results) && Logs(log, calls[..i], results)
    requires result.callId == calls[i].callId && Tells(s, number + i, calls[i], result)
    ensures Told(s, number, calls[..i + 1], results + [result])
    ensures Logs(log + [ToolInvocation(calls[i].name, !result.isError)], calls[..i + 1], results + [result])
  {
    assert calls[..i + 1] == calls[..i] + [calls[i]];
  }

  lemma OneMoreRan(s: Setting, calls: seq<ToolCall>, i: nat)
    requires i < |calls|
    ensures HeldOf(s, calls[..i + 1]) == HeldOf(s, calls[..i]) + if Holds(s, calls[i].name) then [calls[i].name] else []
  {
    assert calls[..i + 1][..i] == calls[..i];
  }

  /** Runs the calls of one turn in order. */
  method InvokeAll(s: Setting, number: nat, calls: seq<ToolCall>)
    returns (results: Option<seq<ToolResult>>, log: seq<ToolInvocation>, ran: seq<string>)
    ensures results.Some? ==> Told(s, number, calls, results.value) && Logs(log, calls, results.value)
    ensures results.Some? <==> NoneBreaks(s, number, calls)
    ensures ran == HeldOf(s, Attempted(s, number, calls))
  {
    var done: seq<ToolResult> := [];
    log, ran := [], [];
    for i := 0 to |calls|
      invariant Told(s, number, calls[..i], done) && Logs(log, calls[..i], done)
      invariant ran == HeldOf(s, calls[..i])
    {
      OneMoreRan(s, calls, i);
      var result, held := Invoke(s, number + i, calls[i]);
      if held {
        ran := ran + [calls[i].name];
      }
      if result.None? {
        NoneBroke(s, number, calls[..i], done);
        AttemptedToBreak(s, number, calls, i);
        return None, log, ran;
      }
      OneMoreCall(s, number, calls, done, log, i, result.value);
      done := done + [result.value];
      log := log + [ToolInvocation(calls[i].name, !result.value.isError)];
    }
    assert calls[..|calls|] == calls;
    NoneBroke(s, number, calls, done);
    AllAttempted(s, number, calls);
    return Some(done), log, ran;
  }

  /** A call that was answered did not break. */
  lemma NoneBroke(s: Setting, number: nat, calls: seq<ToolCall>, results: seq<ToolResult>)
    requires Told(s, number, calls, results)
    ensures NoneBreaks(s, number, calls)
  {
    forall i | 0 <= i < |calls| ensures !Breaks(s, number + i, calls[i]) {
      assert Tells(s, number + i, calls[i], results[i]);
    }
  }

  // ---- The loop

  /** Every model call carries a transcript built from the messages by whole exchanges, but for the last
      user turn or the closing pair, and asks for the schema exactly when it offers no tool. */
  ghost predicate ProperRequest(s: Setting, messages: seq<Message>, r: Request) {
    && messages <= r.messages
    && Exchanges(r.messages[|messages|..])
    && (r.schema <==> r.tools == [])
    && (forall t :: t in r.tools ==> Holds(s, t))
  }

  /** A conversation so far, with everything it was charged and logged. */
  datatype Session = Session(
    conversation: seq<Message>, requests: seq<Request>, responses: seq<Response>,
    log: seq<ToolInvocation>, ran: seq<string>, usage: Usage, fallbacks: seq<string>)

  /** The calls the model asked for while the conversation was open. A closing call, which offers no tool
      to an agent that has some, is not answered with tools. */
  function Asked(offered: seq<string>, requests: seq<Request>, responses: seq<Response>): seq<ToolCall>
    requires |requests| == |responses|
  {
    if requests == [] then []
    else
      var last := |requests| - 1;
      Asked(offered, requests[..last], responses[..last])
      + if requests[last].tools == offered then responses[last].toolCalls else []
  }

  ghost predicate Calls(s: Setting, messages: seq<Message>, x: Session) {
    && |x.requests| == |x.responses|
    && (forall r :: r in x.requests ==> ProperRequest(s, messages, r) && r.messages <= x.conversation)
    && (forall k :: 0 <= k < |x.responses| ==> x.responses[k] == s.model(k, x.requests[k]))
    && (x.requests == [] ==> x.conversation == messages)
    && (x.requests != [] ==> x.requests[0].messages == messages)
  }

  /** The transcript is the messages and whole exchanges, and the log names the calls answered in it, with
      the success their results show. */
  ghost predicate Transcript(messages: seq<Message>, x: Session) {
    && messages <= x.conversation
    && Exchanges(x.conversation[|messages|..])
    && Logs(x.log, CallsIn(x.conversation[|messages|..]), ResultsIn(x.conversation[|messages|..]))
  }

  /** Every result in the transcript says what its call came to. */
  ghost predicate Truthful(s: Setting, messages: seq<Message>, x: Session) {
    && |messages| <= |x.conversation|
    && Told(s, 0, CallsIn(x.conversation[|messages|..]), ResultsIn(x.conversation[|messages|..]))
  }

  /** What ran is the held calls answered in the transcript, and those of `tried`, in order. */
  ghost predicate Ran(s: Setting, messages: seq<Message>, x: Session, tried: seq<ToolCall>) {
    && |messages| <= |x.conversation|
    && x.ran == HeldOf(s, CallsIn(x.conversation[|messages|..]) + tried)
  }

  /** Usage and fallbacks cover every call. */
  ghost predicate Accounts(x: Session) {
    x.usage == TotalUsage(x.responses) && x.fallbacks == FirstOccurrences(FallbacksOf(x.responses))
  }

  ghost predicate OnlyHeld(s: Setting, names: seq<string>) {
    forall name :: name in names ==> Holds(s, name)
  }

  /** What the model asked for is what the transcript answers, and `pending` besides. */
  ghost predicate Answered(s: Setting, messages: seq<Message>, x: Session, pending: seq<ToolCall>) {
    && |messages| <= |x.conversation| && |x.requests| == |x.responses|
    && Asked(Offered(s.registered, s.permitted), x.requests, x.responses) == CallsIn(x.conversation[|messages|..]) + pending
  }

  /** The invariant of the loop. */
  ghost predicate Kept(s: Setting, messages: seq<Message>, x: Session, pending: seq<ToolCall>) {
    && Transcript(messages, x)
    && Truthful(s, messages, x)
    && Calls(s, messages, x)
    && Accounts(x)
    && Answered(s, messages, x, pending)
  }

  lemma CallsGrow(s: Setting, messages: seq<Message>, x: Session, y: Session, r: Request)
    requires Calls(s, messages, x) && ProperRequest(s, messages, r) && r.messages == x.conversation
    requires y.conversation == x.conversation && y.requests == x.requests + [r]
    requires y.responses == x.responses + [s.model(|x.requests|, r)]
    ensures Calls(s, messages, y)
  {
  }

  lemma AskKeeps(s: Setting, messages: seq<Message>, x: Session, y: Session, request: Request)
    requires Kept(s, messages, x, []) && ProperRequest(s, messages, request) && request.messages == x.conversation
    requires var response := s.model(|x.requests|, request);
      y == x.(requests := x.requests + [request], responses := x.responses + [response],
              usage := Accumulate(x.usage, response.usage),
              fallbacks := FirstOccurrences(FallbacksOf(x.responses) + response.fallbacks))
    ensures Kept(s, messages, y, if request.tools == Offered(s.registered, s.permitted) then y.responses[|x.responses|].toolCalls else [])
  {
    var response := s.model(|x.requests|, request);
    CallsGrow(s, messages, x, y, request);
    assert CallsIn(x.conversation[|messages|..]) + [] == CallsIn(x.conversation[|messages|..]);
  }

  /** One model call, charged and remembered. */
  method Ask(s: Setting, ghost messages: seq<Message>, x: Session, tools: seq<string>) returns (y: Session, response: Response)
    requires Kept(s, messages, x, []) && OnlyHeld(s, tools)
    ensures Kept(s, messages, y, if tools == Offered(s.registered, s.permitted) then response.toolCalls else [])
    ensures y.conversation == x.conversation && y.ran == x.ran && y.log == x.log
    ensures y.requests == x.requests + [Request(x.conversation, tools == [], tools)] && y.responses == x.responses + [response]
  {
    var request := Request(x.conversation, tools == [], tools);
    response := s.model(|x.requests|, request);
    var fallbacks := Remember(x.fallbacks, response.fallbacks, FallbacksOf(x.responses));
    y := x.(requests := x.requests + [request], responses := x.responses + [response],
            usage := Accumulate(x.usage, response.usage), fallbacks := fallbacks);
    AskKeeps(s, messages, x, y, request);
  }

  // ---- What each answer of the model leads to

  function Tools(s: Setting): seq<string> {
    Offered(s.registered, s.permitted)
  }

  /** The model asks for tools. */
  predicate Calling(s: Setting, request: Request, response: Response) {
    request.tools == Tools(s) && response.toolCalls != []
  }

  /** The model stops asking, and has yet to put its words into an object. */
  predicate Closing(s: Setting, request: Request, response: Response) {
    request.tools == Tools(s) != [] && response.toolCalls == []
  }

  /** The answer is to be judged. */
  predicate Judging(s: Setting, request: Request, response: Response) {
    !Calling(s, request, response) && !Closing(s, request, response)
  }

  /** The two turns that carry the conversation on after an answer: the answer's own words and calls, and the
      results of the calls, the closing turn, or the reason for which the answer was refused. */
  ghost predicate Replies(s: Setting, request: Request, response: Response, a: Message, u: Message) {
    if Calling(s, request, response) then
      a == Message(Assistant, response.text, response.toolCalls, []) && u == Message(User, "", [], u.toolResults)
    else if Closing(s, request, response) then
      a == Say(Assistant, response.text) && u == Say(User, CLOSING_TURN)
    else
      && s.parse(response.text).Some? && s.accept(s.parse(response.text).value).Some?
      && a == Say(Assistant, response.text) && u == Say(User, s.accept(s.parse(response.text).value).value)
  }

  /** The k-th call of the model is made with the transcript as it then is, and the schema alone exactly after
      words that are to be closed. */
  ghost predicate RequestAt(s: Setting, messages: seq<Message>, x: Session, k: int)
    requires 0 <= k < |x.requests| == |x.responses|
  {
    && |messages| + 2 * k <= |x.conversation|
    && x.requests[k].messages == x.conversation[..|messages| + 2 * k]
    && x.requests[k].tools == if k > 0 && Closing(s, x.requests[k - 1], x.responses[k - 1]) then [] else Tools(s)
  }

  ghost predicate ReplyAt(s: Setting, messages: seq<Message>, x: Session, k: int)
    requires 0 <= k < |x.requests| == |x.responses| && |messages| + 2 * k + 2 <= |x.conversation|
  {
    Replies(s, x.requests[k], x.responses[k], x.conversation[|messages| + 2 * k], x.conversation[|messages| + 2 * k + 1])
  }

  /** The conversation is what its answers make it: the first `done` of them have been replied to, in order, by
      one pair of turns each, and nothing else was said. */
  ghost predicate Script(s: Setting, messages: seq<Message>, x: Session, done: nat) {
    && done <= |x.requests| == |x.responses|
    && messages <= x.conversation && |x.conversation| == |messages| + 2 * done
    && (forall k :: 0 <= k < |x.requests| ==> RequestAt(s, messages, x, k))
    && (forall k :: 0 <= k < done ==> ReplyAt(s, messages, x, k))
  }

  lemma ScriptAsks(s: Setting, messages: seq<Message>, x: Session, y: Session, tools: seq<string>)
    requires Script(s, messages, x, |x.responses|)
    requires y.conversation == x.conversation
    requires y.requests == x.requests + [Request(x.conversation, tools == [], tools)] && |y.responses| == |y.requests|
    requires y.responses[..|x.responses|] == x.responses
    requires var n := |x.requests|;
      tools == if n > 0 && Closing(s, x.requests[n - 1], x.responses[n - 1]) then [] else Tools(s)
    ensures Script(s, messages, y, |x.responses|)
  {
    forall k | 0 <= k < |x.requests| ensures RequestAt(s, messages, y, k) && ReplyAt(s, messages, y, k) {
      assert RequestAt(s, messages, x, k) && ReplyAt(s, messages, x, k);
      assert y.responses[k] == y.responses[..|x.responses|][k];
    }
  }

  lemma ScriptReplies(s: Setting, messages: seq<Message>, x: Session, y: Session, a: Message, u: Message)
    requires x.responses != [] && Script(s, messages, x, |x.responses| - 1)
    requires y.conversation == x.conversation + [a, u] && y.requests == x.requests && y.responses == x.responses
    requires Replies(s, x.requests[|x.requests| - 1], x.responses[|x.responses| - 1], a, u)
    ensures Script(s, messages, y, |y.responses|)
  {
    forall k | 0 <= k < |x.requests| ensures RequestAt(s, messages, y, k) {
      assert RequestAt(s, messages, x, k);
    }
    forall k | 0 <= k < |x.requests| ensures ReplyAt(s, messages, y, k) {
      if k < |x.requests| - 1 {
        assert ReplyAt(s, messages, x, k);
      }
    }
  }

  /** How many calls of the model opened a step. */
  function Opened(s: Setting, requests: seq<Request>): nat {
    if requests == [] then 0
    else Opened(s, requests[..|requests| - 1]) + if requests[|requests| - 1].tools == Tools(s) then 1 else 0
  }

  lemma OpenedOneMore(s: Setting, requests: seq<Request>, r: Request)
    ensures Opened(s, requests + [r]) == Opened(s, requests) + if r.tools == Tools(s) then 1 else 0
  {
    assert (requests + [r])[..|requests|] == requests;
  }

  lemma ToldJoin(s: Setting, calls: seq<ToolCall>, results: seq<ToolResult>, more: seq<ToolCall>, answers: seq<ToolResult>)
    requires Told(s, 0, calls, results) && Told(s, |calls|, more, answers)
    ensures Told(s, 0, calls + more, results + answers)
  {
  }

  lemma LogsJoin(log: seq<ToolInvocation>, calls: seq<ToolCall>, results: seq<ToolResult>,
                 more: seq<ToolInvocation>, asked: seq<ToolCall>, answers: seq<ToolResult>)
    requires Logs(log, calls, results) && Logs(more, asked, answers)
    ensures Logs(log + more, calls + asked, results + answers)
  {
  }

  /** Adds an exchange to the transcript, with the log of its calls. */
  method Add(s: Setting, ghost messages: seq<Message>, x: Session, a: Message, u: Message,
             log: seq<ToolInvocation>, ran: seq<string>) returns (y: Session)
    requires Kept(s, messages, x, a.toolCalls) && Ran(s, messages, x, []) && x.requests != []
    requires Exchange(a, u) && Logs(log, a.toolCalls, u.toolResults)
    requires Told(s, |x.log|, a.toolCalls, u.toolResults) && ran == HeldOf(s, a.toolCalls)
    ensures Kept(s, messages, y, []) && Ran(s, messages, y, [])
    ensures y == x.(conversation := x.conversation + [a, u], log := x.log + log, ran := x.ran + ran)
  {
    y := x.(conversation := x.conversation + [a, u], log := x.log + log, ran := x.ran + ran);
    ghost var added := x.conversation[|messages|..];
    OneMoreExchange(added, a, u);
    CallsInPair(added, a, u);
    ResultsInPair(added, a, u);
    assert y.conversation[|messages|..] == added + [a, u];
    ToldJoin(s, CallsIn(added), ResultsIn(added), a.toolCalls, u.toolResults);
    LogsJoin(x.log, CallsIn(added), ResultsIn(added), log, a.toolCalls, u.toolResults);
    AddRan(s, messages, x, y, a.toolCalls);
    assert CallsIn(added) + a.toolCalls + [] == CallsIn(added) + a.toolCalls;
  }

  lemma AddRan(s: Setting, messages: seq<Message>, x: Session, y: Session, calls: seq<ToolCall>)
    requires Ran(s, messages, x, []) && |messages| <= |y.conversation|
    requires CallsIn(y.conversation[|messages|..]) == CallsIn(x.conversation[|messages|..]) + calls
    requires y.ran == x.ran + HeldOf(s, calls)
    ensures Ran(s, messages, y, [])
  {
    var before := CallsIn(x.conversation[|messages|..]);
    assert before + [] == before && before + calls + [] == before + calls;
    HeldJoin(s, before, calls);
  }

  /** What a verdict shows: an accepted answer is one to be judged that parsed and was not refused, reported with the
      usage of every call, the log of every tool call in order and each fallback once; and a run that breaks
      does so at a call of the last turn whose tool broke. */
  ghost predicate Justified(s: Setting, outcome: Outcome, x: Session) {
    x.responses != [] && |x.requests| == |x.responses| &&
    var request, last := x.requests[|x.responses| - 1], x.responses[|x.responses| - 1];
    match outcome
    case Accepted(output, toolCalls, usage, fallbacks, steps) =>
      && Judging(s, request, last) && s.parse(last.text) == Some(output) && s.accept(output) == None
      && toolCalls == x.log
      && usage == TotalUsage(x.responses)
      && fallbacks == FirstOccurrences(FallbacksOf(x.responses))
    case Malformed => Judging(s, request, last) && s.parse(last.text) == None
    case ToolBroke => Calling(s, request, last) && exists k :: 0 <= k < |last.toolCalls| && Breaks(s, |x.log| + k, last.toolCalls[k])
    case BudgetExhausted => false
  }

  /** The calls left without an answer by a verdict: those of the turn in which a tool broke. */
  function LeftOpen(verdict: Option<Outcome>, x: Session): seq<ToolCall> {
    if verdict == Some(ToolBroke) && x.responses != [] then x.responses[|x.responses| - 1].toolCalls else []
  }

  /** The end of a step: as kept, what ran including what was attempted of a turn that broke. */
  ghost predicate Ends(s: Setting, messages: seq<Message>, verdict: Option<Outcome>, x: Session) {
    && Kept(s, messages, x, LeftOpen(verdict, x))
    && Ran(s, messages, x, Attempted(s, |x.log|, LeftOpen(verdict, x)))
  }

  /** The session goes on: every answer so far has been replied to. */
  ghost predicate Going(s: Setting, messages: seq<Message>, x: Session) {
    Kept(s, messages, x, []) && Ran(s, messages, x, []) && Script(s, messages, x, |x.responses|)
  }

  /** The last answer is yet to be replied to, and asks for these calls. */
  ghost predicate Due(s: Setting, messages: seq<Message>, x: Session, pending: seq<ToolCall>) {
    && x.responses != []
    && Kept(s, messages, x, pending) && Ran(s, messages, x, []) && Script(s, messages, x, |x.responses| - 1)
  }

  /** How many answers were replied to: all of them, but for the one that ends the session. */
  function Replied(verdict: Option<Outcome>, x: Session): nat {
    if verdict.None? || verdict.value.BudgetExhausted? || x.responses == [] then |x.responses| else |x.responses| - 1
  }

  function LastRequest(x: Session): Request
    requires x.requests != []
  {
    x.requests[|x.requests| - 1]
  }

  function LastResponse(x: Session): Response
    requires x.responses != []
  {
    x.responses[|x.responses| - 1]
  }

  /** A step ends justified, or goes on. */
  ghost predicate StepEnds(s: Setting, messages: seq<Message>, verdict: Option<Outcome>, x: Session) {
    && Ends(s, messages, verdict, x) && Script(s, messages, x, Replied(verdict, x))
    && (if verdict.Some? then Justified(s, verdict.value, x) else Ready(s, x))
  }

  /** A step may open: no words wait to be closed. */
  ghost predicate Ready(s: Setting, x: Session) {
    |x.requests| == |x.responses| && (x.requests != [] ==> !Closing(s, LastRequest(x), LastResponse(x)))
  }

  /** A turn in which the model asked for tools: they are run, in order, and answered together. */
  method AnswerCalls(s: Setting, ghost messages: seq<Message>, x: Session, response: Response)
    returns (verdict: Option<Outcome>, y: Session)
    requires Due(s, messages, x, response.toolCalls) && response == LastResponse(x)
    requires x.requests != [] && Calling(s, LastRequest(x), response)
    ensures StepEnds(s, messages, verdict, y) && y.responses == x.responses && y.requests == x.requests
    ensures verdict.None? <==> NoneBreaks(s, |x.log|, response.toolCalls)
    ensures verdict.Some? ==> verdict.value == ToolBroke
  {
    var results, log, ran := InvokeAll(s, |x.log|, response.toolCalls);
    if results.None? {
      y := x.(ran := x.ran + ran);
      BreaksOff(s, messages, x, y);
      return Some(ToolBroke), y;
    }
    AllAttempted(s, |x.log|, response.toolCalls);
    var a, u := Message(Assistant, response.text, response.toolCalls, []), Message(User, "", [], results.value);
    y := Add(s, messages, x, a, u, log, ran);
    RepliesAndGoesOn(s, messages, x, y, a, u);
    return None, y;
  }

  /** A pair of turns that replies to the last answer, unless that one is to be closed, ends a step. */
  lemma RepliesAndGoesOn(s: Setting, messages: seq<Message>, x: Session, y: Session, a: Message, u: Message)
    requires x.responses != [] && Script(s, messages, x, |x.responses| - 1)
    requires y.conversation == x.conversation + [a, u] && y.requests == x.requests && y.responses == x.responses
    requires Replies(s, LastRequest(x), LastResponse(x), a, u) && !Closing(s, LastRequest(x), LastResponse(x))
    requires Kept(s, messages, y, []) && Ran(s, messages, y, [])
    ensures StepEnds(s, messages, None, y)
  {
    ScriptReplies(s, messages, x, y, a, u);
    GoesOn(s, messages, None, y);
  }

  lemma ScriptStands(s: Setting, messages: seq<Message>, x: Session, y: Session, done: nat)
    requires Script(s, messages, x, done)
    requires y.conversation == x.conversation && y.requests == x.requests && y.responses == x.responses
    ensures Script(s, messages, y, done)
  {
    forall k | 0 <= k < |x.requests| ensures RequestAt(s, messages, y, k) {
      assert RequestAt(s, messages, x, k);
    }
    forall k | 0 <= k < done ensures ReplyAt(s, messages, y, k) {
      assert ReplyAt(s, messages, x, k);
    }
  }

  /** A session whose calls are all answered ends as it was kept. */
  lemma GoesOn(s: Setting, messages: seq<Message>, verdict: Option<Outcome>, x: Session)
    requires Kept(s, messages, x, []) && Ran(s, messages, x, []) && verdict != Some(ToolBroke)
    ensures Ends(s, messages, verdict, x)
  {
  }

  lemma BreaksOff(s: Setting, messages: seq<Message>, x: Session, y: Session)
    requires x.responses != [] && Due(s, messages, x, LastResponse(x).toolCalls)
    requires Calling(s, LastRequest(x), LastResponse(x))
    requires var calls := LastResponse(x).toolCalls;
      !NoneBreaks(s, |x.log|, calls) && y == x.(ran := x.ran + HeldOf(s, Attempted(s, |x.log|, calls)))
    ensures StepEnds(s, messages, Some(ToolBroke), y)
  {
    var calls := LastResponse(x).toolCalls;
    KeptWhateverRan(s, messages, x, y, calls);
    RanToBreak(s, messages, x, y, Attempted(s, |x.log|, calls));
    ScriptStands(s, messages, x, y, |x.responses| - 1);
    EndsBroken(s, messages, y);
  }

  lemma KeptWhateverRan(s: Setting, messages: seq<Message>, x: Session, y: Session, pending: seq<ToolCall>)
    requires Kept(s, messages, x, pending) && y == x.(ran := y.ran)
    ensures Kept(s, messages, y, pending)
  {
  }

  lemma EndsBroken(s: Setting, messages: seq<Message>, y: Session)
    requires y.responses != [] && |y.requests| == |y.responses| && Calling(s, LastRequest(y), LastResponse(y))
    requires var calls := LastResponse(y).toolCalls;
      && Kept(s, messages, y, calls) && Ran(s, messages, y, Attempted(s, |y.log|, calls)) && !NoneBreaks(s, |y.log|, calls)
    ensures Ends(s, messages, Some(ToolBroke), y) && Justified(s, ToolBroke, y)
  {
    assert LeftOpen(Some(ToolBroke), y) == y.responses[|y.responses| - 1].toolCalls;
  }

  lemma RanToBreak(s: Setting, messages: seq<Message>, x: Session, y: Session, tried: seq<ToolCall>)
    requires Ran(s, messages, x, []) && y == x.(ran := x.ran + HeldOf(s, tried))
    ensures Ran(s, messages, y, tried)
  {
    var answered := CallsIn(x.conversation[|messages|..]);
    assert answered + [] == answered;
    HeldJoin(s, answered, tried);
  }

  /** The closing call: the words are put into an object. */
  method Close(s: Setting, ghost messages: seq<Message>, x: Session) returns (y: Session)
    requires Due(s, messages, x, []) && x.requests != [] && Closing(s, LastRequest(x), LastResponse(x))
    ensures Due(s, messages, y, []) && |y.responses| == |x.responses| + 1
    ensures y.requests != [] && Judging(s, LastRequest(y), LastResponse(y))
    ensures Opened(s, y.requests) == Opened(s, x.requests)
  {
    var a, u := Say(Assistant, LastResponse(x).text), Say(User, CLOSING_TURN);
    var z := Add(s, messages, x, a, u, [], []);
    ScriptReplies(s, messages, x, z, a, u);
    var response;
    y, response := Ask(s, messages, z, []);
    ScriptAsks(s, messages, z, y, []);
    OpenedOneMore(s, z.requests, LastRequest(y));
    AskedDue(s, messages, z, y);
  }

  lemma AskedDue(s: Setting, messages: seq<Message>, x: Session, y: Session)
    requires Ran(s, messages, x, []) && y.conversation == x.conversation && y.ran == x.ran
    ensures Ran(s, messages, y, [])
  {
  }

  /** An answer is judged: taken, refused with a reason that goes back to the model, or not an object at all. */
  method Judge(s: Setting, ghost messages: seq<Message>, x: Session, step: nat) returns (verdict: Option<Outcome>, y: Session)
    requires Due(s, messages, x, []) && x.requests != [] && Judging(s, LastRequest(x), LastResponse(x))
    ensures StepEnds(s, messages, verdict, y) && y.responses == x.responses && y.requests == x.requests
    ensures var output := s.parse(LastResponse(x).text);
      && (verdict == Some(Malformed) <==> output.None?)
      && (verdict.None? <==> output.Some? && s.accept(output.value).Some?)
      && (output.Some? && s.accept(output.value).None? ==>
            verdict == Some(Accepted(output.value, x.log, x.usage, x.fallbacks, step)))
  {
    y := x;
    var text := LastResponse(x).text;
    var output := s.parse(text);
    if output.None? {
      GoesOn(s, messages, Some(Malformed), y);
      return Some(Malformed), y;
    }
    var refusal := s.accept(output.value);
    if refusal.None? {
      verdict := Some(Accepted(output.value, y.log, y.usage, y.fallbacks, step));
      GoesOn(s, messages, verdict, y);
      return verdict, y;
    }
    var a, u := Say(Assistant, text), Say(User, refusal.value);
    y := Add(s, messages, x, a, u, [], []);
    RepliesAndGoesOn(s, messages, x, y, a, u);
    return None, y;
  }

  /** A turn in which the model stopped asking: its words are closed into an object if need be, and judged. */
  method Conclude(s: Setting, ghost messages: seq<Message>, x: Session, step: nat)
    returns (verdict: Option<Outcome>, y: Session)
    requires Due(s, messages, x, []) && x.requests != [] && !Calling(s, LastRequest(x), LastResponse(x))
    requires LastRequest(x).tools == Tools(s)
    ensures StepEnds(s, messages, verdict, y) && (verdict.Some? ==> !verdict.value.ToolBroke?)
    ensures |x.responses| <= |y.responses| <= |x.responses| + 1 && Opened(s, y.requests) == Opened(s, x.requests)
    ensures verdict.Some? && verdict.value.Accepted? ==> verdict.value.steps == step
  {
    y := x;
    if Tools(s) != [] {
      y := Close(s, messages, y);
    }
    verdict, y := Judge(s, messages, y, step);
  }

  /** One step of the loop: at least one model call, at most two. */
  method Step(s: Setting, ghost messages: seq<Message>, x: Session, step: nat)
    returns (verdict: Option<Outcome>, y: Session)
    requires Going(s, messages, x) && Ready(s, x)
    ensures StepEnds(s, messages, verdict, y)
    ensures |x.responses| + 1 <= |y.responses| <= |x.responses| + 2 && Opened(s, y.requests) == Opened(s, x.requests) + 1
    ensures verdict.Some? && verdict.value.Accepted? ==> verdict.value.steps == step
  {
    var offered := Tools(s);
    OfferedAreHeld(s.registered, s.permitted);
    var response;
    y, response := Ask(s, messages, x, offered);
    ScriptAsks(s, messages, x, y, offered);
    OpenedOneMore(s, x.requests, LastRequest(y));
    AskedDue(s, messages, x, y);
    if response.toolCalls != [] {
      verdict, y := AnswerCalls(s, messages, y, response);
    } else {
      verdict, y := Conclude(s, messages, y, step);
    }
  }

  /** All the model asked for while the conversation was open. */
  function AllAsked(s: Setting, x: Session): seq<ToolCall>
    requires |x.requests| == |x.responses|
  {
    Asked(Offered(s.registered, s.permitted), x.requests, x.responses)
  }

  /** A session ends with a broken tool exactly when a call that was asked for breaks. */
  lemma BrokenIff(s: Setting, messages: seq<Message>, outcome: Outcome, x: Session)
    requires Ends(s, messages, Some(outcome), x)
    requires outcome.ToolBroke? ==> Justified(s, outcome, x)
    ensures outcome.ToolBroke? <==> exists i :: 0 <= i < |AllAsked(s, x)| && Breaks(s, i, AllAsked(s, x)[i])
  {
    var answered, open := CallsIn(x.conversation[|messages|..]), LeftOpen(Some(outcome), x);
    assert AllAsked(s, x) == answered + open && |x.log| == |answered|;
    NoneBroke(s, 0, answered, ResultsIn(x.conversation[|messages|..]));
    if outcome.ToolBroke? {
      var k :| 0 <= k < |open| && Breaks(s, |x.log| + k, open[k]);
      assert AllAsked(s, x)[|answered| + k] == open[k];
    }
  }

  lemma NothingSaidYet(s: Setting, messages: seq<Message>)
    ensures var x := Session(messages, [], [], [], [], NO_USAGE, []);
      Going(s, messages, x) && Ready(s, x)
  {
    assert messages[|messages|..] == [];
  }

  /** Every answer to be judged among those replied to parsed, and was refused. */
  lemma JudgedWereRefused(s: Setting, messages: seq<Message>, x: Session, done: nat, k: nat)
    requires Script(s, messages, x, done) && k < done && Judging(s, x.requests[k], x.responses[k])
    ensures s.parse(x.responses[k].text).Some? && s.accept(s.parse(x.responses[k].text).value).Some?
  {
    assert ReplyAt(s, messages, x, k);
  }

  /** The account a session gives of itself: the bill of its responses, the fallbacks they met in the order they
      first met them, and nothing run but what the agent holds. */
  ghost predicate Account(s: Setting, x: Session) {
    && Bills(x.usage, x.responses)
    && (exists at :: FirstOfEach(FallbacksOf(x.responses), x.fallbacks, at))
    && (forall name :: name in x.ran ==> name in s.permitted && name in s.registered)
  }

  lemma EndsAccounted(s: Setting, messages: seq<Message>, verdict: Option<Outcome>, x: Session)
    requires Ends(s, messages, verdict, x)
    ensures Account(s, x)
  {
    TotalIsBill(x.responses);
    var at := FirstOccurrencesInOrder(FallbacksOf(x.responses));
    OnlyHeldRan(s, CallsIn(x.conversation[|messages|..]) + Attempted(s, |x.log|, LeftOpen(verdict, x)));
  }

  /** Runs the conversation until an answer is accepted, a tool breaks or the budget is spent: at most two
      model calls a step. `x` is the whole session. The conversation is what the answers made it, every answer
      but the one that ends it replied to; so the first that may be accepted is, and the budget is spent only
      when every answer to be judged was refused. */
  method Run(s: Setting, messages: seq<Message>) returns (outcome: Outcome, x: Session)
    ensures Ends(s, messages, Some(outcome), x) && Account(s, x)
    ensures outcome.Accepted? ==> outcome.usage == x.usage && outcome.fallbacks == x.fallbacks
    ensures Script(s, messages, x, Replied(Some(outcome), x))
    ensures outcome.BudgetExhausted? ==> Opened(s, x.requests) == s.maxSteps
    ensures outcome.Accepted? ==> Opened(s, x.requests) == outcome.steps
    ensures outcome.ToolBroke? <==> exists i :: 0 <= i < |AllAsked(s, x)| && Breaks(s, i, AllAsked(s, x)[i])
    ensures if outcome.BudgetExhausted? then s.maxSteps <= |x.responses| else Justified(s, outcome, x)
    ensures outcome.Accepted? ==> 1 <= outcome.steps <= s.maxSteps && outcome.steps <= |x.responses| <= 2 * outcome.steps
    ensures |x.responses| <= 2 * s.maxSteps
  {
    NothingSaidYet(s, messages);
    x := Session(messages, [], [], [], [], NO_USAGE, []);
    for step := 1 to s.maxSteps + 1
      invariant Going(s, messages, x) && Ready(s, x)
      invariant step - 1 <= |x.responses| <= 2 * (step - 1) && Opened(s, x.requests) == step - 1
    {
      var verdict;
      verdict, x := Step(s, messages, x, step);
      if verdict.Some? {
        BrokenIff(s, messages, verdict.value, x);
        EndsAccounted(s, messages, verdict, x);
        return verdict.value, x;
      }
      StepGoesOn(s, messages, x);
    }
    GoesOn(s, messages, Some(BudgetExhausted), x);
    BrokenIff(s, messages, BudgetExhausted, x);
    EndsAccounted(s, messages, Some(BudgetExhausted), x);
    return BudgetExhausted, x;
  }

  lemma StepGoesOn(s: Setting, messages: seq<Message>, x: Session)
    requires StepEnds(s, messages, None, x)
    ensures Going(s, messages, x) && Ready(s, x)
  {
  }
}
