/** internal/agent/toolloop/loop.go: the send, detect, dispatch, repeat conversation with a model. */
module ToolLoop {
  import opened Wrappers

  const DEFAULT_MAX_ITERATIONS := 20

  datatype Call = Call(id: string, name: string, arguments: string)
  datatype Part = Part(text: Option<string>, calls: seq<Call>)
  datatype Response = Response(usage: Option<string>, candidates: seq<seq<Part>>)
  datatype Item = StreamError | NilResponse | Received(response: Response)
  datatype Reply = SendError | Stream(items: seq<Item>)
  datatype Content = User(text: string) | FunctionCallResult(id: string, name: string, result: string)
  datatype ToolOutcome = RunError | ConversionError | Output(result: string)

  datatype LoopError =
    Sending | Reading | NoCandidates | UnknownTool(name: string) | ToolFailed(name: string) | MaxIterations
  datatype Outcome = Answer(text: string) | Error(e: LoopError)

  /** The model's reply and the tools' results, for each round of one conversation. */
  type Chat = (nat, seq<Content>) -> Reply
  type Tool = (nat, nat, Call) -> ToolOutcome

  // ---------------------------------------------------------------- one reply

  /** What counts of a stream: everything before the first nil response or error. */
  function Counted(items: seq<Item>): (n: nat)
    ensures n <= |items|
    ensures forall i :: 0 <= i < n ==> items[i].Received?
    ensures n < |items| ==> !items[n].Received?
  {
    if items == [] || !items[0].Received? then 0 else 1 + Counted(items[1..])
  }

  function Broken(items: seq<Item>): bool {
    Counted(items) < |items| && items[Counted(items)].StreamError?
  }

  /** The parts of the first candidates, in order of arrival. */
  function PartsOf(items: seq<Item>): seq<Part>
    requires forall i :: 0 <= i < |items| ==> items[i].Received?
  {
    if items == [] then []
    else
      var last := items[|items| - 1].response;
      PartsOf(items[..|items| - 1]) + (if last.candidates == [] then [] else last.candidates[0])
  }

  function TextOf(parts: seq<Part>): string {
    if parts == [] then ""
    else TextOf(parts[..|parts| - 1]) + (var t := parts[|parts| - 1].text; if t.Some? then t.value else "")
  }

  function CallsOf(parts: seq<Part>): seq<Call> {
    if parts == [] then [] else CallsOf(parts[..|parts| - 1]) + parts[|parts| - 1].calls
  }

  function UsageOf(items: seq<Item>, before: Option<string>): Option<string>
    requires forall i :: 0 <= i < |items| ==> items[i].Received?
  {
    if items == [] then before
    else
      var u := items[|items| - 1].response.usage;
      if u.Some? then u else UsageOf(items[..|items| - 1], before)
  }

  ghost predicate SawCandidate(items: seq<Item>)
    requires forall i :: 0 <= i < |items| ==> items[i].Received?
  {
    exists i :: 0 <= i < |items| && items[i].response.candidates != []
  }

  // ---------------------------------------------------------------- one round

  /** What becomes of a round: the conversation ends, or goes on with the results of the calls. */
  datatype Round = Ends(outcome: Outcome) | GoesOn(results: seq<Content>)

  predicate Works(tool: Tool, toolset: set<string>, round: nat, j: nat, c: Call) {
    c.name in toolset && tool(round, j, c).Output?
  }

  function ResultOf(tool: Tool, round: nat, j: nat, c: Call): Content {
    var o := tool(round, j, c);
    FunctionCallResult(c.id, c.name, if o.Output? then o.result else "")
  }

  /** The first call that does not work aborts the batch. */
  ghost predicate Dispatched(tool: Tool, toolset: set<string>, round: nat, calls: seq<Call>, r: Round) {
    if forall j :: 0 <= j < |calls| ==> Works(tool, toolset, round, j, calls[j]) then
      r == GoesOn(seq(|calls|, j requires 0 <= j < |calls| => ResultOf(tool, round, j, calls[j])))
    else
      exists j :: 0 <= j < |calls| && (forall i :: 0 <= i < j ==> Works(tool, toolset, round, i, calls[i]))
               && !Works(tool, toolset, round, j, calls[j])
               && r == Ends(Error(if calls[j].name in toolset then ToolFailed(calls[j].name)
                                  else UnknownTool(calls[j].name)))
  }

  ghost predicate IsRound(reply: Reply, tool: Tool, toolset: set<string>, round: nat, r: Round) {
    if reply.SendError? then r == Ends(Error(Sending))
    else if Broken(reply.items) then r == Ends(Error(Reading))
    else
      var items := reply.items[..Counted(reply.items)];
      var parts := PartsOf(items);
      if !SawCandidate(items) then r == Ends(Error(NoCandidates))
      else if CallsOf(parts) == [] then r == Ends(Answer(TextOf(parts)))
      else Dispatched(tool, toolset, round, CallsOf(parts), r)
  }

  lemma RoundUnique(reply: Reply, tool: Tool, toolset: set<string>, round: nat, r: Round, r': Round)
    requires IsRound(reply, tool, toolset, round, r) && IsRound(reply, tool, toolset, round, r')
    ensures r == r'
  {
  }

  method DispatchToolCalls(calls: seq<Call>, tool: Tool, toolset: set<string>, round: nat) returns (r: Round)
    ensures Dispatched(tool, toolset, round, calls, r)
  {
    var results: seq<Content> := [];
    for j := 0 to |calls|
      invariant forall i :: 0 <= i < j ==> Works(tool, toolset, round, i, calls[i])
      invariant |results| == j && forall i :: 0 <= i < j ==> results[i] == ResultOf(tool, round, i, calls[i])
    {
      var call := calls[j];
      if call.name !in toolset {
        assert !Works(tool, toolset, round, j, calls[j]);
        return Ends(Error(UnknownTool(call.name)));
      }
      var output := tool(round, j, call);
      if !output.Output? {
        assert !Works(tool, toolset, round, j, calls[j]);
        return Ends(Error(ToolFailed(call.name)));
      }
      results := results + [FunctionCallResult(call.id, call.name, output.result)];
    }
    return GoesOn(results);
  }

  /** The texts and calls of one candidate's parts, after those that came before. */
  method ReadParts(text: string, calls: seq<Call>, parts: seq<Part>, ghost had: seq<Part>)
    returns (text': string, calls': seq<Call>)
    requires text == TextOf(had) && calls == CallsOf(had)
    ensures text' == TextOf(had + parts) && calls' == CallsOf(had + parts)
  {
    hide TextOf, CallsOf;
    text', calls' := text, calls;
    assert had + parts[..0] == had;
    for p := 0 to |parts|
      invariant text' == TextOf(had + parts[..p]) && calls' == CallsOf(had + parts[..p])
    {
      assert had + parts[..p + 1] == had + parts[..p] + [parts[p]];
      PartsSnoc(had + parts[..p], parts[p]);
      if parts[p].text.Some? { text' := text' + parts[p].text.value; }
      if parts[p].calls != [] { calls' := calls' + parts[p].calls; }
    }
    assert parts[..|parts|] == parts;
  }

  lemma PartsSnoc(parts: seq<Part>, part: Part)
    ensures TextOf(parts + [part]) == TextOf(parts) + (if part.text.Some? then part.text.value else "")
    ensures CallsOf(parts + [part]) == CallsOf(parts) + part.calls
  {
    assert (parts + [part])[..|parts|] == parts;
  }

  /** One more response of a stream. */
  lemma ReceivedSnoc(items: seq<Item>, i: nat, before: Option<string>)
    requires i < Counted(items)
    ensures var r := items[i].response;
            && PartsOf(items[..i + 1]) == PartsOf(items[..i]) + (if r.candidates == [] then [] else r.candidates[0])
            && UsageOf(items[..i + 1], before) == (if r.usage.Some? then r.usage else UsageOf(items[..i], before))
            && (SawCandidate(items[..i + 1]) <==> SawCandidate(items[..i]) || r.candidates != [])
  {
    assert items[..i + 1][..i] == items[..i];
    if SawCandidate(items[..i]) {
      var j :| 0 <= j < i && items[..i][j].response.candidates != [];
      assert items[..i + 1][j].response.candidates != [];
    }
    if items[i].response.candidates != [] { assert items[..i + 1][i].response.candidates != []; }
    if SawCandidate(items[..i + 1]) && items[i].response.candidates == [] {
      var j :| 0 <= j < i + 1 && items[..i + 1][j].response.candidates != [];
      assert items[..i][j].response.candidates != [];
    }
  }

  /** Reading one stream: the text, the calls and whether any candidate arrived. */
  method ReadStream(items: seq<Item>, before: Option<string>)
    returns (ok: bool, text: string, calls: seq<Call>, sawCandidate: bool, usage: Option<string>)
    ensures ok <==> !Broken(items)
    ensures var counted := items[..Counted(items)];
            && usage == UsageOf(counted, before)
            && (ok ==>
                  && text == TextOf(PartsOf(counted)) && calls == CallsOf(PartsOf(counted))
                  && (sawCandidate <==> SawCandidate(counted)))
  {
    hide PartsOf, TextOf, CallsOf, UsageOf, SawCandidate;
    text, calls, sawCandidate, usage := "", [], false, before;
    NothingReceived(before);
    assert items[..0] == [];
    var i := 0;
    while i < |items|
      invariant i <= Counted(items)
      invariant usage == UsageOf(items[..i], before)
      invariant text == TextOf(PartsOf(items[..i])) && calls == CallsOf(PartsOf(items[..i]))
      invariant sawCandidate <==> SawCandidate(items[..i])
    {
      if items[i].StreamError? {
        assert i == Counted(items);
        return false, text, calls, sawCandidate, usage;
      }
      if items[i].NilResponse? {
        assert i == Counted(items);
        break;
      }
      ReceivedSnoc(items, i, before);
      var response := items[i].response;
      if response.usage.Some? { usage := response.usage; }
      if response.candidates != [] {
        sawCandidate := true;
        text, calls := ReadParts(text, calls, response.candidates[0], PartsOf(items[..i]));
      } else {
        assert PartsOf(items[..i]) + [] == PartsOf(items[..i]);
      }
      i := i + 1;
    }
    ok := true;
  }

  lemma NothingReceived(before: Option<string>)
    ensures UsageOf([], before) == before && PartsOf([]) == [] && TextOf([]) == "" && CallsOf([]) == []
            && !SawCandidate([])
  {
  }

  /** One reply and the dispatch it leads to. */
  method ReadRound(reply: Reply, tool: Tool, toolset: set<string>, iteration: nat, before: Option<string>)
    returns (r: Round, usage: Option<string>)
    ensures IsRound(reply, tool, toolset, iteration, r)
    ensures usage == if reply.SendError? then before else UsageOf(reply.items[..Counted(reply.items)], before)
  {
    hide Dispatched, Counted, Broken, SawCandidate, PartsOf, TextOf, CallsOf, UsageOf;
    if reply.SendError? {
      return Ends(Error(Sending)), before;
    }
    var ok, text, calls, sawCandidate, usage' := ReadStream(reply.items, before);
    usage := usage';
    if !ok {
      return Ends(Error(Reading)), usage;
    }
    if !sawCandidate {
      return Ends(Error(NoCandidates)), usage;
    }
    if calls == [] {
      return Ends(Answer(text)), usage;
    }
    r := DispatchToolCalls(calls, tool, toolset, iteration);
  }

  // ---------------------------------------------------------------- the conversation

  function Limit(maxIterations: int): nat {
    if maxIterations <= 0 then 20 else maxIterations
  }

  /** `sends` are the messages sent, in order: the initial content, then after every round that goes on
      the results of its calls. The last round decides the outcome, unless the limit does. */
  ghost predicate IsConversation(chat: Chat, tool: Tool, toolset: set<string>, initial: seq<Content>, limit: nat,
                                 sends: seq<seq<Content>>, outcome: Outcome) {
    && 1 <= |sends| <= limit && sends[0] == initial
    && (forall i :: 0 <= i < |sends| - 1 ==> IsRound(chat(i, sends[i]), tool, toolset, i, GoesOn(sends[i + 1])))
    && var n := |sends| - 1;
       || IsRound(chat(n, sends[n]), tool, toolset, n, Ends(outcome))
       || (|sends| == limit && outcome == Error(MaxIterations)
           && exists results :: IsRound(chat(n, sends[n]), tool, toolset, n, GoesOn(results)))
  }

  ghost function UsageAfter(chat: Chat, sends: seq<seq<Content>>): Option<string> {
    if sends == [] then None
    else
      var n := |sends| - 1;
      var before := UsageAfter(chat, sends[..n]);
      match chat(n, sends[n])
      case SendError => before
      case Stream(items) => UsageOf(items[..Counted(items)], before)
  }

  /** Rounds that all went on; the last one's results, or the initial content, are to be sent next. */
  ghost predicate GoingOn(chat: Chat, tool: Tool, toolset: set<string>, initial: seq<Content>,
                          sends: seq<seq<Content>>, next: seq<Content>) {
    && (if sends == [] then next == initial else sends[0] == initial)
    && (forall i :: 0 <= i < |sends| - 1 ==> IsRound(chat(i, sends[i]), tool, toolset, i, GoesOn(sends[i + 1])))
    && (sends != [] ==> IsRound(chat(|sends| - 1, sends[|sends| - 1]), tool, toolset, |sends| - 1, GoesOn(next)))
  }

  lemma OneMoreRound(chat: Chat, tool: Tool, toolset: set<string>, initial: seq<Content>,
                     sends: seq<seq<Content>>, next: seq<Content>, limit: nat, r: Round)
    requires GoingOn(chat, tool, toolset, initial, sends, next) && |sends| < limit
    requires IsRound(chat(|sends|, next), tool, toolset, |sends|, r)
    ensures r.GoesOn? ==> GoingOn(chat, tool, toolset, initial, sends + [next], r.results)
    ensures r.Ends? ==> IsConversation(chat, tool, toolset, initial, limit, sends + [next], r.outcome)
  {
    hide IsRound;
    var after := sends + [next];
    forall i | 0 <= i < |after| - 1 ensures IsRound(chat(i, after[i]), tool, toolset, i, GoesOn(after[i + 1])) {
    }
  }

  method Run(chat: Chat, tool: Tool, toolset: set<string>, initial: seq<Content>, maxIterations: int)
    returns (outcome: Outcome, usage: Option<string>, sends: seq<seq<Content>>)
    ensures IsConversation(chat, tool, toolset, initial, Limit(maxIterations), sends, outcome)
    ensures usage == UsageAfter(chat, sends)
  {
    hide IsRound, Counted, UsageOf;
    var limit := if maxIterations <= 0 then DEFAULT_MAX_ITERATIONS else maxIterations;
    var content := initial;
    usage := None;
    sends := [];
    for iteration := 0 to limit
      invariant |sends| == iteration && GoingOn(chat, tool, toolset, initial, sends, content)
      invariant usage == UsageAfter(chat, sends)
    {
      hide GoingOn, IsConversation;
      assert (sends + [content])[..|sends|] == sends;
      var round, usage' := ReadRound(chat(iteration, content), tool, toolset, iteration, usage);
      OneMoreRound(chat, tool, toolset, initial, sends, content, limit, round);
      sends := sends + [content];
      usage := usage';
      if round.Ends? {
        return round.outcome, usage, sends;
      }
      content := round.results;
    }
    return Error(MaxIterations), usage, sends;
  }

  lemma DispatchEndsInError(tool: Tool, toolset: set<string>, round: nat, calls: seq<Call>, r: Round)
    requires Dispatched(tool, toolset, round, calls, r)
    ensures r.Ends? ==> r.outcome.Error?
    ensures r.GoesOn? ==> |r.results| == |calls|
    ensures r.GoesOn? ==> forall j :: 0 <= j < |calls| ==>
              && Works(tool, toolset, round, j, calls[j])
              && r.results[j] == FunctionCallResult(calls[j].id, calls[j].name, tool(round, j, calls[j]).result)
  {
  }

  /** The calls of the `i`-th reply, empty unless it was read to its end. */
  ghost function CallsOfRound(chat: Chat, sends: seq<seq<Content>>, i: nat): seq<Call>
    requires i < |sends|
  {
    match chat(i, sends[i])
    case SendError => []
    case Stream(items) => CallsOf(PartsOf(items[..Counted(items)]))
  }

  /** Every send after the first answers the calls of the round before it: one result per call, in order,
      under the call's own ID and name, and only when every tool worked. */
  lemma ResultsAnswerCalls(chat: Chat, tool: Tool, toolset: set<string>, initial: seq<Content>, limit: nat,
                           sends: seq<seq<Content>>, outcome: Outcome, i: nat)
    requires IsConversation(chat, tool, toolset, initial, limit, sends, outcome) && i + 1 < |sends|
    ensures var calls := CallsOfRound(chat, sends, i);
            && calls != [] && |sends[i + 1]| == |calls|
            && forall j :: 0 <= j < |calls| ==>
                 && Works(tool, toolset, i, j, calls[j])
                 && sends[i + 1][j] == FunctionCallResult(calls[j].id, calls[j].name, tool(i, j, calls[j]).result)
  {
    hide Dispatched, Works, Counted, PartsOf, CallsOf, TextOf;
    assert IsRound(chat(i, sends[i]), tool, toolset, i, GoesOn(sends[i + 1]));
    DispatchEndsInError(tool, toolset, i, CallsOfRound(chat, sends, i), GoesOn(sends[i + 1]));
  }

  /** An answer comes exactly from a last round with a candidate and no calls, and is that round's text. */
  lemma AnswerIffNoCalls(chat: Chat, tool: Tool, toolset: set<string>, initial: seq<Content>, limit: nat,
                         sends: seq<seq<Content>>, outcome: Outcome)
    requires IsConversation(chat, tool, toolset, initial, limit, sends, outcome)
    ensures var n := |sends| - 1;
            var reply := chat(n, sends[n]);
            outcome.Answer? <==>
              && reply.Stream? && !Broken(reply.items) && SawCandidate(reply.items[..Counted(reply.items)])
              && CallsOfRound(chat, sends, n) == []
    ensures outcome.Answer? ==>
              var items := chat(|sends| - 1, sends[|sends| - 1]).items;
              outcome.text == TextOf(PartsOf(items[..Counted(items)]))
  {
    hide Dispatched, Broken, SawCandidate, Counted, PartsOf, CallsOf, TextOf;
    var n := |sends| - 1;
    var calls := CallsOfRound(chat, sends, n);
    if Dispatched(tool, toolset, n, calls, Ends(outcome)) {
      DispatchEndsInError(tool, toolset, n, calls, Ends(outcome));
    }
  }

  /** Replies and tool results determine the whole conversation. */
  lemma {:induction false} ConversationUnique(chat: Chat, tool: Tool, toolset: set<string>, initial: seq<Content>,
                                              limit: nat,
                                              sends: seq<seq<Content>>, outcome: Outcome,
                                              sends': seq<seq<Content>>, outcome': Outcome)
    requires IsConversation(chat, tool, toolset, initial, limit, sends, outcome)
    requires IsConversation(chat, tool, toolset, initial, limit, sends', outcome')
    ensures sends == sends' && outcome == outcome'
  {
    hide IsRound;
    if |sends| <= |sends'| {
      SamePrefix(chat, tool, toolset, sends, sends', |sends|);
      SameEnd(chat, tool, toolset, initial, limit, sends, outcome, sends', outcome');
    } else {
      SamePrefix(chat, tool, toolset, sends', sends, |sends'|);
      SameEnd(chat, tool, toolset, initial, limit, sends', outcome', sends, outcome);
    }
  }

  lemma {:induction false} SamePrefix(chat: Chat, tool: Tool, toolset: set<string>, a: seq<seq<Content>>,
                                      b: seq<seq<Content>>, n: nat)
    requires 1 <= n <= |a| && n <= |b| && a[0] == b[0]
    requires forall i :: 0 <= i < |a| - 1 ==> IsRound(chat(i, a[i]), tool, toolset, i, GoesOn(a[i + 1]))
    requires forall i :: 0 <= i < |b| - 1 ==> IsRound(chat(i, b[i]), tool, toolset, i, GoesOn(b[i + 1]))
    ensures a[..n] == b[..n]
  {
    hide IsRound;
    if n > 1 {
      SamePrefix(chat, tool, toolset, a, b, n - 1);
      assert a[n - 2] == a[..n - 1][n - 2] == b[..n - 1][n - 2] == b[n - 2];
      assert IsRound(chat(n - 2, a[n - 2]), tool, toolset, n - 2, GoesOn(a[n - 2 + 1]));
      assert IsRound(chat(n - 2, b[n - 2]), tool, toolset, n - 2, GoesOn(b[n - 2 + 1]));
      RoundUnique(chat(n - 2, a[n - 2]), tool, toolset, n - 2, GoesOn(a[n - 1]), GoesOn(b[n - 1]));
      assert a[..n] == a[..n - 1] + [a[n - 1]] && b[..n] == b[..n - 1] + [b[n - 1]];
    }
  }

  /** A conversation stops at a round that would go on only because of the limit. */
  lemma LastRound(chat: Chat, tool: Tool, toolset: set<string>, initial: seq<Content>, limit: nat,
                  sends: seq<seq<Content>>, outcome: Outcome, results: seq<Content>)
    requires IsConversation(chat, tool, toolset, initial, limit, sends, outcome)
    ensures IsRound(chat(|sends| - 1, sends[|sends| - 1]), tool, toolset, |sends| - 1, GoesOn(results))
            ==> |sends| == limit && outcome == Error(MaxIterations)
  {
    hide IsRound;
    var n := |sends| - 1;
    if && IsRound(chat(n, sends[n]), tool, toolset, n, GoesOn(results))
       && IsRound(chat(n, sends[n]), tool, toolset, n, Ends(outcome)) {
      RoundUnique(chat(n, sends[n]), tool, toolset, n, GoesOn(results), Ends(outcome));
    }
  }

  lemma SameEnd(chat: Chat, tool: Tool, toolset: set<string>, initial: seq<Content>, limit: nat,
                sends: seq<seq<Content>>, outcome: Outcome, sends': seq<seq<Content>>, outcome': Outcome)
    requires IsConversation(chat, tool, toolset, initial, limit, sends, outcome)
    requires IsConversation(chat, tool, toolset, initial, limit, sends', outcome')
    requires sends <= sends'
    ensures sends == sends' && outcome == outcome'
  {
    hide IsRound;
    var n := |sends| - 1;
    var reply := chat(n, sends[n]);
    forall r, r' | IsRound(reply, tool, toolset, n, r) && IsRound(reply, tool, toolset, n, r') ensures r == r' {
      RoundUnique(reply, tool, toolset, n, r, r');
    }
    assert sends[n] == sends'[n];
    LastRound(chat, tool, toolset, initial, limit, sends, outcome, if |sends| < |sends'| then sends'[n + 1] else []);
    assert forall i :: 0 <= i < |sends'| - 1 ==> IsRound(chat(i, sends'[i]), tool, toolset, i, GoesOn(sends'[i + 1]));
  }
}
