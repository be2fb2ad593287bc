/** The bounded tool-use conversation of `MCPClient.process_query`
    (mcp_client/client.py). The language model, the MCP session's tool calls and
    the JSON decoding of a tool's output are inputs given as functions. */
module ToolLoop {
  import opened Wrappers
  import opened Text

  /** `max_iterations` */
  const MaxIterations: nat := 10

  /** A tool call the model asks for: its id, the tool's name and the input */
  datatype Call = Call(id: string, name: string, input: string)

  /** One content block of a model response */
  datatype Block = TextBlock(text: string) | ToolUse(call: Call)

  /** One `{"type": "tool_result", "tool_use_id": ..., "content": ...}` item */
  datatype ToolResultEntry = ToolResultEntry(toolUseId: string, content: string)

  datatype Content =
    | Query(text: string)                     // the first user message
    | Blocks(blocks: seq<Block>)              // an assistant message: `response.content`
    | ToolResults(results: seq<ToolResultEntry>)  // a user message with the tool outputs

  datatype Role = User | Assistant

  datatype Message = Message(role: Role, content: Content)

  /** What `session.call_tool` returns: the texts of its content items and `str(result)` */
  datatype ToolOutput = ToolOutput(texts: seq<string>, repr: string)

  /** The exception that ends `process_query` */
  datatype QueryError =
    | ToolListFailed               // `session.list_tools` raised
    | ModelCallFailed              // `messages.create` raised
    | ToolCallFailed(id: string)   // `session.call_tool` raised for this call
    | UrlParseFailed(text: string) // `json.loads(text)["url"]` raised

  /** The language model: the reply to a conversation, or None when the call raises */
  type Model = seq<Message> -> Option<seq<Block>>

  /** A tool call by name and input: its output, or None when the call raises */
  type Tools = (string, string) -> Option<ToolOutput>

  /** `json.loads(text)["url"]`, or None when decoding or the lookup raises */
  type UrlParser = string -> Option<string>

  /** `[c for c in response.content if c.type == 'tool_use']` */
  function ToolUses(blocks: seq<Block>): (calls: seq<Call>)
    ensures |calls| <= |blocks|
  {
    if blocks == [] then []
    else ToolUses(blocks[..|blocks| - 1]) + (if blocks[|blocks| - 1].ToolUse? then [blocks[|blocks| - 1].call] else [])
  }

  /** A reply asks for no tool exactly when none of its blocks is a tool use. */
  lemma {:induction false} NoToolUses(blocks: seq<Block>)
    ensures ToolUses(blocks) == [] <==> forall k :: 0 <= k < |blocks| ==> !blocks[k].ToolUse?
  {
    if blocks != [] {
      var init := blocks[..|blocks| - 1];
      NoToolUses(init);
      assert forall k :: 0 <= k < |init| ==> init[k] == blocks[k];
    }
  }

  /** `result.content[0].text if result.content else str(result)` */
  function ToolText(out: ToolOutput): string
  {
    if out.texts != [] then out.texts[0] else out.repr
  }

  // ---------------------------------------------------------------- URL capture

  /** The URL after scanning `texts` in order from `url`: every text containing
      "url" is decoded and replaces it; None once a decoding fails */
  function UrlAfter(url: string, texts: seq<string>, parse: UrlParser): Option<string>
  {
    if texts == [] then Some(url)
    else match UrlAfter(url, texts[..|texts| - 1], parse)
      case None => None
      case Some(u) =>
        var t := texts[|texts| - 1];
        if Contains(t, "url") then parse(t) else Some(u)
  }

  /** The index of the last text that contains "url" */
  function LastUrlText(texts: seq<string>): (r: Option<nat>)
    ensures r.Some? ==> r.value < |texts| && Contains(texts[r.value], "url")
    ensures r.Some? ==> forall k :: r.value < k < |texts| ==> !Contains(texts[k], "url")
    ensures r.None? ==> forall k :: 0 <= k < |texts| ==> !Contains(texts[k], "url")
  {
    if texts == [] then None
    else if Contains(texts[|texts| - 1], "url") then Some(|texts| - 1)
    else LastUrlText(texts[..|texts| - 1])
  }

  /** The captured URL is the decoded last text containing "url", or the starting
      URL when no text contains it; a successful scan decoded every such text. */
  lemma {:induction false} UrlAfterIsLast(url: string, texts: seq<string>, parse: UrlParser)
    requires UrlAfter(url, texts, parse).Some?
    ensures LastUrlText(texts).None? ==> UrlAfter(url, texts, parse) == Some(url)
    ensures LastUrlText(texts).Some? ==> UrlAfter(url, texts, parse) == parse(texts[LastUrlText(texts).value])
    ensures forall k :: 0 <= k < |texts| && Contains(texts[k], "url") ==> parse(texts[k]).Some?
  {
    if texts != [] {
      var init := texts[..|texts| - 1];
      UrlAfterIsLast(url, init, parse);
      assert forall k :: 0 <= k < |init| ==> init[k] == texts[k];
    }
  }

  /** Scanning two batches of texts in turn is scanning them together. */
  lemma {:induction false} UrlAfterConcat(url: string, a: seq<string>, b: seq<string>, parse: UrlParser)
    ensures UrlAfter(url, a + b, parse) ==
      match UrlAfter(url, a, parse)
      case None => None
      case Some(u) => UrlAfter(u, b, parse)
  {
    if b == [] {
      assert a + b == a;
    } else {
      UrlAfterConcat(url, a, b[..|b| - 1], parse);
      assert (a + b)[..|a + b| - 1] == a + b[..|b| - 1];
    }
  }

  // ---------------------------------------------------------------- one round of tool calls

  /** The outputs' texts of a batch of tool results */
  function Texts(entries: seq<ToolResultEntry>): seq<string>
  {
    if entries == [] then [] else Texts(entries[..|entries| - 1]) + [entries[|entries| - 1].content]
  }

  /** The texts are the results' contents, one for one. */
  lemma {:induction false} TextsAt(entries: seq<ToolResultEntry>)
    ensures |Texts(entries)| == |entries|
    ensures forall k :: 0 <= k < |entries| ==> Texts(entries)[k] == entries[k].content
  {
    if entries != [] {
      TextsAt(entries[..|entries| - 1]);
    }
  }

  /** One tool result per call, in call order, each tagged with its call's id */
  predicate ResultsMatch(calls: seq<Call>, entries: seq<ToolResultEntry>)
  {
    |entries| == |calls| && forall k :: 0 <= k < |calls| ==> entries[k].toolUseId == calls[k].id
  }

  /** The tool-call loop of one round over `calls`, from the URL held so far:
      the collected results and the new URL, or the exception that stops it */
  function RunCalls(calls: seq<Call>, tools: Tools, parse: UrlParser, url: string)
    : (r: Result<(seq<ToolResultEntry>, string), QueryError>)
  {
    if calls == [] then Success(([], url))
    else
      var c := calls[|calls| - 1];
      match RunCalls(calls[..|calls| - 1], tools, parse, url)
      case Failure(e) => Failure(e)
      case Success((entries, u)) =>
        match tools(c.name, c.input)
        case None => Failure(ToolCallFailed(c.id))
        case Some(out) =>
          var text := ToolText(out);
          var entries' := entries + [ToolResultEntry(c.id, text)];
          if !Contains(text, "url") then Success((entries', u))
          else match parse(text)
            case None => Failure(UrlParseFailed(text))
            case Some(u') => Success((entries', u'))
  }

  /** A completed round is the completed round of all calls but the last,
      followed by the last call's result and, when its text contains "url",
      the URL decoded from it. */
  lemma RunCallsStep(calls: seq<Call>, tools: Tools, parse: UrlParser, url: string)
    requires calls != []
    requires RunCalls(calls, tools, parse, url).Success?
    ensures var init, c := calls[..|calls| - 1], calls[|calls| - 1];
      && RunCalls(init, tools, parse, url).Success?
      && tools(c.name, c.input).Some?
      && var (entries, u) := RunCalls(init, tools, parse, url).value;
         var text := ToolText(tools(c.name, c.input).value);
         && (Contains(text, "url") ==> parse(text).Some?)
         && RunCalls(calls, tools, parse, url).value
            == (entries + [ToolResultEntry(c.id, text)], if Contains(text, "url") then parse(text).value else u)
  {
  }

  lemma TextsSnoc(entries: seq<ToolResultEntry>, e: ToolResultEntry)
    ensures Texts(entries + [e]) == Texts(entries) + [e.content]
  {
    assert (entries + [e])[..|entries|] == entries;
  }

  lemma UrlAfterSnoc(url: string, texts: seq<string>, t: string, parse: UrlParser)
    ensures UrlAfter(url, texts + [t], parse) ==
      match UrlAfter(url, texts, parse)
      case None => None
      case Some(u) => if Contains(t, "url") then parse(t) else Some(u)
  {
    assert (texts + [t])[..|texts|] == texts;
  }

  /** A completed round holds one result per call, in order, tagged with the
      call's id and holding the text of that call's output. */
  lemma {:induction false} RunCallsResults(calls: seq<Call>, tools: Tools, parse: UrlParser, url: string)
    requires RunCalls(calls, tools, parse, url).Success?
    ensures ResultsMatch(calls, RunCalls(calls, tools, parse, url).value.0)
    ensures forall k :: 0 <= k < |calls| ==>
      && tools(calls[k].name, calls[k].input).Some?
      && RunCalls(calls, tools, parse, url).value.0[k].content == ToolText(tools(calls[k].name, calls[k].input).value)
  {
    if calls != [] {
      var init := calls[..|calls| - 1];
      RunCallsStep(calls, tools, parse, url);
      RunCallsResults(init, tools, parse, url);
      var entries := RunCalls(init, tools, parse, url).value.0;
      var entries' := RunCalls(calls, tools, parse, url).value.0;
      assert forall k :: 0 <= k < |init| ==> init[k] == calls[k] && entries'[k] == entries[k];
    }
  }

  /** The URL after a completed round is the one the scan of its results yields. */
  lemma {:induction false} RunCallsUrl(calls: seq<Call>, tools: Tools, parse: UrlParser, url: string)
    requires RunCalls(calls, tools, parse, url).Success?
    ensures UrlAfter(url, Texts(RunCalls(calls, tools, parse, url).value.0), parse)
         == Some(RunCalls(calls, tools, parse, url).value.1)
  {
    if calls != [] {
      var init, c := calls[..|calls| - 1], calls[|calls| - 1];
      RunCallsStep(calls, tools, parse, url);
      RunCallsUrl(init, tools, parse, url);
      var entries := RunCalls(init, tools, parse, url).value.0;
      var e := ToolResultEntry(c.id, ToolText(tools(c.name, c.input).value));
      TextsSnoc(entries, e);
      UrlAfterSnoc(url, Texts(entries), e.content, parse);
    }
  }

  /** Once a call fails, the rest of the round does not run: the failure stands. */
  lemma {:induction false} RunCallsFailureStands(calls: seq<Call>, i: nat, j: nat, tools: Tools, parse: UrlParser, url: string)
    requires i <= j <= |calls|
    requires RunCalls(calls[..i], tools, parse, url).Failure?
    ensures RunCalls(calls[..j], tools, parse, url) == RunCalls(calls[..i], tools, parse, url)
  {
    if j > i {
      RunCallsFailureStands(calls, i, j - 1, tools, parse, url);
      assert calls[..j][..j - 1] == calls[..j - 1];
    }
  }

  /** A call raises: its tool raises, or its text mentions "url" and decoding it raises */
  predicate CallRaises(tools: Tools, parse: UrlParser, c: Call)
  {
    match tools(c.name, c.input)
    case None => true
    case Some(out) => Contains(ToolText(out), "url") && parse(ToolText(out)).None?
  }

  /** The exception a raising call ends the query with */
  function RaiseOf(tools: Tools, c: Call): QueryError
  {
    match tools(c.name, c.input)
    case None => ToolCallFailed(c.id)
    case Some(out) => UrlParseFailed(ToolText(out))
  }

  /** Call `k` is the first call of the round that raises */
  predicate FirstRaise(tools: Tools, parse: UrlParser, calls: seq<Call>, k: int)
  {
    && 0 <= k < |calls| && CallRaises(tools, parse, calls[k])
    && forall j :: 0 <= j < k ==> !CallRaises(tools, parse, calls[j])
  }

  /** `e` is the exception of the first call of the round that raises */
  predicate RaisedFirst(tools: Tools, parse: UrlParser, calls: seq<Call>, e: QueryError)
  {
    exists k :: 0 <= k < |calls| && FirstRaise(tools, parse, calls, k) && e == RaiseOf(tools, calls[k])
  }

  /** A round fails exactly when one of its calls raises, and then with the
      exception of the first call that does. */
  lemma {:induction false} RunCallsRaised(calls: seq<Call>, tools: Tools, parse: UrlParser, url: string)
    ensures RunCalls(calls, tools, parse, url).Failure? <==>
              exists k :: 0 <= k < |calls| && CallRaises(tools, parse, calls[k])
    ensures RunCalls(calls, tools, parse, url).Failure? ==>
              RaisedFirst(tools, parse, calls, RunCalls(calls, tools, parse, url).error)
  {
    if calls != [] {
      var n := |calls| - 1;
      var init := calls[..n];
      var ri := RunCalls(init, tools, parse, url);
      RunCallsRaised(init, tools, parse, url);
      RunCallsLast(calls, tools, parse, url);
      assert forall j :: 0 <= j < n ==> init[j] == calls[j];
      if ri.Failure? {
        var k :| 0 <= k < n && FirstRaise(tools, parse, init, k) && ri.error == RaiseOf(tools, init[k]);
        assert FirstRaise(tools, parse, calls, k);
      } else if CallRaises(tools, parse, calls[n]) {
        assert FirstRaise(tools, parse, calls, n);
      } else {
        forall k | 0 <= k < |calls|
          ensures !CallRaises(tools, parse, calls[k])
        {
          if k < n {
            assert init[k] == calls[k];
          }
        }
      }
    }
  }

  /** The last call of a round runs only when the others completed, and fails
      the round exactly when it raises. */
  lemma RunCallsLast(calls: seq<Call>, tools: Tools, parse: UrlParser, url: string)
    requires calls != []
    ensures var ri := RunCalls(calls[..|calls| - 1], tools, parse, url);
      var r := RunCalls(calls, tools, parse, url);
      && (ri.Failure? ==> r == ri)
      && (ri.Success? && CallRaises(tools, parse, calls[|calls| - 1]) ==> r == Failure(RaiseOf(tools, calls[|calls| - 1])))
      && (ri.Success? && !CallRaises(tools, parse, calls[|calls| - 1]) ==> r.Success?)
  {
  }

  /** The inner `for` loop of `process_query`: run each call in order */
  method ExecuteCalls(calls: seq<Call>, tools: Tools, parse: UrlParser, url: string)
    returns (r: Result<(seq<ToolResultEntry>, string), QueryError>)
    ensures r == RunCalls(calls, tools, parse, url)
  {
    var entries: seq<ToolResultEntry> := [];
    var u := url;
    for i := 0 to |calls|
      invariant RunCalls(calls[..i], tools, parse, url) == Success((entries, u))
    {
      var c := calls[i];
      assert calls[..i + 1][..i] == calls[..i];
      var out := tools(c.name, c.input);
      if out.None? {
        r := Failure(ToolCallFailed(c.id));
        RunCallsFailureStands(calls, i + 1, |calls|, tools, parse, url);
        assert calls[..|calls|] == calls;
        return;
      }
      var text := ToolText(out.value);
      entries := entries + [ToolResultEntry(c.id, text)];
      if Contains(text, "url") {
        var parsed := parse(text);
        if parsed.None? {
          r := Failure(UrlParseFailed(text));
          RunCallsFailureStands(calls, i + 1, |calls|, tools, parse, url);
          assert calls[..|calls|] == calls;
          return;
        }
        u := parsed.value;
      }
    }
    assert calls[..|calls|] == calls;
    return Success((entries, u));
  }

  // ---------------------------------------------------------------- the conversation loop

  /** How one iteration of the loop ends: the loop stops with an outcome, or it
      goes on with a longer conversation and a URL */
  datatype Turn =
    | Stop(outcome: Result<string, QueryError>, msgs: seq<Message>)
    | Continue(msgs: seq<Message>, url: string)

  /** One iteration of the `while` loop of `process_query` */
  function Round(model: Model, tools: Tools, parse: UrlParser, messages: seq<Message>, url: string): Turn
  {
    match model(messages)
    case None => Stop(Failure(ModelCallFailed), messages)
    case Some(blocks) =>
      var msgs := messages + [Message(Assistant, Blocks(blocks))];
      var calls := ToolUses(blocks);
      if calls == [] then Stop(Success(url), msgs)
      else match RunCalls(calls, tools, parse, url)
        case Failure(e) => Stop(Failure(e), msgs)
        case Success((entries, u)) => Continue(msgs + [Message(User, ToolResults(entries))], u)
  }

  /** The `while` loop of `process_query` from a conversation, an iteration count
      and a URL: the outcome, the final conversation and the final count */
  function Converse(model: Model, tools: Tools, parse: UrlParser, messages: seq<Message>, iteration: nat, url: string)
    : (Result<string, QueryError>, seq<Message>, nat)
    decreases MaxIterations - iteration
  {
    if iteration >= MaxIterations then (Success(url), messages, iteration)
    else match Round(model, tools, parse, messages, url)
      case Stop(r, msgs) => (r, msgs, iteration + 1)
      case Continue(msgs, u) => Converse(model, tools, parse, msgs, iteration + 1, u)
  }

  /** An iteration that goes on leaves the rest to the next iteration. */
  lemma ConverseContinues(model: Model, tools: Tools, parse: UrlParser, messages: seq<Message>, iteration: nat, url: string)
    requires iteration < MaxIterations
    requires Round(model, tools, parse, messages, url).Continue?
    ensures var turn := Round(model, tools, parse, messages, url);
      Converse(model, tools, parse, messages, iteration, url) == Converse(model, tools, parse, turn.msgs, iteration + 1, turn.url)
  {
  }

  /** An iteration that stops ends the loop with its outcome. */
  lemma ConverseStopped(model: Model, tools: Tools, parse: UrlParser, messages: seq<Message>, iteration: nat, url: string)
    requires iteration < MaxIterations
    requires Round(model, tools, parse, messages, url).Stop?
    ensures var turn := Round(model, tools, parse, messages, url);
      Converse(model, tools, parse, messages, iteration, url) == (turn.outcome, turn.msgs, iteration + 1)
  {
  }

  /** `process_query`, with `listed` saying whether `session.list_tools`
      succeeds: the outcome, the final conversation and the number of model calls */
  function QueryOutcome(query: string, listed: bool, model: Model, tools: Tools, parse: UrlParser)
    : (Result<string, QueryError>, seq<Message>, nat)
  {
    if !listed then (Failure(ToolListFailed), [Message(User, Query(query))], 0)
    else Converse(model, tools, parse, [Message(User, Query(query))], 0, "")
  }

  /** `process_query`: the returned URL or the exception, with the final
      conversation and the number of model calls made */
  method ProcessQuery(query: string, listed: bool, model: Model, tools: Tools, parse: UrlParser)
    returns (r: Result<string, QueryError>, messages: seq<Message>, iterations: nat)
    ensures (r, messages, iterations) == QueryOutcome(query, listed, model, tools, parse)
  {
    if !listed {
      return Failure(ToolListFailed), [Message(User, Query(query))], 0;
    }
    r, messages, iterations := ConverseLoop(model, tools, parse, [Message(User, Query(query))]);
  }

  /** The `while` loop of `process_query`, from the conversation `start`:
      at most ten model calls, stopping at the first round that stops */
  method ConverseLoop(model: Model, tools: Tools, parse: UrlParser, start: seq<Message>)
    returns (r: Result<string, QueryError>, messages: seq<Message>, iterations: nat)
    ensures (r, messages, iterations) == Converse(model, tools, parse, start, 0, "")
  {
    messages := start;
    var url := "";
    iterations := 0;
    while iterations < MaxIterations
      invariant iterations <= MaxIterations
      invariant Converse(model, tools, parse, messages, iterations, url) == Converse(model, tools, parse, start, 0, "")
    {
      var turn := RunRound(model, tools, parse, messages, url);
      if turn.Stop? {
        ConverseStopped(model, tools, parse, messages, iterations, url);
        return turn.outcome, turn.msgs, iterations + 1;
      }
      ConverseContinues(model, tools, parse, messages, iterations, url);
      messages, url, iterations := turn.msgs, turn.url, iterations + 1;
    }
    r := Success(url);
  }

  /** One pass of the loop body of `process_query`: call the model, stop on a
      reply without tool use, else run the calls and append their results */
  method RunRound(model: Model, tools: Tools, parse: UrlParser, messages: seq<Message>, url: string)
    returns (turn: Turn)
    ensures turn == Round(model, tools, parse, messages, url)
  {
    var reply := model(messages);
    if reply.None? {
      return Stop(Failure(ModelCallFailed), messages);
    }
    var msgs := messages + [Message(Assistant, Blocks(reply.value))];
    var calls := ToolUses(reply.value);
    if calls == [] {
      return Stop(Success(url), msgs);
    }
    var round := ExecuteCalls(calls, tools, parse, url);
    if round.Failure? {
      return Stop(Failure(round.error), msgs);
    }
    RunCallsResults(calls, tools, parse, url);
    var entries := round.value.0;
    if entries != [] {
      msgs := msgs + [Message(User, ToolResults(entries))];
    }
    turn := Continue(msgs, round.value.1);
  }

  /** A round that called tools: the assistant message with at least one tool
      use, then one user message with exactly one matching result per call */
  predicate Answered(tools: Tools, a: Message, u: Message)
  {
    && a.role == Assistant && a.content.Blocks? && ToolUses(a.content.blocks) != []
    && u.role == User && u.content.ToolResults?
    && ResultsMatch(ToolUses(a.content.blocks), u.content.results)
    && Ran(tools, ToolUses(a.content.blocks), u.content.results)
  }

  /** Each call's tool answered, and its entry holds that answer's text */
  predicate Ran(tools: Tools, calls: seq<Call>, entries: seq<ToolResultEntry>)
    requires |entries| == |calls|
  {
    forall k :: 0 <= k < |calls| ==>
      && tools(calls[k].name, calls[k].input).Some?
      && entries[k].content == ToolText(tools(calls[k].name, calls[k].input).value)
  }

  /** An iteration ends the loop with the model's exception when the model
      raises, and with the URL held so far on a reply without tool use. One that
      ends the loop adds at most the model's reply, ends successfully only on
      such a reply, and otherwise fails with the model's or the round's
      exception. */
  lemma RoundStops(model: Model, tools: Tools, parse: UrlParser, messages: seq<Message>, url: string)
    ensures var turn := Round(model, tools, parse, messages, url);
      && (model(messages).None? ==> turn == Stop(Failure(ModelCallFailed), messages))
      && (model(messages).Some? && ToolUses(model(messages).value) == [] ==>
            turn == Stop(Success(url), messages + [Message(Assistant, Blocks(model(messages).value))]))
      && (turn.Stop? ==>
            turn.msgs == messages || (model(messages).Some? && turn.msgs == messages + [Message(Assistant, Blocks(model(messages).value))]))
      && (turn.Stop? && turn.outcome.Success? ==>
            && model(messages).Some? && turn.msgs == messages + [Message(Assistant, Blocks(model(messages).value))]
            && ToolUses(model(messages).value) == [] && turn.outcome.value == url)
      && (turn.Stop? && turn.outcome.Failure? && model(messages).Some? ==>
            RunCalls(ToolUses(model(messages).value), tools, parse, url) == Failure(turn.outcome.error))
  {
  }

  /** An iteration that goes on appends the model's reply with tool uses and
      the matching results, each the text of its call's tool output, and holds the URL the scan of those results yields. */
  lemma RoundContinues(model: Model, tools: Tools, parse: UrlParser, messages: seq<Message>, url: string)
    requires Round(model, tools, parse, messages, url).Continue?
    ensures var turn := Round(model, tools, parse, messages, url);
      && model(messages).Some? && |turn.msgs| == |messages| + 2 && turn.msgs[..|messages|] == messages
      && turn.msgs[|messages|] == Message(Assistant, Blocks(model(messages).value))
      && Answered(tools, turn.msgs[|messages|], turn.msgs[|messages| + 1])
      && UrlAfter(url, Texts(turn.msgs[|messages| + 1].content.results), parse) == Some(turn.url)
  {
    var calls := ToolUses(model(messages).value);
    RunCallsResults(calls, tools, parse, url);
    RunCallsUrl(calls, tools, parse, url);
  }

  /** The loop calls the model at least once and at most `max_iterations` times in all. */
  lemma {:induction false} ConverseBounded(model: Model, tools: Tools, parse: UrlParser, messages: seq<Message>, iteration: nat, url: string)
    requires iteration <= MaxIterations
    ensures var rounds := Converse(model, tools, parse, messages, iteration, url).2;
      && iteration <= rounds <= MaxIterations
      && (iteration < MaxIterations ==> rounds > iteration)
    decreases MaxIterations - iteration
  {
    if iteration < MaxIterations {
      var turn := Round(model, tools, parse, messages, url);
      if turn.Continue? {
        ConverseBounded(model, tools, parse, turn.msgs, iteration + 1, turn.url);
        ConverseContinues(model, tools, parse, messages, iteration, url);
      } else {
        ConverseStopped(model, tools, parse, messages, iteration, url);
      }
    }
  }

  /** The messages the loop appended to `prefix`: pairs of answered rounds, each
      assistant message holding the model's reply to the conversation before it,
      possibly ended by one last assistant message */
  predicate Transcript(model: Model, tools: Tools, prefix: seq<Message>, t: seq<Message>)
    decreases |t|
  {
    if t == [] then true
    else
      && t[0].role == Assistant && t[0].content.Blocks?
      && model(prefix) == Some(t[0].content.blocks)
      && (|t| == 1 || (Answered(tools, t[0], t[1]) && Transcript(model, tools, prefix + t[..2], t[2..])))
  }

  /** The loop only appends to the conversation, at most two messages per
      model call. */
  lemma {:induction false} ConverseExtends(model: Model, tools: Tools, parse: UrlParser, messages: seq<Message>, iteration: nat, url: string)
    requires iteration <= MaxIterations
    ensures Extends(messages, iteration, Converse(model, tools, parse, messages, iteration, url))
    decreases MaxIterations - iteration
  {
    if iteration < MaxIterations {
      var turn := Round(model, tools, parse, messages, url);
      if turn.Stop? {
        StopExtends(model, tools, parse, messages, iteration, url);
      } else {
        ConverseExtends(model, tools, parse, turn.msgs, iteration + 1, turn.url);
        ContinueExtends(model, tools, parse, messages, iteration, url);
      }
    }
  }

  /** The loop's messages extend `messages` by at most two per model call */
  ghost predicate Extends(messages: seq<Message>, iteration: nat, c: (Result<string, QueryError>, seq<Message>, nat))
  {
    && |messages| <= |c.1| && c.1[..|messages|] == messages
    && |c.1| - |messages| <= 2 * (c.2 - iteration)
  }

  lemma StopExtends(model: Model, tools: Tools, parse: UrlParser, messages: seq<Message>, iteration: nat, url: string)
    requires iteration < MaxIterations && Round(model, tools, parse, messages, url).Stop?
    ensures Extends(messages, iteration, Converse(model, tools, parse, messages, iteration, url))
  {
    var turn := Round(model, tools, parse, messages, url);
    RoundStops(model, tools, parse, messages, url);
    ConverseStopped(model, tools, parse, messages, iteration, url);
  }

  lemma ContinueExtends(model: Model, tools: Tools, parse: UrlParser, messages: seq<Message>, iteration: nat, url: string)
    requires iteration < MaxIterations
    requires var turn := Round(model, tools, parse, messages, url);
      && turn.Continue?
      && Extends(turn.msgs, iteration + 1, Converse(model, tools, parse, turn.msgs, iteration + 1, turn.url))
    ensures Extends(messages, iteration, Converse(model, tools, parse, messages, iteration, url))
  {
    var turn := Round(model, tools, parse, messages, url);
    RoundContinues(model, tools, parse, messages, url);
    var c := Converse(model, tools, parse, turn.msgs, iteration + 1, turn.url);
    ConverseContinues(model, tools, parse, messages, iteration, url);
    assert c.1[..|messages|] == c.1[..|turn.msgs|][..|messages|];
  }

  /** What the loop appends is a transcript of its rounds. */
  lemma {:induction false} ConverseTranscript(model: Model, tools: Tools, parse: UrlParser, messages: seq<Message>, iteration: nat, url: string)
    requires iteration <= MaxIterations
    ensures var msgs := Converse(model, tools, parse, messages, iteration, url).1;
      |messages| <= |msgs| && Transcript(model, tools, messages, msgs[|messages|..])
    decreases MaxIterations - iteration
  {
    ConverseExtends(model, tools, parse, messages, iteration, url);
    if iteration < MaxIterations {
      var turn := Round(model, tools, parse, messages, url);
      if turn.Stop? {
        StopTranscript(model, tools, parse, messages, iteration, url);
      } else {
        ConverseTranscript(model, tools, parse, turn.msgs, iteration + 1, turn.url);
        ContinueTranscript(model, tools, parse, messages, iteration, url);
      }
    }
  }

  lemma StopTranscript(model: Model, tools: Tools, parse: UrlParser, messages: seq<Message>, iteration: nat, url: string)
    requires iteration < MaxIterations && Round(model, tools, parse, messages, url).Stop?
    ensures var msgs := Converse(model, tools, parse, messages, iteration, url).1;
      |messages| <= |msgs| && Transcript(model, tools, messages, msgs[|messages|..])
  {
    var turn := Round(model, tools, parse, messages, url);
    RoundStops(model, tools, parse, messages, url);
    ConverseStopped(model, tools, parse, messages, iteration, url);
    if turn.msgs != messages {
      assert turn.msgs[|messages|..] == [turn.msgs[|messages|]];
    }
  }

  lemma ContinueTranscript(model: Model, tools: Tools, parse: UrlParser, messages: seq<Message>, iteration: nat, url: string)
    requires iteration < MaxIterations
    requires var turn := Round(model, tools, parse, messages, url);
      && turn.Continue?
      && var msgs := Converse(model, tools, parse, turn.msgs, iteration + 1, turn.url).1;
         |turn.msgs| <= |msgs| && Transcript(model, tools, turn.msgs, msgs[|turn.msgs|..])
    ensures var msgs := Converse(model, tools, parse, messages, iteration, url).1;
      |messages| <= |msgs| && Transcript(model, tools, messages, msgs[|messages|..])
  {
    var turn := Round(model, tools, parse, messages, url);
    RoundContinues(model, tools, parse, messages, url);
    var next := turn.msgs;
    ConverseExtends(model, tools, parse, next, iteration + 1, turn.url);
    var c := Converse(model, tools, parse, next, iteration + 1, turn.url);
    ConverseContinues(model, tools, parse, messages, iteration, url);
    TranscriptStep(model, tools, messages, next, c.1);
  }

  /** Extending a transcript by an answered round in front */
  lemma TranscriptStep(model: Model, tools: Tools, messages: seq<Message>, next: seq<Message>, fin: seq<Message>)
    requires |next| == |messages| + 2 && next[..|messages|] == messages
    requires next[|messages|].content.Blocks? && model(messages) == Some(next[|messages|].content.blocks)
    requires Answered(tools, next[|messages|], next[|messages| + 1])
    requires |next| <= |fin| && fin[..|next|] == next && Transcript(model, tools, next, fin[|next|..])
    ensures |messages| <= |fin| && fin[..|messages|] == messages && Transcript(model, tools, messages, fin[|messages|..])
  {
    var t := fin[|messages|..];
    assert t[..2] == next[|messages|..];
    assert messages + t[..2] == next;
    assert t[2..] == fin[|next|..];
    assert fin[..|messages|] == next[..|messages|];
  }

  /** The last message ends successfully with a reply without tool use */
  ghost predicate EndsOnAnswer(c: (Result<string, QueryError>, seq<Message>, nat))
  {
    c.0.Success? && c.2 < MaxIterations ==>
      && |c.1| > 0 && c.1[|c.1| - 1].role == Assistant && c.1[|c.1| - 1].content.Blocks?
      && ToolUses(c.1[|c.1| - 1].content.blocks) == []
  }

  /** Where the loop ends successfully before the bound, the last message is a
      model reply without any tool use: the loop stops at the first such reply. */
  lemma {:induction false} ConverseStops(model: Model, tools: Tools, parse: UrlParser, messages: seq<Message>, iteration: nat, url: string)
    requires iteration <= MaxIterations
    ensures EndsOnAnswer(Converse(model, tools, parse, messages, iteration, url))
    decreases MaxIterations - iteration
  {
    if iteration < MaxIterations {
      var turn := Round(model, tools, parse, messages, url);
      if turn.Stop? {
        StopEndsOnAnswer(model, tools, parse, messages, iteration, url);
      } else {
        ConverseStops(model, tools, parse, turn.msgs, iteration + 1, turn.url);
        ConverseContinues(model, tools, parse, messages, iteration, url);
      }
    }
  }

  lemma StopEndsOnAnswer(model: Model, tools: Tools, parse: UrlParser, messages: seq<Message>, iteration: nat, url: string)
    requires iteration < MaxIterations && Round(model, tools, parse, messages, url).Stop?
    ensures EndsOnAnswer(Converse(model, tools, parse, messages, iteration, url))
  {
    var turn := Round(model, tools, parse, messages, url);
    RoundStops(model, tools, parse, messages, url);
    ConverseStopped(model, tools, parse, messages, iteration, url);
  }

  /** The texts of the tool results a message carries */
  function OwnTexts(m: Message): seq<string>
  {
    if m.content.ToolResults? then Texts(m.content.results) else []
  }

  /** The concatenation of `f` over `xs`, in order */
  function Collect<T, U>(f: T -> seq<U>, xs: seq<T>): seq<U>
  {
    if xs == [] then [] else Collect(f, xs[..|xs| - 1]) + f(xs[|xs| - 1])
  }

  lemma CollectSnoc<T, U>(f: T -> seq<U>, xs: seq<T>, x: T)
    ensures Collect(f, xs + [x]) == Collect(f, xs) + f(x)
  {
    assert (xs + [x])[..|xs|] == xs;
  }

  lemma CollectOne<T, U>(f: T -> seq<U>, x: T)
    ensures Collect(f, [x]) == f(x)
  {
    assert [x][..0] == [];
    assert Collect(f, [x]) == Collect(f, []) + f(x);
  }

  lemma {:induction false} CollectConcat<T, U>(f: T -> seq<U>, a: seq<T>, b: seq<T>)
    ensures Collect(f, a + b) == Collect(f, a) + Collect(f, b)
  {
    if b == [] {
      assert a + b == a;
    } else {
      var init, x := b[..|b| - 1], b[|b| - 1];
      CollectConcat(f, a, init);
      assert b == init + [x];
      assert a + b == (a + init) + [x];
      CollectSnoc(f, a + init, x);
      CollectSnoc(f, init, x);
      AppendAssoc(Collect(f, a), Collect(f, init), f(x));
    }
  }

  /** The texts of all tool results in a conversation, in order */
  function ToolTexts(msgs: seq<Message>): seq<string>
  {
    Collect(OwnTexts, msgs)
  }

  lemma ToolTextsConcat(a: seq<Message>, b: seq<Message>)
    ensures ToolTexts(a + b) == ToolTexts(a) + ToolTexts(b)
  {
    CollectConcat(OwnTexts, a, b);
  }

  /** The tool texts of a model reply, alone or followed by results */
  lemma OneRoundTexts(a: Message, m: Message)
    requires a.content.Blocks? && m.content.ToolResults?
    ensures ToolTexts([a]) == []
    ensures ToolTexts([a, m]) == Texts(m.content.results)
  {
    CollectOne(OwnTexts, a);
    CollectSnoc(OwnTexts, [a], m);
    assert [a] + [m] == [a, m];
  }

  /** A successful run from `messages` returned the URL the scan of the tool
      results it added yields, starting from `url`. */
  ghost predicate UrlScanned(messages: seq<Message>, url: string, parse: UrlParser, c: (Result<string, QueryError>, seq<Message>, nat))
  {
    c.0.Success? ==> |messages| <= |c.1| && UrlAfter(url, ToolTexts(c.1[|messages|..]), parse) == Some(c.0.value)
  }

  /** A successful loop returns the URL the scan of every tool result it added yields. */
  lemma {:induction false} ConverseUrl(model: Model, tools: Tools, parse: UrlParser, messages: seq<Message>, iteration: nat, url: string)
    requires iteration <= MaxIterations
    ensures UrlScanned(messages, url, parse, Converse(model, tools, parse, messages, iteration, url))
    decreases MaxIterations - iteration
  {
    if iteration < MaxIterations {
      var turn := Round(model, tools, parse, messages, url);
      if turn.Stop? {
        StopUrlScanned(model, tools, parse, messages, iteration, url);
      } else {
        ConverseUrl(model, tools, parse, turn.msgs, iteration + 1, turn.url);
        ContinueUrlScanned(model, tools, parse, messages, iteration, url);
      }
    }
  }

  lemma ContinueUrlScanned(model: Model, tools: Tools, parse: UrlParser, messages: seq<Message>, iteration: nat, url: string)
    requires iteration < MaxIterations
    requires var turn := Round(model, tools, parse, messages, url);
      && turn.Continue?
      && UrlScanned(turn.msgs, turn.url, parse, Converse(model, tools, parse, turn.msgs, iteration + 1, turn.url))
    ensures UrlScanned(messages, url, parse, Converse(model, tools, parse, messages, iteration, url))
  {
    var turn := Round(model, tools, parse, messages, url);
    RoundContinues(model, tools, parse, messages, url);
    ConverseExtends(model, tools, parse, turn.msgs, iteration + 1, turn.url);
    var fin := Converse(model, tools, parse, turn.msgs, iteration + 1, turn.url);
    ConverseContinues(model, tools, parse, messages, iteration, url);
    if fin.0.Success? {
      UrlStep(url, messages, turn.msgs, fin.1, turn.url, fin.0.value, parse);
    }
  }

  lemma StopUrlScanned(model: Model, tools: Tools, parse: UrlParser, messages: seq<Message>, iteration: nat, url: string)
    requires iteration < MaxIterations && Round(model, tools, parse, messages, url).Stop?
    ensures UrlScanned(messages, url, parse, Converse(model, tools, parse, messages, iteration, url))
  {
    var turn := Round(model, tools, parse, messages, url);
    RoundStops(model, tools, parse, messages, url);
    ConverseStopped(model, tools, parse, messages, iteration, url);
    if turn.outcome.Success? {
      var a := turn.msgs[|messages|];
      assert turn.msgs[|messages|..] == [a];
      OneRoundTexts(a, Message(User, ToolResults([])));
    }
  }

  /** Prepending an answered round to the rest of the loop's messages */
  lemma UrlStep(url: string, messages: seq<Message>, next: seq<Message>, fin: seq<Message>, u: string, result: string, parse: UrlParser)
    requires |next| == |messages| + 2 && next[..|messages|] == messages
    requires next[|messages|].content.Blocks? && next[|messages| + 1].content.ToolResults?
    requires UrlAfter(url, Texts(next[|messages| + 1].content.results), parse) == Some(u)
    requires |next| <= |fin| && fin[..|next|] == next
    requires UrlAfter(u, ToolTexts(fin[|next|..]), parse) == Some(result)
    ensures UrlAfter(url, ToolTexts(fin[|messages|..]), parse) == Some(result)
  {
    var a := next[|messages|];
    var m := next[|messages| + 1];
    assert fin[|messages|..] == [a, m] + fin[|next|..];
    ToolTextsConcat([a, m], fin[|next|..]);
    OneRoundTexts(a, m);
    UrlAfterConcat(url, Texts(m.content.results), ToolTexts(fin[|next|..]), parse);
  }

  /** A failed loop fails with the exception of the last thing it ran: the model
      called on the final conversation, or the first raising call of the final
      reply, which the model gave to the conversation before it. */
  ghost predicate FailureExplained(model: Model, tools: Tools, parse: UrlParser, c: (Result<string, QueryError>, seq<Message>, nat))
  {
    c.0.Failure? ==>
      || (c.0.error == ModelCallFailed && model(c.1).None?)
      || (&& |c.1| > 0 && c.1[|c.1| - 1].content.Blocks?
          && model(c.1[..|c.1| - 1]) == Some(c.1[|c.1| - 1].content.blocks)
          && RaisedFirst(tools, parse, ToolUses(c.1[|c.1| - 1].content.blocks), c.0.error))
  }

  /** The loop fails only where the model, a tool or the URL decoding raises. */
  lemma {:induction false} ConverseFailure(model: Model, tools: Tools, parse: UrlParser, messages: seq<Message>, iteration: nat, url: string)
    requires iteration <= MaxIterations
    ensures FailureExplained(model, tools, parse, Converse(model, tools, parse, messages, iteration, url))
    decreases MaxIterations - iteration
  {
    if iteration < MaxIterations {
      var turn := Round(model, tools, parse, messages, url);
      if turn.Stop? {
        StopFailure(model, tools, parse, messages, iteration, url);
      } else {
        ConverseFailure(model, tools, parse, turn.msgs, iteration + 1, turn.url);
        ConverseContinues(model, tools, parse, messages, iteration, url);
      }
    }
  }

  lemma StopFailure(model: Model, tools: Tools, parse: UrlParser, messages: seq<Message>, iteration: nat, url: string)
    requires iteration < MaxIterations && Round(model, tools, parse, messages, url).Stop?
    ensures FailureExplained(model, tools, parse, Converse(model, tools, parse, messages, iteration, url))
  {
    var turn := Round(model, tools, parse, messages, url);
    RoundStops(model, tools, parse, messages, url);
    ConverseStopped(model, tools, parse, messages, iteration, url);
    if turn.outcome.Failure? && model(messages).Some? {
      RunCallsRaised(ToolUses(model(messages).value), tools, parse, url);
      assert turn.msgs[..|turn.msgs| - 1] == messages;
    }
  }

  /** When the tools are listed and neither the model, nor a tool, nor the
      decoding of a text mentioning "url" ever raises, `process_query` returns
      a URL. */
  lemma QuerySucceeds(query: string, model: Model, tools: Tools, parse: UrlParser)
    requires forall m :: model(m).Some?
    requires forall name, input :: tools(name, input).Some?
    requires forall t :: Contains(t, "url") ==> parse(t).Some?
    ensures QueryOutcome(query, true, model, tools, parse).0.Success?
  {
    ConverseFailure(model, tools, parse, [Message(User, Query(query))], 0, "");
    forall c: Call
      ensures !CallRaises(tools, parse, c)
    {
    }
  }

  /** What `process_query` promises: between one and ten model calls; the
      conversation is the query followed by a transcript of the rounds; a
      successful run that ends before the bound ends on a reply with no tool use;
      the URL returned is the decoded last tool output containing "url", or
      '' when no output contains it; and a failure is the exception of the
      model call or the first raising tool call or decoding of the last round. */
  lemma ProcessQuerySpec(query: string, model: Model, tools: Tools, parse: UrlParser)
    ensures var q := Message(User, Query(query));
      var (r, msgs, rounds) := Converse(model, tools, parse, [q], 0, "");
      && 1 <= rounds <= MaxIterations
      && |msgs| >= 1 && msgs[0] == q && Transcript(model, tools, [q], msgs[1..])
      && (r.Success? && rounds < MaxIterations ==>
            msgs[|msgs| - 1].content.Blocks? && ToolUses(msgs[|msgs| - 1].content.blocks) == [])
      && (r.Success? && LastUrlText(ToolTexts(msgs)).None? ==> r.value == "")
      && (r.Success? && LastUrlText(ToolTexts(msgs)).Some? ==>
            Some(r.value) == parse(ToolTexts(msgs)[LastUrlText(ToolTexts(msgs)).value]))
      && FailureExplained(model, tools, parse, (r, msgs, rounds))
  {
    var q := Message(User, Query(query));
    var c := Converse(model, tools, parse, [q], 0, "");
    ConverseBounded(model, tools, parse, [q], 0, "");
    ConverseExtends(model, tools, parse, [q], 0, "");
    ConverseTranscript(model, tools, parse, [q], 0, "");
    assert c.1[..1] == [q] && Transcript(model, tools, [q], c.1[1..]);
    assert c.1[0] == c.1[..1][0] == q;
    ConverseStops(model, tools, parse, [q], 0, "");
    ConverseUrl(model, tools, parse, [q], 0, "");
    ConverseFailure(model, tools, parse, [q], 0, "");
    if c.0.Success? {
      QueryTexts(q, c.1);
      UrlAfterIsLast("", ToolTexts(c.1), parse);
    }
  }

  lemma QueryTexts(q: Message, msgs: seq<Message>)
    requires q.content.Query? && |msgs| >= 1 && msgs[..1] == [q]
    ensures ToolTexts(msgs) == ToolTexts(msgs[1..])
  {
    assert msgs == [q] + msgs[1..];
    ToolTextsConcat([q], msgs[1..]);
    CollectOne(OwnTexts, q);
  }
}
