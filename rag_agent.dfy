/**
 * The agent built by `build_agent`: the two tools, the tool-call predicate
 * `should_continue`, tool dispatch `take_action`, the self-evaluation step
 * `evaluate`, and the graph that wires them. The chat model, the evaluator
 * model, the score parser, the hybrid retriever and the web search are
 * oracle functions passed in as parameters.
 */
module RagAgent {
  import opened Text
  import opened VectorStore

  const NoLocalInfo: string := "NO_LOCAL_INFO"
  /** Both tools cut their output to this many characters. */
  const ToolOutputLimit: nat := 4000
  /** An evaluator score at or above this ends the run. */
  const ScoreThreshold: real := 0.7
  /** Once `retries` reaches this, `evaluate` ends the run whatever the score. */
  const MaxRetries: int := 2
  const RetrieverToolName: string := "retriever_tool"
  const WebSearchToolName: string := "web_search_tool"

  /** A tool call requested by the model: tool name, arguments, call id. */
  datatype ToolCall = ToolCall(name: string, args: map<string, string>, id: string)

  /** Only assistant (AI) messages carry a `tool_calls` attribute. */
  datatype Message =
    | System(content: string)
    | Human(content: string)
    | Ai(content: string, toolCalls: seq<ToolCall>)
    | Tool(toolCallId: string, name: string, content: string)

  datatype AgentState = AgentState(messages: seq<Message>, question: string, answer: string, retries: int)

  /** The Python exceptions the modelled code can raise. */
  datatype Error =
    | IndexError          // `state["messages"][-1]` on an empty history
    | AttributeError      // `.tool_calls` on a message that has none
    | UnknownTool(name: string)  // `list.index` finds no tool of that name
    | RecursionLimit      // the graph ran out of steps

  datatype Result<T> = Ok(value: T) | Err(error: Error)

  // ---------------------------------------------------------------- tools

  /** `d.metadata.get("source", "local")` */
  function SourceLabel(d: Chunk): string
  {
    match d.source
    case Some(s) => s
    case None => "local"
  }

  /** `f"[{i}] ({src})\n{text}"` with every `*` of the chunk text turned into `-`. */
  function CitationBlock(n: nat, d: Chunk): string
  {
    "[" + Decimal(n) + "] (" + SourceLabel(d) + ")\n" + ReplaceChar(d.content, '*', '-')
  }

  function CitationBlocks(docs: seq<Chunk>): (blocks: seq<string>)
    ensures |blocks| == |docs|
    ensures forall j :: 0 <= j < |docs| ==>
      var header := "[" + Decimal(j + 1) + "] (" + SourceLabel(docs[j]) + ")\n";
      && header <= blocks[j]
      && blocks[j][|header|..] == ReplaceChar(docs[j].content, '*', '-')
      && '*' !in blocks[j][|header|..]
  {
    seq(|docs|, i requires 0 <= i < |docs| => CitationBlock(i + 1, docs[i]))
  }

  /** What `retriever_tool` returns for the retriever's answer `docs`. */
  function RetrieverOutput(docs: seq<Chunk>): string
  {
    if docs == [] then NoLocalInfo
    else Take(Join(CitationBlocks(docs), "\n\n"), ToolOutputLimit)
  }

  /** `retriever_tool`, given what `hybrid_retriever.retrieve(query)` returned. */
  method RetrieverTool(docs: seq<Chunk>) returns (r: string)
    ensures r == RetrieverOutput(docs)
    ensures r == NoLocalInfo <==> docs == []
    ensures |r| <= ToolOutputLimit
  {
    if docs == [] {
      return NoLocalInfo;
    }
    var out: seq<string> := [];
    var i := 0;
    while i < |docs|
      invariant 0 <= i <= |docs|
      invariant |out| == i
      invariant forall j :: 0 <= j < i ==> out[j] == CitationBlock(j + 1, docs[j])
    {
      var text := ReplaceChar(docs[i].content, '*', '-');
      out := out + ["[" + Decimal(i + 1) + "] (" + SourceLabel(docs[i]) + ")\n" + text];
      i := i + 1;
    }
    assert out == CitationBlocks(docs);
    r := Take(Join(out, "\n\n"), ToolOutputLimit);
    RetrieverOutputSpec(docs);
  }

  /** `web_search_tool`, given what the web search returned. */
  function WebSearchOutput(found: string): (r: string)
    ensures |r| <= ToolOutputLimit && r <= found
    ensures |found| <= ToolOutputLimit ==> r == found
    ensures |found| > ToolOutputLimit ==> |r| == ToolOutputLimit
  {
    Take(found, ToolOutputLimit)
  }

  lemma {:induction false} JoinStartsWith(parts: seq<string>, sep: string)
    requires |parts| > 0
    ensures parts[0] <= Join(parts, sep)
  {
  }

  /**
   * `retriever_tool` answers the sentinel exactly when the retriever found
   * nothing; otherwise it answers at most 4000 characters, a prefix of the
   * blocks joined by blank lines, starting with the block labelled `[1]`.
   */
  lemma RetrieverOutputSpec(docs: seq<Chunk>)
    ensures RetrieverOutput(docs) == NoLocalInfo <==> docs == []
    ensures |RetrieverOutput(docs)| <= ToolOutputLimit
    ensures docs != [] ==> RetrieverOutput(docs) <= Join(CitationBlocks(docs), "\n\n")
    ensures docs != [] && |Join(CitationBlocks(docs), "\n\n")| <= ToolOutputLimit ==>
      RetrieverOutput(docs) == Join(CitationBlocks(docs), "\n\n")
    ensures docs != [] && |Join(CitationBlocks(docs), "\n\n")| > ToolOutputLimit ==>
      |RetrieverOutput(docs)| == ToolOutputLimit
    ensures docs != [] ==> RetrieverOutput(docs)[0] == '['
  {
    if docs != [] {
      var blocks := CitationBlocks(docs);
      JoinStartsWith(blocks, "\n\n");
      assert blocks[0][0] == '[';
      assert RetrieverOutput(docs)[0] == '[';
      assert NoLocalInfo[0] == 'N';
    }
  }

  /** The digits at the start of `s`. */
  function LeadingDigits(s: string): (d: string)
    ensures d <= s
  {
    if s != [] && '0' <= s[0] <= '9' then [s[0]] + LeadingDigits(s[1..]) else []
  }

  /** Reads the citation number back out of a block: the digits after its `[`. */
  function CitationNumber(block: string): nat
  {
    if block != [] && block[0] == '[' then ParseDecimal(LeadingDigits(block[1..])) else 0
  }

  lemma {:induction false} LeadingDigitsOfDecimal(digits: string, rest: string)
    requires forall i :: 0 <= i < |digits| ==> '0' <= digits[i] <= '9'
    requires rest != [] && !('0' <= rest[0] <= '9')
    ensures LeadingDigits(digits + rest) == digits
  {
    if digits == [] {
      assert digits + rest == rest;
    } else {
      assert (digits + rest)[1..] == digits[1..] + rest;
      LeadingDigitsOfDecimal(digits[1..], rest);
    }
  }

  /** A block labelled `n` reads back as number `n`. */
  lemma CitationNumberOf(n: nat, d: Chunk)
    ensures CitationNumber(CitationBlock(n, d)) == n
  {
    var rest := "] (" + SourceLabel(d) + ")\n" + ReplaceChar(d.content, '*', '-');
    assert CitationBlock(n, d) == "[" + (Decimal(n) + rest);
    assert CitationBlock(n, d)[1..] == Decimal(n) + rest;
    LeadingDigitsOfDecimal(Decimal(n), rest);
    DecimalRoundTrip(n);
  }

  /** The block at position `j` reads back as number `j + 1`. */
  lemma CitationNumberAt(docs: seq<Chunk>, j: nat)
    requires j < |docs|
    ensures CitationNumber(CitationBlocks(docs)[j]) == j + 1
  {
    assert CitationBlocks(docs)[j] == CitationBlock(j + 1, docs[j]);
    CitationNumberOf(j + 1, docs[j]);
  }

  /**
   * The citation labels are `1 .. n` in result order: the block at position
   * `i` reads back as number `i + 1`, so no two blocks share a label.
   */
  lemma CitationLabels(docs: seq<Chunk>, i: nat)
    requires i < |docs|
    ensures CitationNumber(CitationBlocks(docs)[i]) == i + 1
    ensures forall j :: 0 <= j < |docs| && j != i ==>
      CitationNumber(CitationBlocks(docs)[j]) != CitationNumber(CitationBlocks(docs)[i])
  {
    CitationNumberAt(docs, i);
    forall j | 0 <= j < |docs| && j != i
      ensures CitationNumber(CitationBlocks(docs)[j]) == j + 1
    {
      CitationNumberAt(docs, j);
    }
  }

  // ---------------------------------------------------------------- should_continue

  /** `should_continue`: does the last message carry a non-empty `tool_calls`? */
  function ShouldContinue(messages: seq<Message>): (r: Result<bool>)
    ensures r.Err? <==> messages == []
    ensures r.Err? ==> r.error == IndexError
    ensures r == Ok(true) <==>
      messages != [] && messages[|messages| - 1].Ai? && |messages[|messages| - 1].toolCalls| > 0
  {
    if messages == [] then Err(IndexError)
    else
      match messages[|messages| - 1]
      case Ai(_, calls) => Ok(|calls| > 0)
      case _ => Ok(false)
  }

  // ---------------------------------------------------------------- take_action

  /** `c["args"].get("query", "")` */
  function QueryOf(c: ToolCall): string
  {
    if "query" in c.args then c.args["query"] else ""
  }

  predicate KnownTool(name: string)
  {
    name == RetrieverToolName || name == WebSearchToolName
  }

  /** The tool named `name` run on `query`, or the lookup error. */
  function InvokeTool(name: string, query: string,
                      retrieve: string -> seq<Chunk>, search: string -> string): (r: Result<string>)
    ensures r.Ok? <==> KnownTool(name)
    ensures r.Err? ==> r.error == UnknownTool(name)
    ensures name == RetrieverToolName ==> r == Ok(RetrieverOutput(retrieve(query)))
    ensures name == WebSearchToolName ==> r == Ok(WebSearchOutput(search(query)))
  {
    if name == RetrieverToolName then Ok(RetrieverOutput(retrieve(query)))
    else if name == WebSearchToolName then Ok(WebSearchOutput(search(query)))
    else Err(UnknownTool(name))
  }

  /** The names of `tools = [retriever_tool, web_search_tool]`, in list order. */
  const ToolNames: seq<string> := [RetrieverToolName, WebSearchToolName]

  /**
   * `tools[[t.name for t in tools].index(name)].invoke(query)`: the first
   * tool in the list with that name answers; `index` raises when none has it.
   */
  method CallTool(name: string, query: string, retrieve: string -> seq<Chunk>, search: string -> string)
    returns (r: Result<string>)
    ensures r == InvokeTool(name, query, retrieve, search)
  {
    var i := 0;
    while i < |ToolNames| && ToolNames[i] != name
      invariant 0 <= i <= |ToolNames|
      invariant forall j :: 0 <= j < i ==> ToolNames[j] != name
    {
      i := i + 1;
    }
    if i == |ToolNames| {
      assert name != ToolNames[0] && name != ToolNames[1];
      return Err(UnknownTool(name));
    }
    if i == 0 {
      var out := RetrieverTool(retrieve(query));
      r := Ok(out);
    } else {
      r := Ok(WebSearchOutput(search(query)));
    }
  }

  /**
   * The tool messages answering `calls` in order, or the error raised at
   * the first call naming an unknown tool.
   */
  function Answers(calls: seq<ToolCall>, retrieve: string -> seq<Chunk>, search: string -> string)
    : Result<seq<Message>>
    decreases |calls|
  {
    if calls == [] then Ok([])
    else
      var c := calls[|calls| - 1];
      match Answers(calls[..|calls| - 1], retrieve, search)
      case Err(e) => Err(e)
      case Ok(prev) =>
        match InvokeTool(c.name, QueryOf(c), retrieve, search)
        case Err(e) => Err(e)
        case Ok(out) => Ok(prev + [Tool(c.id, c.name, out)])
  }

  /** What `take_action` returns, or the exception it raises. */
  function ActionResult(messages: seq<Message>, retrieve: string -> seq<Chunk>,
                        search: string -> string): Result<seq<Message>>
  {
    if messages == [] then Err(IndexError)
    else if !messages[|messages| - 1].Ai? then Err(AttributeError)
    else Answers(messages[|messages| - 1].toolCalls, retrieve, search)
  }

  /** Once a prefix of the calls has failed, the whole list fails with the same error. */
  lemma {:induction false} AnswersErrorSticks(calls: seq<ToolCall>, i: nat,
                                             retrieve: string -> seq<Chunk>, search: string -> string)
    requires i <= |calls|
    requires Answers(calls[..i], retrieve, search).Err?
    ensures Answers(calls, retrieve, search) == Answers(calls[..i], retrieve, search)
    decreases |calls|
  {
    if i == |calls| {
      assert calls[..i] == calls;
    } else {
      var init := calls[..|calls| - 1];
      assert init[..i] == calls[..i];
      AnswersErrorSticks(init, i, retrieve, search);
    }
  }

  /**
   * `take_action`: one tool message per requested call, in call order, each
   * carrying its call's id and name and the tool's answer to the call's
   * query (`""` when the call has none); an unknown tool name raises at the
   * first such call.
   */
  method TakeAction(messages: seq<Message>, retrieve: string -> seq<Chunk>, search: string -> string)
    returns (res: Result<seq<Message>>)
    ensures res == ActionResult(messages, retrieve, search)
  {
    if messages == [] {
      return Err(IndexError);
    }
    var last := messages[|messages| - 1];
    if !last.Ai? {
      return Err(AttributeError);
    }
    var calls := last.toolCalls;
    var results: seq<Message> := [];
    var i := 0;
    while i < |calls|
      invariant 0 <= i <= |calls|
      invariant Answers(calls[..i], retrieve, search) == Ok(results)
    {
      var c := calls[i];
      var answer := CallTool(c.name, QueryOf(c), retrieve, search);
      assert calls[..i + 1][..i] == calls[..i];
      if answer.Err? {
        AnswersErrorSticks(calls, i + 1, retrieve, search);
        return Err(answer.error);
      }
      results := results + [Tool(c.id, c.name, answer.value)];
      i := i + 1;
    }
    assert calls[..i] == calls;
    res := Ok(results);
  }

  /** The calls can all be answered exactly when every one names a known tool. */
  lemma {:induction false} AnswersOk(calls: seq<ToolCall>, retrieve: string -> seq<Chunk>,
                                    search: string -> string)
    ensures Answers(calls, retrieve, search).Ok? <==> forall j :: 0 <= j < |calls| ==> KnownTool(calls[j].name)
    decreases |calls|
  {
    if calls != [] {
      var init := calls[..|calls| - 1];
      var c := calls[|calls| - 1];
      AnswersOk(init, retrieve, search);
      assert forall j :: 0 <= j < |init| ==> init[j] == calls[j];
      var answer := InvokeTool(c.name, QueryOf(c), retrieve, search);
      assert answer.Ok? <==> KnownTool(c.name);
      assert Answers(calls, retrieve, search).Ok? <==> Answers(init, retrieve, search).Ok? && answer.Ok?;
    }
  }

  /**
   * The answers are one tool message per call, in order, with the call's id
   * and name and the tool's output for the call's query.
   */
  lemma {:induction false} AnswersContent(calls: seq<ToolCall>, retrieve: string -> seq<Chunk>,
                                         search: string -> string)
    requires Answers(calls, retrieve, search).Ok?
    ensures var ms := Answers(calls, retrieve, search).value;
      && |ms| == |calls|
      && forall j :: 0 <= j < |calls| ==>
           && ms[j].Tool? && ms[j].toolCallId == calls[j].id && ms[j].name == calls[j].name
           && Ok(ms[j].content) == InvokeTool(calls[j].name, QueryOf(calls[j]), retrieve, search)
    decreases |calls|
  {
    if calls != [] {
      var init := calls[..|calls| - 1];
      AnswersContent(init, retrieve, search);
      assert forall j :: 0 <= j < |init| ==> init[j] == calls[j];
    }
  }

  /** A failure names the first call whose tool is unknown. */
  lemma {:induction false} AnswersError(calls: seq<ToolCall>, retrieve: string -> seq<Chunk>,
                                       search: string -> string)
    requires Answers(calls, retrieve, search).Err?
    ensures exists j ::
      && 0 <= j < |calls| && !KnownTool(calls[j].name)
      && (forall i :: 0 <= i < j ==> KnownTool(calls[i].name))
      && Answers(calls, retrieve, search).error == UnknownTool(calls[j].name)
    decreases |calls|
  {
    var n := |calls|;
    var init := calls[..n - 1];
    assert forall j :: 0 <= j < |init| ==> init[j] == calls[j];
    if Answers(init, retrieve, search).Err? {
      AnswersError(init, retrieve, search);
      var j :| 0 <= j < |init| && !KnownTool(init[j].name)
        && (forall i :: 0 <= i < j ==> KnownTool(init[i].name))
        && Answers(init, retrieve, search).error == UnknownTool(init[j].name);
      assert !KnownTool(calls[j].name);
    } else {
      AnswersOk(init, retrieve, search);
      assert !KnownTool(calls[n - 1].name);
    }
  }

  /**
   * What `take_action` promises: it fails when the message list is empty
   * (there is no last message) or the last message is not an AI message;
   * otherwise its outcome is that of answering the last message's calls.
   */
  lemma ActionResultSpec(messages: seq<Message>, retrieve: string -> seq<Chunk>, search: string -> string)
    ensures messages == [] ==> ActionResult(messages, retrieve, search) == Err(IndexError)
    ensures messages != [] && !messages[|messages| - 1].Ai? ==>
      ActionResult(messages, retrieve, search) == Err(AttributeError)
    ensures messages != [] && messages[|messages| - 1].Ai? ==>
      var calls := messages[|messages| - 1].toolCalls;
      var res := ActionResult(messages, retrieve, search);
      && (res.Ok? <==> forall j :: 0 <= j < |calls| ==> KnownTool(calls[j].name))
      && (res.Ok? ==> |res.value| == |calls|)
  {
    if messages != [] && messages[|messages| - 1].Ai? {
      var calls := messages[|messages| - 1].toolCalls;
      AnswersOk(calls, retrieve, search);
      if Answers(calls, retrieve, search).Ok? {
        AnswersContent(calls, retrieve, search);
      }
    }
  }

  // ---------------------------------------------------------------- prompts

  /** `system_prompt`, built once by `build_agent` from the knowledge source's description. */
  function SystemPrompt(sourceDescription: string): string
  {
    SystemHeader + sourceDescription + SystemRules
  }

  const SystemHeader: string := "\nYou are an Agentic RAG assistant.\n\nKnowledge Source:\n"
  const SystemRules: string :=
    "\n\nRules:\n- Prefer local retrieval\n- Use web search only if needed\n- Cite sources as [1], [2], etc.\n"

  /**
   * The two bare-text prompts `evaluate` sends to a model, as the oracles
   * receive them: the score request carries the question and the answer, the
   * refinement request carries nothing from the state.
   */
  datatype Prompt =
    | ScoreRequest(question: string, answer: string)
    | Reflection

  // ---------------------------------------------------------------- call_llm

  /**
   * `call_llm`: the model sees the system prompt and the whole history; its
   * reply is appended to the history and becomes the candidate answer.
   */
  function CallLlm(s: AgentState, systemPrompt: string, llm: seq<Message> -> Message): (t: AgentState)
    ensures |t.messages| == |s.messages| + 1 && t.messages[..|s.messages|] == s.messages
    ensures t.messages[|s.messages|] == llm([System(systemPrompt)] + s.messages)
    ensures t.answer == t.messages[|s.messages|].content
    ensures t.question == s.question && t.retries == s.retries
  {
    var reply := llm([System(systemPrompt)] + s.messages);
    s.(messages := s.messages + [reply], answer := reply.content)
  }

  /**
   * After `call_llm` there is always a last message, and `should_continue`
   * routes on the reply just appended: to the tools exactly when it is an AI
   * message with tool calls.
   */
  lemma CallLlmRoutes(s: AgentState, systemPrompt: string, llm: seq<Message> -> Message)
    ensures var reply := llm([System(systemPrompt)] + s.messages);
            ShouldContinue(CallLlm(s, systemPrompt, llm).messages) == Ok(reply.Ai? && |reply.toolCalls| > 0)
  {
    var t := CallLlm(s, systemPrompt, llm);
    assert t.messages[|t.messages| - 1] == llm([System(systemPrompt)] + s.messages);
  }

  // ---------------------------------------------------------------- evaluate

  /** `float(score)` with the bare `except` falling back to `0.0`. */
  function TreatedScore(parsed: Option<real>): (score: real)
    ensures parsed.None? ==> score == 0.0
    ensures parsed.Some? ==> score == parsed.value
  {
    match parsed
    case Some(x) => x
    case None => 0.0
  }

  /** What `evaluate` decides: end the run, or replace the answer and count a retry. */
  datatype EvalOutcome = Finish | Refine(answer: string, retries: int)

  /**
   * The score `evaluate` acts on: the evaluator model's reply to the score
   * prompt, stripped, through `parseFloat` (Python's `float()`, `None` where
   * it raises), with the fallback.
   */
  function Score(s: AgentState, evaluator: Prompt -> string, parseFloat: string -> Option<real>): real
  {
    TreatedScore(parseFloat(Strip(evaluator(ScoreRequest(s.question, s.answer)))))
  }

  /** `evaluate`; `llm` is the chat model's reply text to a bare prompt. */
  function Evaluate(s: AgentState, evaluator: Prompt -> string, parseFloat: string -> Option<real>,
                    llm: Prompt -> string): EvalOutcome
  {
    if Score(s, evaluator, parseFloat) >= ScoreThreshold || s.retries >= MaxRetries then Finish
    else Refine(llm(Reflection), s.retries + 1)
  }

  /** The state update `evaluate` returns, applied. */
  function ApplyOutcome(s: AgentState, o: EvalOutcome): AgentState
  {
    match o
    case Finish => s
    case Refine(a, r) => s.(answer := a, retries := r)
  }

  /**
   * `evaluate` ends the run exactly when the score reaches 0.7 or two
   * retries are used up; otherwise the new answer is the model's reply to the
   * refinement prompt and `retries` goes up by exactly one, never past 2.
   * An unparseable score counts as 0.0 and so never ends the run by itself.
   */
  lemma EvaluateSpec(s: AgentState, evaluator: Prompt -> string, parseFloat: string -> Option<real>,
                     llm: Prompt -> string)
    ensures var o := Evaluate(s, evaluator, parseFloat, llm);
      && (o.Finish? <==> Score(s, evaluator, parseFloat) >= ScoreThreshold || s.retries >= MaxRetries)
      && (o.Refine? ==> o.answer == llm(Reflection) && o.retries == s.retries + 1
                        && o.retries <= MaxRetries)
      && (parseFloat(Strip(evaluator(ScoreRequest(s.question, s.answer)))).None? ==>
            (o.Finish? <==> s.retries >= MaxRetries))
  {
  }

  /**
   * The refined answer depends on nothing in the state: two states that are
   * both sent to refinement get the same new answer, whatever their
   * questions and answers.
   */
  lemma RefinementIgnoresQuestion(s: AgentState, t: AgentState, evaluator: Prompt -> string,
                                  parseFloat: string -> Option<real>, llm: Prompt -> string)
    requires Evaluate(s, evaluator, parseFloat, llm).Refine?
    requires Evaluate(t, evaluator, parseFloat, llm).Refine?
    ensures Evaluate(s, evaluator, parseFloat, llm).answer == Evaluate(t, evaluator, parseFloat, llm).answer
  {
  }

  /**
   * `evaluate` applied over and over until it decides to finish. The
   * `retries` counter and its cap of 2 only matter if `evaluate` can run
   * again after a refinement; the graph does not wire that loop-back (see
   * `Successor`), so this is the cycle the counter is written for.
   */
  function EvaluateLoop(s: AgentState, evaluator: Prompt -> string, parseFloat: string -> Option<real>,
                        llm: Prompt -> string): AgentState
    decreases if s.retries < MaxRetries then MaxRetries - s.retries else 0
  {
    match Evaluate(s, evaluator, parseFloat, llm)
    case Finish => s
    case Refine(a, r) => EvaluateLoop(s.(answer := a, retries := r), evaluator, parseFloat, llm)
  }

  /**
   * Repeated evaluation stops, only ever raises `retries`, and from any
   * start at or below 2 never takes it past 2; the messages and the question
   * are never touched.
   */
  lemma {:induction false} EvaluateLoopBound(s: AgentState, evaluator: Prompt -> string,
                                             parseFloat: string -> Option<real>, llm: Prompt -> string)
    ensures var t := EvaluateLoop(s, evaluator, parseFloat, llm);
      && t.retries >= s.retries
      && (s.retries <= MaxRetries ==> t.retries <= MaxRetries)
      && t.messages == s.messages && t.question == s.question
    decreases if s.retries < MaxRetries then MaxRetries - s.retries else 0
  {
    match Evaluate(s, evaluator, parseFloat, llm)
    case Finish =>
    case Refine(a, r) =>
      EvaluateLoopBound(s.(answer := a, retries := r), evaluator, parseFloat, llm);
  }

  /** An evaluator whose score never reaches 0.7 drives `retries` from below 2 up to exactly 2. */
  lemma {:induction false} EvaluateLoopExhausts(s: AgentState, evaluator: Prompt -> string,
                                                parseFloat: string -> Option<real>, llm: Prompt -> string)
    requires forall p :: TreatedScore(parseFloat(Strip(evaluator(p)))) < ScoreThreshold
    requires s.retries <= MaxRetries
    ensures EvaluateLoop(s, evaluator, parseFloat, llm).retries == MaxRetries
    decreases MaxRetries - s.retries
  {
    var p := ScoreRequest(s.question, s.answer);
    assert Score(s, evaluator, parseFloat) < ScoreThreshold by {
      assert TreatedScore(parseFloat(Strip(evaluator(p)))) < ScoreThreshold;
    }
    EvaluateSpec(s, evaluator, parseFloat, llm);
    match Evaluate(s, evaluator, parseFloat, llm)
    case Finish =>
    case Refine(a, r) =>
      EvaluateLoopExhausts(s.(answer := a, retries := r), evaluator, parseFloat, llm);
  }

  /** An evaluator whose first score reaches 0.7 ends the loop with the state unchanged. */
  lemma EvaluateLoopAccepts(s: AgentState, evaluator: Prompt -> string,
                            parseFloat: string -> Option<real>, llm: Prompt -> string)
    requires Score(s, evaluator, parseFloat) >= ScoreThreshold
    ensures EvaluateLoop(s, evaluator, parseFloat, llm) == s
  {
  }

  // ---------------------------------------------------------------- the graph

  /** The graph's nodes, and `End` for the end of a run. */
  datatype Node = Llm | Tools | EvaluateNode | End

  /**
   * The graph's edges: `llm` goes to `tools` or `evaluate` as
   * `should_continue` says, `tools` goes back to `llm`, and no edge leaves
   * `evaluate`, so a run ends there.
   */
  function Successor(node: Node, s: AgentState): (r: Result<Node>)
    ensures r.Err? <==> node == Llm && s.messages == []
    ensures r == Ok(End) <==> node == EvaluateNode || node == End
    ensures node == Llm && r.Ok? ==> r.value != Llm
    ensures node == Llm && s.messages != [] ==>
      r == Ok(if ShouldContinue(s.messages) == Ok(true) then Tools else EvaluateNode)
    ensures node == Tools ==> r == Ok(Llm)
  {
    match node
    case Llm =>
      (match ShouldContinue(s.messages)
       case Ok(b) => Ok(if b then Tools else EvaluateNode)
       case Err(e) => Err(e))
    case Tools => Ok(Llm)
    case EvaluateNode => Ok(End)
    case End => Ok(End)
  }

  /**
   * What `build_agent` is given: the knowledge source's description, from
   * which the system prompt is built, and the oracles a run consults.
   */
  datatype Oracles = Oracles(
    sourceDescription: string,
    llm: seq<Message> -> Message,
    llmText: Prompt -> string,
    evaluator: Prompt -> string,
    parseFloat: string -> Option<real>,
    retrieve: string -> seq<Chunk>,
    search: string -> string)

  /** One node's state update. */
  function RunNode(node: Node, s: AgentState, o: Oracles): Result<AgentState>
  {
    match node
    case Llm => Ok(CallLlm(s, SystemPrompt(o.sourceDescription), o.llm))
    case Tools =>
      (match ActionResult(s.messages, o.retrieve, o.search)
       case Ok(ms) => Ok(s.(messages := s.messages + ms))
       case Err(e) => Err(e))
    case EvaluateNode => Ok(ApplyOutcome(s, Evaluate(s, o.evaluator, o.parseFloat, o.llmText)))
    case End => Ok(s)
  }

  /** A run of the graph from `node`, allowed at most `steps` node executions. */
  function Run(node: Node, s: AgentState, o: Oracles, steps: nat): Result<AgentState>
    decreases steps
  {
    if node == End then Ok(s)
    else if steps == 0 then Err(RecursionLimit)
    else
      match RunNode(node, s, o)
      case Err(e) => Err(e)
      case Ok(t) =>
        match Successor(node, t)
        case Err(e) => Err(e)
        case Ok(next) => Run(next, t, o, steps - 1)
  }

  /** One node leaves the question alone, and only `evaluate` may raise `retries`, by at most one. */
  lemma RunNodeRetries(node: Node, s: AgentState, o: Oracles)
    requires RunNode(node, s, o).Ok?
    ensures var t := RunNode(node, s, o).value;
      && t.question == s.question
      && (node != EvaluateNode ==> t.retries == s.retries)
      && s.retries <= t.retries <= s.retries + 1
  {
    if node == EvaluateNode {
      var outcome := Evaluate(s, o.evaluator, o.parseFloat, o.llmText);
      assert outcome.Refine? ==> outcome.retries == s.retries + 1;
    }
  }

  /**
   * Because no edge leaves `evaluate`, a run refines at most once: a run
   * that ends normally leaves `retries` where it started or one higher, and
   * its question untouched.
   */
  lemma {:induction false} RunRefinesAtMostOnce(node: Node, s: AgentState, o: Oracles, steps: nat)
    requires Run(node, s, o, steps).Ok?
    ensures var t := Run(node, s, o, steps).value;
      && s.retries <= t.retries <= s.retries + (if node == End then 0 else 1)
      && t.question == s.question
    decreases steps
  {
    if node != End {
      RunStep(node, s, o, steps);
      RunNodeRetries(node, s, o);
      var t := RunNode(node, s, o).value;
      RunRefinesAtMostOnce(Successor(node, t).value, t, o, steps - 1);
    }
  }

  /** One node only ever appends to the history; `llm` appends exactly the model's reply. */
  lemma RunNodeKeepsHistory(node: Node, s: AgentState, o: Oracles)
    requires RunNode(node, s, o).Ok?
    ensures var t := RunNode(node, s, o).value;
      && s.messages <= t.messages
      && (node == Llm ==>
            t.messages == s.messages + [o.llm([System(SystemPrompt(o.sourceDescription))] + s.messages)])
      && (node == Tools ==> t.messages == s.messages + ActionResult(s.messages, o.retrieve, o.search).value)
      && (node == EvaluateNode || node == End ==> t.messages == s.messages)
  {
    if node == EvaluateNode {
      var outcome := Evaluate(s, o.evaluator, o.parseFloat, o.llmText);
      assert ApplyOutcome(s, outcome).messages == s.messages;
    }
  }

  /**
   * A run that ends normally never rewrites or drops a message: the history
   * it started from is a prefix of the history it ends with.
   */
  lemma {:induction false} RunKeepsHistory(node: Node, s: AgentState, o: Oracles, steps: nat)
    requires Run(node, s, o, steps).Ok?
    ensures s.messages <= Run(node, s, o, steps).value.messages
    decreases steps
  {
    if node != End {
      RunStep(node, s, o, steps);
      var t := RunNode(node, s, o).value;
      assert s.messages <= t.messages by {
        RunNodeKeepsHistory(node, s, o);
      }
      var next := Successor(node, t).value;
      RunKeepsHistory(next, t, o, steps - 1);
      PrefixTransitive(s.messages, t.messages, Run(next, t, o, steps - 1).value.messages);
    }
  }

  lemma PrefixTransitive<T>(a: seq<T>, b: seq<T>, c: seq<T>)
    requires a <= b && b <= c
    ensures a <= c
  {
    assert a == b[..|a|] && b == c[..|b|];
    assert a == c[..|a|];
  }

  /** A run that ends normally from a node other than `End` executes that node and continues from its successor. */
  lemma RunStep(node: Node, s: AgentState, o: Oracles, steps: nat)
    requires node != End && Run(node, s, o, steps).Ok?
    ensures steps > 0 && RunNode(node, s, o).Ok? && Successor(node, RunNode(node, s, o).value).Ok?
    ensures var t := RunNode(node, s, o).value;
            Run(node, s, o, steps) == Run(Successor(node, t).value, t, o, steps - 1)
  {
  }
}
