/**
 * The agent of main.go: tool dispatch (executeTool) and the turn loop (Run).
 *
 * The inference client, the user-input source and the tool functions are
 * oracles: the client answers from a script of replies, getUserMessage reads
 * from a script of lines, and each tool is a function of its raw input.
 * What the agent displays and the calls it makes are recorded, in order, in a
 * transcript of events.
 */
module Agent {
  import opened Wrappers
  import opened Messages

  const ToolNotFound := "oops... tool not found"

  /** One observable step of the agent, in the order it happens. */
  datatype Event =
      /** the greeting printed when Run starts */
    | Banner
      /** the "You:" prompt followed by a call of getUserMessage, with the conversation at that moment */
    | Prompt(history: seq<Message>)
      /** a call of runInference, with the conversation it sends */
    | Infer(history: seq<Message>)
      /** a text block of the model shown to the user */
    | Said(text: string)
      /** the trace line printed just before a tool function is invoked */
    | ToolCall(name: string, input: string)

  /** How Run ends. */
  datatype Outcome =
      /** getUserMessage reported end of input: Run returns nil */
    | Finished
      /** runInference returned this error: Run returns it */
    | InferenceFailed(err: string)
      /** the inference script has no reply left for the call */
    | OutOfReplies

  /** What the inference client answers: the content of the model's message, or an error. */
  type Reply = Result<seq<Block>, string>

  // ---------------------------------------------------------------------------
  // Tool dispatch
  // ---------------------------------------------------------------------------

  /** The position of the first registered tool called `name`, if any. */
  function FindTool(tools: seq<ToolDefinition>, name: string): (r: Option<nat>)
    ensures r.Some? ==>
      && r.value < |tools|
      && tools[r.value].name == name
      && forall j | 0 <= j < r.value :: tools[j].name != name
    ensures r.None? ==> forall j | 0 <= j < |tools| :: tools[j].name != name
  {
    if tools == [] then None
    else if tools[0].name == name then Some(0)
    else match FindTool(tools[1..], name)
      case None => None
      case Some(k) => Some(k + 1)
  }

  /** The tool result block for what a tool function returned. */
  function ResultBlock(id: string, response: Result<string, string>): Block {
    match response
    case Success(text) => ToolResult(id, text, false)
    case Failure(err) => ToolResult(id, err, true)
  }

  /** The result block executeTool produces for one tool_use block. */
  function Dispatch(tools: seq<ToolDefinition>, id: string, name: string, input: string): (r: Block)
    ensures r.ToolResult? && r.toolUseId == id
    ensures (forall j | 0 <= j < |tools| :: tools[j].name != name) ==>
      r == ToolResult(id, ToolNotFound, true)
  {
    match FindTool(tools, name)
    case None => ToolResult(id, ToolNotFound, true)
    case Some(k) => ResultBlock(id, tools[k].invoke(input))
  }

  /**
   * When the k-th tool is the first one with the requested name, its function
   * decides the result: its response with isError false, or its error message
   * with isError true.
   */
  lemma DispatchSelectsFirstTool(tools: seq<ToolDefinition>, id: string, name: string, input: string, k: nat)
    requires k < |tools| && tools[k].name == name
    requires forall j | 0 <= j < k :: tools[j].name != name
    ensures tools[k].invoke(input).Success? ==>
      Dispatch(tools, id, name, input) == ToolResult(id, tools[k].invoke(input).value, false)
    ensures tools[k].invoke(input).Failure? ==>
      Dispatch(tools, id, name, input) == ToolResult(id, tools[k].invoke(input).error, true)
  {
    assert FindTool(tools, name) == Some(k);
  }

  /** The tool_use blocks of a message content, in order. */
  function ToolUses(content: seq<Block>): (r: seq<Block>)
    ensures forall k | 0 <= k < |r| :: r[k].ToolUse?
  {
    if content == [] then []
    else ToolUses(DropLast(content)) + (if Last(content).ToolUse? then [Last(content)] else [])
  }

  /** The results Run collects while walking a message content. */
  function Results(tools: seq<ToolDefinition>, content: seq<Block>): (r: seq<Block>)
    ensures forall k | 0 <= k < |r| :: r[k].ToolResult?
  {
    if content == [] then []
    else
      var b := Last(content);
      Results(tools, DropLast(content)) + (if b.ToolUse? then [Dispatch(tools, b.id, b.name, b.input)] else [])
  }

  /** Results holds exactly one result per tool_use block, in content order, each echoing its block's id. */
  lemma {:induction false} ResultsCorrelate(tools: seq<ToolDefinition>, content: seq<Block>)
    ensures |Results(tools, content)| == |ToolUses(content)|
    ensures forall k | 0 <= k < |ToolUses(content)| ::
      && Results(tools, content)[k] == Dispatch(tools, ToolUses(content)[k].id, ToolUses(content)[k].name, ToolUses(content)[k].input)
      && Results(tools, content)[k].toolUseId == ToolUses(content)[k].id
  {
    if content != [] {
      ResultsCorrelate(tools, DropLast(content));
    }
  }

  /** What Run displays while walking a message content. */
  function Shown(tools: seq<ToolDefinition>, content: seq<Block>): (r: seq<Event>)
    ensures forall e | e in r :: e.Said? || e.ToolCall?
  {
    if content == [] then []
    else
      var b := Last(content);
      Shown(tools, DropLast(content)) +
        match b
        case Text(text) => [Said(text)]
        case ToolUse(_, name, input) => if FindTool(tools, name).Some? then [ToolCall(name, input)] else []
        case _ => []
  }

  /** The texts of the text blocks of a content, in order. */
  function Texts(content: seq<Block>): seq<string> {
    if content == [] then []
    else Texts(DropLast(content)) + (if Last(content).Text? then [Last(content).text] else [])
  }

  /** The texts shown by the Said events of a transcript, in order. */
  function SaidTexts(events: seq<Event>): seq<string> {
    if events == [] then []
    else SaidTexts(DropLast(events)) + (if Last(events).Said? then [Last(events).text] else [])
  }

  /** Every text block is displayed, in content order, and nothing else is displayed as model text. */
  lemma {:induction false} ShownKeepsTextOrder(tools: seq<ToolDefinition>, content: seq<Block>)
    ensures SaidTexts(Shown(tools, content)) == Texts(content)
  {
    if content != [] {
      var init := DropLast(content);
      ShownKeepsTextOrder(tools, init);
      var s := Shown(tools, init);
      var b := Last(content);
      match b
      case Text(text) =>
        assert Shown(tools, content) == s + [Said(text)];
        assert DropLast(s + [Said(text)]) == s;
      case ToolUse(_, name, input) =>
        if FindTool(tools, name).Some? {
          assert Shown(tools, content) == s + [ToolCall(name, input)];
          assert DropLast(s + [ToolCall(name, input)]) == s;
        } else {
          assert Shown(tools, content) == s;
        }
      case ToolResult(_, _, _) =>
        assert Shown(tools, content) == s;
      case OtherBlock(_) =>
        assert Shown(tools, content) == s;
    }
  }

  // ---------------------------------------------------------------------------
  // The conversation protocol
  // ---------------------------------------------------------------------------

  /** The conversation is empty or ends with a model message that asks for no tool: Run reads user input next. */
  predicate AwaitsInput(conversation: seq<Message>) {
    conversation == [] || (Last(conversation).role == Assistant && ToolUses(Last(conversation).content) == [])
  }

  /** The conversation ends with a user message: Run calls inference next. */
  predicate Pending(conversation: seq<Message>) {
    conversation != [] && Last(conversation).role == User
  }

  /** The conversation ends with a model message that asks for at least one tool. */
  predicate EndsWithToolUse(conversation: seq<Message>) {
    conversation != [] && Last(conversation).role == Assistant && ToolUses(Last(conversation).content) != []
  }

  /** Message `m` may be appended to `prefix`: user input only when input is awaited, a model message only after a user message, tool results only right after the model message that asked for them. */
  predicate Follows(tools: seq<ToolDefinition>, prefix: seq<Message>, m: Message) {
    if IsUserInput(m) then AwaitsInput(prefix)
    else if m.role == Assistant then Pending(prefix)
    else EndsWithToolUse(prefix) && m == Message(User, Results(tools, Last(prefix).content))
  }

  /** The shape of every conversation Run builds. */
  predicate WellFormed(tools: seq<ToolDefinition>, conversation: seq<Message>) {
    forall i {:trigger Follows(tools, conversation[..i], conversation[i])} | 0 <= i < |conversation| ::
      Follows(tools, conversation[..i], conversation[i])
  }

  /** The transcript Run produces while building `conversation`. */
  function TraceOf(tools: seq<ToolDefinition>, conversation: seq<Message>): seq<Event> {
    if conversation == [] then []
    else
      var prefix := DropLast(conversation);
      var m := Last(conversation);
      TraceOf(tools, prefix) +
        if m.role == Assistant then [Infer(prefix)] + Shown(tools, m.content)
        else if IsUserInput(m) then [Prompt(prefix)]
        else []
  }

  /** The user lines recorded in the conversation, in order. */
  function InputLines(conversation: seq<Message>): seq<string> {
    if conversation == [] then []
    else
      var m := Last(conversation);
      InputLines(DropLast(conversation)) + (if IsUserInput(m) then [m.content[0].text] else [])
  }

  /** The inference replies recorded in the conversation, in order. */
  function AssistantReplies(conversation: seq<Message>): seq<Reply> {
    if conversation == [] then []
    else
      var m := Last(conversation);
      AssistantReplies(DropLast(conversation)) + (if m.role == Assistant then [Success(m.content)] else [])
  }

  lemma WellFormedAppend(tools: seq<ToolDefinition>, conversation: seq<Message>, m: Message)
    requires WellFormed(tools, conversation) && Follows(tools, conversation, m)
    ensures WellFormed(tools, conversation + [m])
  {
    var c := conversation + [m];
    forall i | 0 <= i < |c| ensures Follows(tools, c[..i], c[i]) {
      if i < |conversation| {
        assert c[..i] == conversation[..i];
      } else {
        assert c[..i] == conversation;
      }
    }
  }

  lemma WellFormedDropLast(tools: seq<ToolDefinition>, conversation: seq<Message>)
    requires conversation != [] && WellFormed(tools, conversation)
    ensures WellFormed(tools, DropLast(conversation))
    ensures Follows(tools, DropLast(conversation), Last(conversation))
  {
    var p := DropLast(conversation);
    forall i | 0 <= i < |p| ensures Follows(tools, p[..i], p[i]) {
      assert p[..i] == conversation[..i];
    }
    assert conversation[..|p|] == p;
  }

  /**
   * What holds whenever Run is about to read input or call inference: the
   * conversation is well formed, and the lines read, the replies taken and
   * the transcript written so far are exactly those the conversation records.
   */
  predicate Progress(
    tools: seq<ToolDefinition>, conversation: seq<Message>,
    lines0: seq<string>, lines: seq<string>,
    replies0: seq<Reply>, replies: seq<Reply>,
    transcript0: seq<Event>, transcript: seq<Event>)
  {
    && WellFormed(tools, conversation)
    && lines0 == InputLines(conversation) + lines
    && replies0 == AssistantReplies(conversation) + replies
    && transcript == transcript0 + [Banner] + TraceOf(tools, conversation)
    && (lines0 == [] ==> conversation == [])
  }

  /** Reading one line of input and appending it as a user message. */
  lemma ReadInputStep(
    tools: seq<ToolDefinition>, conversation: seq<Message>,
    lines0: seq<string>, lines: seq<string>,
    replies0: seq<Reply>, replies: seq<Reply>,
    transcript0: seq<Event>, transcript: seq<Event>)
    requires Progress(tools, conversation, lines0, lines, replies0, replies, transcript0, transcript)
    requires AwaitsInput(conversation) && lines != []
    ensures var c := conversation + [UserInput(lines[0])];
      && Pending(c)
      && Progress(tools, c, lines0, lines[1..], replies0, replies, transcript0, transcript + [Prompt(conversation)])
  {
    var m := UserInput(lines[0]);
    var c := conversation + [m];
    WellFormedAppend(tools, conversation, m);
    assert DropLast(c) == conversation;
    assert lines == [lines[0]] + lines[1..];
    assert InputLines(c) == InputLines(conversation) + [lines[0]];
  }

  /** Appending the model's message `content` and displaying it. */
  lemma ModelMessageStep(
    tools: seq<ToolDefinition>, conversation: seq<Message>,
    lines0: seq<string>, lines: seq<string>,
    replies0: seq<Reply>, content: seq<Block>, replies: seq<Reply>,
    transcript0: seq<Event>, transcript: seq<Event>)
    requires Progress(tools, conversation, lines0, lines, replies0, [Success(content)] + replies, transcript0, transcript)
    requires Pending(conversation)
    ensures Progress(tools, conversation + [Message(Assistant, content)], lines0, lines, replies0, replies,
      transcript0, transcript + [Infer(conversation)] + Shown(tools, content))
  {
    var m := Message(Assistant, content);
    var c := conversation + [m];
    WellFormedAppend(tools, conversation, m);
    assert DropLast(c) == conversation;
    assert replies0 == (AssistantReplies(conversation) + [Success(content)]) + replies;
    assert TraceOf(tools, c) == TraceOf(tools, conversation) + ([Infer(conversation)] + Shown(tools, content));
  }

  /** Appending the message with the results of the tools the last model message asked for. */
  lemma ToolResultsStep(
    tools: seq<ToolDefinition>, conversation: seq<Message>,
    lines0: seq<string>, lines: seq<string>,
    replies0: seq<Reply>, replies: seq<Reply>,
    transcript0: seq<Event>, transcript: seq<Event>)
    requires Progress(tools, conversation, lines0, lines, replies0, replies, transcript0, transcript)
    requires EndsWithToolUse(conversation)
    ensures var c := conversation + [Message(User, Results(tools, Last(conversation).content))];
      Pending(c) && Progress(tools, c, lines0, lines, replies0, replies, transcript0, transcript)
  {
    var r := Message(User, Results(tools, Last(conversation).content));
    ResultsCorrelate(tools, Last(conversation).content);
    assert r.content[0].ToolResult?;
    WellFormedAppend(tools, conversation, r);
    assert DropLast(conversation + [r]) == conversation;
  }

  /**
   * Taking the model's reply `content`, displaying and dispatching it, and
   * appending the tool results if there are any.
   */
  lemma ReplyStep(
    tools: seq<ToolDefinition>, conversation: seq<Message>,
    lines0: seq<string>, lines: seq<string>,
    replies0: seq<Reply>, content: seq<Block>, replies: seq<Reply>,
    transcript0: seq<Event>, transcript: seq<Event>)
    requires Progress(tools, conversation, lines0, lines, replies0, [Success(content)] + replies, transcript0, transcript)
    requires Pending(conversation)
    ensures var c := conversation + [Message(Assistant, content)];
      var t := transcript + [Infer(conversation)] + Shown(tools, content);
      && (Results(tools, content) == [] ==>
            AwaitsInput(c) && Progress(tools, c, lines0, lines, replies0, replies, transcript0, t))
      && (Results(tools, content) != [] ==>
            var c' := c + [Message(User, Results(tools, content))];
            Pending(c') && Progress(tools, c', lines0, lines, replies0, replies, transcript0, t))
  {
    var c := conversation + [Message(Assistant, content)];
    var t := transcript + [Infer(conversation)] + Shown(tools, content);
    ModelMessageStep(tools, conversation, lines0, lines, replies0, content, replies, transcript0, transcript);
    ResultsCorrelate(tools, content);
    if Results(tools, content) != [] {
      ToolResultsStep(tools, c, lines0, lines, replies0, replies, transcript0, t);
    }
  }

  /** An event is consistent with the final conversation. */
  predicate EventConsistent(e: Event, conversation: seq<Message>) {
    && (e.Prompt? ==> AwaitsInput(e.history) && e.history < conversation)
    && (e.Infer? ==> Pending(e.history) && e.history < conversation)
  }

  /**
   * In the transcript of a well-formed conversation, user input is read only
   * when no tool results are waiting to be sent, every inference call sends a
   * conversation ending with a user message, and everything ever read or sent
   * is a prefix of the final conversation (history only grows by appending).
   */
  lemma {:induction false} TraceConsistent(tools: seq<ToolDefinition>, conversation: seq<Message>)
    requires WellFormed(tools, conversation)
    ensures forall e | e in TraceOf(tools, conversation) :: EventConsistent(e, conversation)
  {
    if conversation != [] {
      var prefix := DropLast(conversation);
      WellFormedDropLast(tools, conversation);
      TraceConsistent(tools, prefix);
      assert prefix < conversation;
      var m := Last(conversation);
      var tail := if m.role == Assistant then [Infer(prefix)] + Shown(tools, m.content)
                  else if IsUserInput(m) then [Prompt(prefix)]
                  else [];
      assert TraceOf(tools, conversation) == TraceOf(tools, prefix) + tail;
      forall e | e in TraceOf(tools, conversation) ensures EventConsistent(e, conversation) {
        if e in TraceOf(tools, prefix) {
          assert EventConsistent(e, prefix);
        } else {
          assert e in tail;
        }
      }
    }
  }

  lemma {:induction false} TracePrefix(tools: seq<ToolDefinition>, conversation: seq<Message>, j: nat)
    requires j <= |conversation|
    ensures TraceOf(tools, conversation[..j]) <= TraceOf(tools, conversation)
    decreases |conversation| - j
  {
    if j < |conversation| {
      var p := DropLast(conversation);
      assert p[..j] == conversation[..j];
      TracePrefix(tools, p, j);
    } else {
      assert conversation[..j] == conversation;
    }
  }

  /**
   * After a tool-result message, the very next thing the agent does is an
   * inference call that sends the conversation up to and including it.
   */
  lemma NextActionIsInference(tools: seq<ToolDefinition>, conversation: seq<Message>, i: nat)
    requires WellFormed(tools, conversation)
    requires i + 1 < |conversation|
    requires conversation[i].role == User && !IsUserInput(conversation[i])
    ensures TraceOf(tools, conversation[..i + 1]) + [Infer(conversation[..i + 1])] <= TraceOf(tools, conversation)
  {
    var p := conversation[..i + 1];
    var q := conversation[..i + 2];
    assert Follows(tools, conversation[..i + 1], conversation[i + 1]);
    assert Last(p) == conversation[i];
    assert conversation[i + 1].role == Assistant;
    assert DropLast(q) == p && Last(q) == conversation[i + 1];
    assert TraceOf(tools, q) == TraceOf(tools, p) + [Infer(p)] + Shown(tools, conversation[i + 1].content);
    TracePrefix(tools, conversation, i + 2);
  }

  // ---------------------------------------------------------------------------
  // The agent
  // ---------------------------------------------------------------------------

  class Agent {
    const tools: seq<ToolDefinition>
    /** The lines getUserMessage has yet to return. */
    var lines: seq<string>
    /** The replies the inference client has yet to give. */
    var replies: seq<Reply>
    /** Everything the agent has displayed or called so far. */
    var transcript: seq<Event>

    /** NewAgent: the client is given by its replies, getUserMessage by its lines. */
    constructor (client: seq<Reply>, getUserMessage: seq<string>, tools: seq<ToolDefinition>)
      ensures this.tools == tools && lines == getUserMessage && replies == client && transcript == []
    {
      this.tools := tools;
      this.lines := getUserMessage;
      this.replies := client;
      this.transcript := [];
    }

    /** getUserMessage: the next line, or ("", false) once input is exhausted. */
    method GetUserMessage() returns (line: string, ok: bool)
      modifies this`lines
      ensures ok == (old(lines) != [])
      ensures ok ==> line == old(lines)[0] && lines == old(lines)[1..]
      ensures !ok ==> line == "" && lines == []
    {
      if lines == [] {
        return "", false;
      }
      line, ok := lines[0], true;
      lines := lines[1..];
    }

    /** runInference: sends the conversation and takes the client's next reply (None if the script is spent). */
    method RunInference(conversation: seq<Message>) returns (reply: Option<Reply>)
      modifies this`replies, this`transcript
      ensures transcript == old(transcript) + [Infer(conversation)]
      ensures old(replies) == [] ==> reply == None && replies == []
      ensures old(replies) != [] ==> reply == Some(old(replies)[0]) && replies == old(replies)[1..]
    {
      transcript := transcript + [Infer(conversation)];
      if replies == [] {
        return None;
      }
      reply := Some(replies[0]);
      replies := replies[1..];
    }

    /** executeTool: finds the first tool with the given name and turns its outcome into a result block. */
    method ExecuteTool(id: string, name: string, input: string) returns (result: Block)
      modifies this`transcript
      ensures result == Dispatch(tools, id, name, input)
      ensures transcript == old(transcript) + (if FindTool(tools, name).Some? then [ToolCall(name, input)] else [])
    {
      var found := false;
      var index := 0;
      for i := 0 to |tools|
        invariant !found
        invariant forall j | 0 <= j < i :: tools[j].name != name
      {
        if tools[i].name == name {
          found := true;
          index := i;
          break;
        }
      }
      if !found {
        return ToolResult(id, ToolNotFound, true);
      }
      assert FindTool(tools, name) == Some(index);
      transcript := transcript + [ToolCall(name, input)];
      var response := tools[index].invoke(input);
      if response.Failure? {
        return ToolResult(id, response.error, true);
      }
      result := ToolResult(id, response.value, false);
    }

    /**
     * The walk over the blocks of one model message inside Run: text blocks
     * are displayed, tool_use blocks are dispatched, other blocks are ignored.
     */
    method HandleContent(content: seq<Block>) returns (toolResults: seq<Block>)
      modifies this`transcript
      ensures toolResults == Results(tools, content)
      ensures transcript == old(transcript) + Shown(tools, content)
    {
      toolResults := [];
      for i := 0 to |content|
        invariant toolResults == Results(tools, content[..i])
        invariant transcript == old(transcript) + Shown(tools, content[..i])
      {
        assert DropLast(content[..i + 1]) == content[..i];
        match content[i]
        case Text(text) =>
          transcript := transcript + [Said(text)];
        case ToolUse(id, name, input) =>
          var result := ExecuteTool(id, name, input);
          toolResults := toolResults + [result];
        case _ =>
      }
      assert content[..|content|] == content;
    }

    /**
     * The part of one turn of Run that reads user input: prompt, call
     * getUserMessage, and append the line as a user message.
     */
    method ReadUserInput(conversation: seq<Message>, ghost lines0: seq<string>, ghost replies0: seq<Reply>, ghost transcript0: seq<Event>)
      returns (ok: bool, next: seq<Message>)
      requires Progress(tools, conversation, lines0, lines, replies0, replies, transcript0, transcript)
      requires AwaitsInput(conversation)
      modifies this`lines, this`transcript
      ensures transcript == old(transcript) + [Prompt(conversation)]
      ensures ok <==> old(lines) != []
      ensures !ok ==> lines == [] && next == conversation
      ensures !ok ==>
        && lines0 == InputLines(conversation)
        && replies0 == AssistantReplies(conversation) + replies
        && transcript == transcript0 + [Banner] + TraceOf(tools, conversation) + [Prompt(conversation)]
      ensures ok ==> next == conversation + [UserInput(old(lines)[0])] && lines == old(lines)[1..]
      ensures ok ==> Pending(next) && Progress(tools, next, lines0, lines, replies0, replies, transcript0, transcript)
    {
      ghost var unread, shown := lines, transcript;
      transcript := transcript + [Prompt(conversation)];
      var userInput;
      userInput, ok := GetUserMessage();
      next := conversation;
      if ok {
        ReadInputStep(tools, conversation, lines0, unread, replies0, replies, transcript0, shown);
        next := conversation + [UserInput(userInput)];
      }
    }

    /**
     * The part of one turn of Run after the conversation ends with a user
     * message: call inference, show and dispatch the reply, and append what
     * it adds to the conversation. An outcome is returned when Run stops here.
     */
    method Respond(conversation: seq<Message>, ghost lines0: seq<string>, ghost replies0: seq<Reply>, ghost transcript0: seq<Event>)
      returns (outcome: Option<Outcome>, next: seq<Message>, readUserInput: bool)
      requires Progress(tools, conversation, lines0, lines, replies0, replies, transcript0, transcript)
      requires Pending(conversation)
      modifies this`replies, this`transcript
      ensures outcome.Some? ==> next == conversation && transcript == old(transcript) + [Infer(conversation)]
      ensures outcome == Some(OutOfReplies) <==> old(replies) == []
      ensures outcome == Some(OutOfReplies) ==> replies == []
      ensures outcome.Some? && outcome.value.InferenceFailed? ==>
        old(replies) == [Failure(outcome.value.err)] + replies
      ensures outcome.Some? ==> outcome.value.OutOfReplies? || outcome.value.InferenceFailed?
      ensures outcome.Some? ==>
        && lines0 == InputLines(conversation) + lines
        && transcript == transcript0 + [Banner] + TraceOf(tools, conversation) + [Infer(conversation)]
      ensures outcome == Some(OutOfReplies) ==> replies0 == AssistantReplies(conversation)
      ensures outcome.Some? && outcome.value.InferenceFailed? ==>
        replies0 == AssistantReplies(conversation) + [Failure(outcome.value.err)] + replies
      ensures outcome.None? ==>
        && old(replies) != [] && old(replies)[0].Success? && replies == old(replies)[1..]
        && var content := old(replies)[0].value;
           var results := Results(tools, content);
           && next == conversation + [Message(Assistant, content)] + (if results == [] then [] else [Message(User, results)])
           && (readUserInput <==> results == [])
           && transcript == old(transcript) + [Infer(conversation)] + Shown(tools, content)
      ensures outcome.None? ==>
        && Progress(tools, next, lines0, lines, replies0, replies, transcript0, transcript)
        && (readUserInput ==> AwaitsInput(next))
        && (!readUserInput ==> Pending(next))
    {
      next := conversation;
      readUserInput := false;
      ghost var pending, traced := replies, transcript;
      var reply := RunInference(conversation);
      if reply == None {
        return Some(OutOfReplies), next, readUserInput;
      }
      if reply.value.Failure? {
        return Some(InferenceFailed(reply.value.error)), next, readUserInput;
      }
      var content := reply.value.value;
      assert pending == [Success(content)] + replies;
      ReplyStep(tools, conversation, lines0, lines, replies0, content, replies, transcript0, traced);
      next := next + [Message(Assistant, content)];

      var toolResults := HandleContent(content);

      if |toolResults| == 0 {
        return None, next, true;
      }

      next := next + [Message(User, toolResults)];
      outcome := None;
    }

    /**
     * Run: alternates between reading user input and calling inference, and
     * dispatches the tools the model asks for. The whole transcript and the
     * consumption of both scripts are determined by the conversation built.
     */
    method Run() returns (outcome: Outcome, conversation: seq<Message>)
      modifies this`lines, this`replies, this`transcript
      ensures WellFormed(tools, conversation)
      ensures old(lines) == InputLines(conversation) + lines
      ensures outcome.Finished? ==>
        && lines == []
        && AwaitsInput(conversation)
        && old(replies) == AssistantReplies(conversation) + replies
        && transcript == old(transcript) + [Banner] + TraceOf(tools, conversation) + [Prompt(conversation)]
      ensures outcome.InferenceFailed? ==>
        && Pending(conversation)
        && old(replies) == AssistantReplies(conversation) + [Failure(outcome.err)] + replies
        && transcript == old(transcript) + [Banner] + TraceOf(tools, conversation) + [Infer(conversation)]
      ensures outcome.OutOfReplies? ==>
        && Pending(conversation)
        && old(replies) == AssistantReplies(conversation) && replies == []
        && transcript == old(transcript) + [Banner] + TraceOf(tools, conversation) + [Infer(conversation)]
      ensures old(lines) == [] ==>
        outcome.Finished? && conversation == [] && transcript == old(transcript) + [Banner, Prompt([])]
    {
      conversation := [];
      transcript := transcript + [Banner];
      var readUserInput := true;
      while true
        invariant Progress(tools, conversation, old(lines), lines, old(replies), replies, old(transcript), transcript)
        invariant readUserInput ==> AwaitsInput(conversation)
        invariant !readUserInput ==> Pending(conversation)
        decreases |replies|
      {
        if readUserInput {
          var ok, next := ReadUserInput(conversation, old(lines), old(replies), old(transcript));
          if !ok {
            outcome := Finished;
            break;
          }
          conversation := next;
        }

        var stop, next, readNext := Respond(conversation, old(lines), old(replies), old(transcript));
        if stop.Some? {
          return stop.value, conversation;
        }
        conversation, readUserInput := next, readNext;
      }
    }
  }
}
