/**
 * `LLMClient.process_query_streaming` and the two handlers it routes to.
 * The user's query is first recorded in the session's history; a query
 * whose stripped, lower-cased text starts with `tool:` is parsed and sent
 * to the MCP server, anything else goes to the language model together
 * with a system prompt and the session's history. Every answer is a
 * stream of chunks whose last chunk is marked done.
 *
 * The MCP call and the language model are parameters: `ToolCaller` stands
 * for `call_tool` followed by its JSON or `str` rendering, `Provider` for
 * the Groq chat completion, and a missing provider for a client started
 * without an API key.
 */
module Router {
  import opened Wrappers
  import opened Text
  import opened Conversation
  import opened Streaming
  import opened ToolCommand
  import opened Suggestions

  // ---------------------------------------------------------------------------
  // The system prompt
  // ---------------------------------------------------------------------------

  /** `_get_tool_descriptions`, in the dict's insertion order. */
  const ToolDescriptions: seq<(string, string)> := [
    ("list_organizations", "List all organizations monitored by SecureGuard"),
    ("get_organization_details", "Get detailed info about a specific organization"),
    ("filter_organizations_by_type", "Filter organizations by type"),
    ("list_cases", "List security cases. Optional parameter: status (e.g., 'active', 'resolved')"),
    ("get_case_details", "Get details for a case. Required parameter: case_id (e.g., 'CASE001')"),
    ("list_signals", "List security signals. Optional parameters: org_name (e.g., 'OrgA'), signal_type (e.g., 'MALWARE')"),
    ("get_security_summary", "Get a comprehensive security summary with key metrics"),
    ("health", "Check the health status of the MCP server")
  ]

  /** `f"- {name}: {description}"`. */
  function ToolLine(d: (string, string)): string {
    "- " + d.0 + ": " + d.1
  }

  function ToolLines(): (ls: seq<string>)
    ensures |ls| == |ToolDescriptions|
    ensures forall i :: 0 <= i < |ls| ==> ls[i] == ToolLine(ToolDescriptions[i])
  {
    seq(|ToolDescriptions|, i requires 0 <= i < |ToolDescriptions| => ToolLine(ToolDescriptions[i]))
  }

  const PromptIntro := "You are a helpful SecureGuard security monitoring assistant.\n\nAvailable tools:\n"
  const PromptOutro := "\n\nYou can help users understand their security posture, analyze cases, and manage organizations.\nFor direct tool access, users can type 'tool: <tool_name> [parameters]'."

  /** The system message's content for a list of tool lines: the fixed text around them. */
  function PromptText(lines: seq<string>): string {
    PromptIntro + Join("\n", lines) + PromptOutro
  }

  /** The text before the tool lines ends a line of its own. */
  lemma PromptIntroEndsLine()
    ensures |PromptIntro| > 0 && PromptIntro[|PromptIntro| - 1] == '\n'
  {
  }

  /** The system message's content: the fixed text around one line per tool. */
  function SystemPrompt(): string {
    PromptText(ToolLines())
  }

  /**
   * Whatever the lines, each one sits in the prompt on a line of its own:
   * a newline right before it, and right after it either the one newline
   * before the next line or, for the last line, the closing text.
   */
  lemma PromptPlacesEveryLine(lines: seq<string>, i: nat)
    requires i < |lines|
    ensures OccursAt(PromptText(lines), lines[i], |PromptIntro| + JoinOffset("\n", lines, i))
    ensures OccursAt(PromptText(lines), "\n", |PromptIntro| + JoinOffset("\n", lines, i) - 1)
    ensures i + 1 < |lines| ==>
      OccursAt(PromptText(lines), "\n", |PromptIntro| + JoinOffset("\n", lines, i) + |lines[i]|)
    ensures i + 1 < |lines| ==>
      JoinOffset("\n", lines, i) + |lines[i]| + 1 == JoinOffset("\n", lines, i + 1)
    ensures i + 1 == |lines| ==>
      OccursAt(PromptText(lines), PromptOutro, |PromptIntro| + JoinOffset("\n", lines, i) + |lines[i]|)
  {
    PromptLineStarts(lines, i);
    PromptLineEnds(lines, i);
  }

  /** A line sits at its offset in the prompt, right after a newline. */
  lemma PromptLineStarts(lines: seq<string>, i: nat)
    requires i < |lines|
    ensures OccursAt(PromptText(lines), lines[i], |PromptIntro| + JoinOffset("\n", lines, i))
    ensures OccursAt(PromptText(lines), "\n", |PromptIntro| + JoinOffset("\n", lines, i) - 1)
  {
    PromptIntroEndsLine();
    JoinLinesInFrame(PromptText(lines), PromptIntro, lines, PromptOutro, i);
  }

  /** Right after a line comes the newline before the next line, or the closing text after the last. */
  lemma PromptLineEnds(lines: seq<string>, i: nat)
    requires i < |lines|
    ensures i + 1 < |lines| ==>
      OccursAt(PromptText(lines), "\n", |PromptIntro| + JoinOffset("\n", lines, i) + |lines[i]|)
    ensures i + 1 < |lines| ==>
      JoinOffset("\n", lines, i) + |lines[i]| + 1 == JoinOffset("\n", lines, i + 1)
    ensures i + 1 == |lines| ==>
      OccursAt(PromptText(lines), PromptOutro, |PromptIntro| + JoinOffset("\n", lines, i) + |lines[i]|)
  {
    JoinInFrame(PromptIntro, "\n", lines, PromptOutro, i);
  }


  /**
   * Every tool's line appears in the system prompt, in the order of the
   * description table, on a line of its own: a newline comes right before
   * it, and right after it comes either the one newline before the next
   * tool's line or, for the last tool, the closing text.
   */
  lemma SystemPromptListsEveryTool(i: nat)
    requires i < |ToolDescriptions|
    ensures ToolLines()[i] == ToolLine(ToolDescriptions[i])
    ensures OccursAt(SystemPrompt(), ToolLines()[i], |PromptIntro| + JoinOffset("\n", ToolLines(), i))
    ensures OccursAt(SystemPrompt(), "\n", |PromptIntro| + JoinOffset("\n", ToolLines(), i) - 1)
    ensures i + 1 < |ToolDescriptions| ==>
      OccursAt(SystemPrompt(), "\n", |PromptIntro| + JoinOffset("\n", ToolLines(), i) + |ToolLines()[i]|)
    ensures i + 1 < |ToolDescriptions| ==>
      JoinOffset("\n", ToolLines(), i) + |ToolLines()[i]| + 1 == JoinOffset("\n", ToolLines(), i + 1)
    ensures i + 1 == |ToolDescriptions| ==>
      OccursAt(SystemPrompt(), PromptOutro, |PromptIntro| + JoinOffset("\n", ToolLines(), i) + |ToolLines()[i]|)
  {
    PromptPlacesEveryLine(ToolLines(), i);
  }

  /**
   * `_prepare_messages`: the system message followed by the session's
   * history, read through `setdefault` (which may register the session).
   */
  function PrepareMessages(store: Store, sid: SessionId): (r: (Store, seq<Message>))
    ensures |r.1| == 1 + |History(store, sid)|
    ensures r.1[0] == Message(System, SystemPrompt())
    ensures r.1[1..] == History(store, sid)
    ensures forall s :: History(r.0, s) == History(store, s)
    ensures Bounded(store) ==> Bounded(r.0)
  {
    var (registered, history) := GetHistory(store, sid);
    var msgs := [Message(System, SystemPrompt())] + history;
    assert msgs[1..] == history;
    (registered, msgs)
  }

  // ---------------------------------------------------------------------------
  // Collaborators
  // ---------------------------------------------------------------------------

  /**
   * `await self.mcp_client.call_tool(name, **kwargs)` followed by
   * `json.dumps(result, indent=2)` for a dict result and `str(result)`
   * otherwise: the response text, or the message of an exception that
   * escapes into the handler.
   */
  type ToolCaller = (string, Args) -> Result<string, string>

  /** The chat completion: the model's reply to a message list, or the message of the exception it raised. */
  type Provider = seq<Message> -> Result<string, string>

  /** What a query leaves behind: the new conversation store and the stream it yields. */
  datatype Outcome = Outcome(store: Store, chunks: seq<Chunk>)

  /** A one-chunk stream `{"response": msg, "type": "error", "done": True}`. */
  function ErrorStream(msg: string): (cs: seq<Chunk>)
    ensures WellFormed(cs)
    ensures Concat(cs) == msg
    ensures |cs| == 1 && cs[0].kind == Error && cs[0].done
  {
    [Chunk(msg, Error, true)]
  }

  // ---------------------------------------------------------------------------
  // The tool path
  // ---------------------------------------------------------------------------

  const ToolErrorPrefix := "Error executing tool: "

  /** `str(e)` of the `TypeError` raised when a keyword argument collides with one of `call_tool`'s parameters. */
  function MultipleValues(k: string): string {
    "SecureGuardMCPClient.call_tool() got multiple values for argument '" + k + "'"
  }

  /**
   * The call itself, once the command is parsed: a keyword that collides
   * with `call_tool`'s own parameters raises before the call, a failing
   * call becomes an error, and a successful one is streamed in
   * 100-character chunks.
   */
  function Execute(inv: Invocation, call: ToolCaller): (cs: seq<Chunk>)
    ensures WellFormed(cs)
    ensures cs[0].kind == ToolResponse <==> CallConflict(inv.args).None? && call(inv.name, inv.args).Success?
    ensures cs[0].kind == ToolResponse ==> Concat(cs) == call(inv.name, inv.args).value
    ensures cs[0].kind == ToolResponse ==> cs == Chunks(call(inv.name, inv.args).value, ToolResponse)
    ensures CallConflict(inv.args).Some? ==>
      cs == ErrorStream(ToolErrorPrefix + MultipleValues(CallConflict(inv.args).value))
    ensures CallConflict(inv.args).None? && call(inv.name, inv.args).Failure? ==>
      cs == ErrorStream(ToolErrorPrefix + call(inv.name, inv.args).error)
  {
    match CallConflict(inv.args)
    case Some(k) => ErrorStream(ToolErrorPrefix + MultipleValues(k))
    case None =>
      match call(inv.name, inv.args)
      case Failure(e) => ErrorStream(ToolErrorPrefix + e)
      case Success(text) => Chunks(text, ToolResponse)
  }

  /**
   * `_handle_tool_query`: parse the command and execute it; a query with
   * nothing after the prefix raises the `IndexError` of `parts[0]`, which
   * becomes one error chunk.
   */
  function HandleToolQuery(query: string, call: ToolCaller): (cs: seq<Chunk>)
    ensures WellFormed(cs)
    ensures CommandText(query) == "" ==> cs == ErrorStream(ToolErrorPrefix + MissingToolName)
    ensures CommandText(query) != "" ==> cs == Execute(ParseToolCommand(query).value, call)
  {
    match ParseToolCommand(query)
    case Failure(e) => ErrorStream(ToolErrorPrefix + e)
    case Success(inv) => Execute(inv, call)
  }

  /** A bare `tool:` is routed to the tool path and answered by the `IndexError` of the missing tool name. */
  lemma BareToolPrefix(call: ToolCaller)
    ensures IsToolQuery(Prefix)
    ensures HandleToolQuery(Prefix, call) == ErrorStream(ToolErrorPrefix + MissingToolName)
  {
    BarePrefixRoutes();
    BarePrefixLeavesNothing();
  }

  lemma BarePrefixRoutes()
    ensures IsToolQuery(Prefix)
  {
    VisibleIsNotSpace(Prefix[0]);
    VisibleIsNotSpace(Prefix[|Prefix| - 1]);
    StripOfUnpadded(Prefix);
    LowerOfPrefix();
  }

  lemma BarePrefixLeavesNothing()
    ensures CommandText(Prefix) == ""
  {
    assert DropPrefix(Prefix, |Prefix|) == "";
  }

  /**
   * A tool response streams what the call returned, the tool that is called
   * is the first word after the prefix, and each keyword it receives
   * carries the value of the last `key=value` token that names it.
   */
  lemma ToolCallReceivesParsedCommand(query: string, call: ToolCaller, k: string)
    requires HandleToolQuery(query, call)[0].kind == ToolResponse
    ensures ParseToolCommand(query).Success?
    ensures var ts := Tokens(CommandText(query));
      var inv := ParseToolCommand(query).value;
      && HandleToolQuery(query, call) == Chunks(call(inv.name, inv.args).value, ToolResponse)
      && Concat(HandleToolQuery(query, call)) == call(inv.name, inv.args).value
      && |ts| > 0
      && inv.name == ts[0]
      && (Lookup(inv.args, k).None? <==> forall i :: 0 <= i < |ts| - 1 ==> !BindsKey(ts[1..][i], k))
      && (forall i :: LastBindingToken(ts[1..], k, i) ==> Lookup(inv.args, k) == Some(KeyValue(ts[1..][i]).value.1))
  {
    ParsedArgsAreLastBindings(query, k);
  }

  // ---------------------------------------------------------------------------
  // The language-model path
  // ---------------------------------------------------------------------------

  const NoProviderMessage := "GROQ_API_KEY not set or LLM unavailable."
  const LlmErrorPrefix := "LLM Error: "

  /**
   * `_handle_llm_query`: without a provider, an error with suggestions and
   * no change to the history; otherwise the system prompt and history go to
   * the provider, whose reply is recorded as the assistant's turn and
   * streamed, or whose failure becomes an error with suggestions.
   */
  function HandleLlmQuery(store: Store, sid: SessionId, query: string, provider: Option<Provider>): (r: Outcome)
    ensures WellFormed(r.chunks)
    ensures SameElsewhere(r.store, store, sid)
    ensures Bounded(store) ==> Bounded(r.store)
    ensures provider.None? ==>
      r == Outcome(store, ErrorStream(WithSuggestions(NoProviderMessage, ToolSuggestions(query))))
    ensures provider.Some? ==>
      var msgs := [Message(System, SystemPrompt())] + History(store, sid);
      && (provider.value(msgs).Failure? ==>
            && History(r.store, sid) == History(store, sid)
            && r.chunks == ErrorStream(WithSuggestions(LlmErrorPrefix + provider.value(msgs).error, ToolSuggestions(query))))
      && (provider.value(msgs).Success? ==>
            && r.store == Append(store, sid, Assistant, provider.value(msgs).value)
            && r.chunks[0].kind == LlmResponse
            && Concat(r.chunks) == provider.value(msgs).value
            && r.chunks == Chunks(provider.value(msgs).value, LlmResponse))
  {
    match provider
    case None => Outcome(store, ErrorStream(WithSuggestions(NoProviderMessage, ToolSuggestions(query))))
    case Some(ask) =>
      var (registered, msgs) := PrepareMessages(store, sid);
      assert msgs == [msgs[0]] + msgs[1..];
      match ask(msgs)
      case Failure(e) => Outcome(registered, ErrorStream(WithSuggestions(LlmErrorPrefix + e, ToolSuggestions(query))))
      case Success(reply) =>
        AppendAfterRegistration(store, registered, sid, reply);
        Outcome(Append(registered, sid, Assistant, reply), Chunks(reply, LlmResponse))
  }

  /** Appending after `setdefault` registered the session is the same as appending directly. */
  lemma AppendAfterRegistration(store: Store, registered: Store, sid: SessionId, content: string)
    requires registered == GetHistory(store, sid).0
    ensures Append(registered, sid, Assistant, content) == Append(store, sid, Assistant, content)
  {
    if sid !in store {
      assert registered == store[sid := []];
    }
  }

  // ---------------------------------------------------------------------------
  // The entry point
  // ---------------------------------------------------------------------------

  /** `process_query_streaming`: record the user's turn, then route on the `tool:` prefix. */
  function ProcessQuery(store: Store, sid: SessionId, query: string, call: ToolCaller, provider: Option<Provider>): (r: Outcome)
    ensures WellFormed(r.chunks)
    ensures SameElsewhere(r.store, store, sid)
    ensures Bounded(store) ==> Bounded(r.store)
    ensures IsToolQuery(query) ==>
      r == Outcome(Append(store, sid, User, query), HandleToolQuery(query, call))
    ensures !IsToolQuery(query) ==> r == HandleLlmQuery(Append(store, sid, User, query), sid, query, provider)
  {
    var recorded := Append(store, sid, User, query);
    if IsToolQuery(query) then Outcome(recorded, HandleToolQuery(query, call))
    else HandleLlmQuery(recorded, sid, query, provider)
  }

  /** What the model replies to a query that reaches it, if it is asked and answers. */
  function Reply(store: Store, sid: SessionId, query: string, provider: Option<Provider>): Option<string> {
    var msgs := [Message(System, SystemPrompt())] + History(Append(store, sid, User, query), sid);
    if !IsToolQuery(query) && provider.Some? && provider.value(msgs).Success? then Some(provider.value(msgs).value)
    else None
  }

  /** The turns a query adds to its session: the user's, then the assistant's reply when the model answered. */
  function Turns(query: string, reply: Option<string>): seq<Message> {
    match reply
    case None => [Message(User, query)]
    case Some(text) => [Message(User, query), Message(Assistant, text)]
  }

  /** Only the user's turn is recorded unless the model answered, and then its reply follows. */
  lemma StoreAfterQuery(store: Store, sid: SessionId, query: string, call: ToolCaller, provider: Option<Provider>)
    ensures var recorded := Append(store, sid, User, query);
      var r := ProcessQuery(store, sid, query, call, provider);
      match Reply(store, sid, query, provider)
      case None => History(r.store, sid) == History(recorded, sid)
      case Some(text) => r.store == Append(recorded, sid, Assistant, text)
  {
  }

  /**
   * Whatever the route, the session ends up with the last twenty of its
   * old history followed by the turns the query added.
   */
  lemma HistoryAfterQuery(store: Store, sid: SessionId, query: string, call: ToolCaller, provider: Option<Provider>)
    requires |History(store, sid)| <= MaxHistory
    ensures History(ProcessQuery(store, sid, query, call, provider).store, sid)
      == LastN(MaxHistory, History(store, sid) + Turns(query, Reply(store, sid, query, provider)))
  {
    var h := History(store, sid);
    var recorded := Append(store, sid, User, query);
    StoreAfterQuery(store, sid, query, call, provider);
    AppendIsLastN(store, sid, User, query);
    match Reply(store, sid, query, provider)
    case None =>
    case Some(text) =>
      var ms := Turns(query, Some(text));
      AppendIsLastN(recorded, sid, Assistant, text);
      assert ms[0] == Message(User, query) && ms[1..] == [Message(Assistant, text)];
      LastNStep(MaxHistory, h, ms, History(recorded, sid));
  }

  /**
   * The model is asked with the system prompt first and the user's new
   * query last, and sees at most the twenty most recent turns.
   */
  lemma ModelSeesQueryLast(store: Store, sid: SessionId, query: string)
    requires Bounded(store)
    ensures var msgs := PrepareMessages(Append(store, sid, User, query), sid).1;
      && 2 <= |msgs| <= 1 + MaxHistory
      && msgs[0] == Message(System, SystemPrompt())
      && msgs[|msgs| - 1] == Message(User, query)
  {
    var recorded := Append(store, sid, User, query);
    var msgs := PrepareMessages(recorded, sid).1;
    assert msgs[|msgs| - 1] == msgs[1..][|msgs| - 2];
  }
}
