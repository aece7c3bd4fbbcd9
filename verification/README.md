# SecureGuard MCP: a Dafny model of the client router and the mock tools

SecureGuard MCP is a demonstration security-monitoring assistant. A web front end hands each user query to an `LLMClient`. The client records the query in a per-session conversation history capped at twenty messages. It then routes the query:

- a query whose stripped, lower-cased text starts with `tool:` is parsed into a tool name and `key=value` arguments and sent to an MCP server;
- any other query goes to a hosted language model, together with a system prompt and the session's history.

A tool result or a model reply comes back as a stream of chunks of at most 100 characters, ending with an empty chunk marked done. An error comes back as one chunk marked done that carries the whole message, whatever its length. When the language model is unavailable or fails, the error message carries a list of suggested direct tool calls, chosen from a keyword table. The MCP server answers from three in-memory tables: organizations, security cases and security signals.

The model is purely functional. The conversation store is a map from session id to message list. The MCP call (`ToolCaller`) and the chat completion (`Provider`) are function parameters. Every server tool takes its tables as parameters; the shipped demonstration rows are constants in `SecurityData`. A tool returns a new value and cannot change the tables it reads. In the source, the copies taken by `get_organization_details` and `list_cases` serve the same purpose (`server/mcp_server.py:129`, `server/mcp_server.py:173`).

Modules, one per file:

| module | what it holds |
|---|---|
| `Wrappers` | `Option` and `Result` |
| `Text` | Python string operations on `seq<char>`: `isspace`, `strip`, `lower`/`upper`, `split()`, `split(maxsplit=1)`, `in`, `join`, and `max` of strings |
| `Seqs` | list comprehensions as `Filter`/`Count`; dict counters as ordered tallies |
| `Conversation` | the history store, `_get_conversation_history`, `_add_to_conversation`, `clear_conversation` |
| `Streaming` | the 100-character chunker |
| `ToolCommand` | routing on `tool:` and the parser in `_handle_tool_query` |
| `Suggestions` | `_get_tool_suggestions` and the message that lists them |
| `Router` | `_prepare_messages`, both handlers and `process_query_streaming` |
| `SecurityData` | the server's three tables and their shipped rows |
| `SecurityTools` | the seven data tools of the server |

**Leading spaces before `tool:`.** Routing strips the query before testing for `tool:` (`client/llm_client.py:213`), so it ignores leading whitespace. The parser slices the raw, unstripped query at position 5 (`client/llm_client.py:224`), so the slice does not. A query such as `"  tool: x"` is therefore routed to the tool path, but the parser sees `"l: x"`: it calls a tool named `l:` with no arguments. `ToolCommand.LeadingSpaceShiftsPrefix` proves the code's behaviour, and `ToolCommand.SlicedPrefixIsToolPrefix` proves that the slice is exact when the query does not start with a space.

**Which three signals `get_case_details` returns.** A comment at `server/mcp_server.py:199` calls the three signals "last", but the code keeps the first three related signals in table order. The model keeps the first three.

## Model

| member | source | states |
|---|---|---|
| Conversation.GetHistory | client/llm_client.py:160-162 | returns the session's history (empty for a new session), registers the session, and changes no session's visible history |
| Conversation.Append | client/llm_client.py:164-171 | the new message is last. Below the cap the history grows by exactly that message. At the cap it keeps twenty messages, which are a suffix of old history plus the message. Other sessions are untouched and the cap is preserved |
| Conversation.Clear | client/llm_client.py:156-158 | the session is gone, whether or not it existed. Every other session keeps its history |
| Conversation.ClearIdempotent | client/llm_client.py:156-162 | clearing twice equals clearing once, and a later read of the session finds an empty history |
| Conversation.AppendIsLastN | client/llm_client.py:164-171 | one append leaves exactly the last twenty of old history plus the new message |
| Conversation.AppendAllKeepsMostRecent | client/llm_client.py:164-171 | any number of appends leave exactly the twenty most recent messages of old history plus the new messages, in order |
| Conversation.LastNOfConcat | client/llm_client.py:170-171 | trimming to the last twenty, then appending and trimming again, equals trimming once at the end |
| Text.StripIsSlice | client/llm_client.py:213 | `strip()` returns a contiguous slice of its input starting after the leading whitespace |
| Text.StripRemovesOnlySpace | client/llm_client.py:213 | everything `strip()` removes is whitespace |
| Text.Strip | client/llm_client.py:224-225 | the stripped text neither begins nor ends with whitespace |
| Text.TokensAreWords | client/llm_client.py:231 | `split()` yields only non-empty tokens without whitespace |
| Text.SplitFirstAgreesWithTokens | client/llm_client.py:224 | `split(maxsplit=1)` is empty exactly when `split()` is. Its head is the first token, and its tail splits into the remaining tokens |
| Text.SplitFirstOfStripped | client/llm_client.py:224-231 | on stripped text, the tool name and the stripped parameter string yield the same tokens as splitting the whole command |
| Text.IndexOf | client/llm_client.py:232-233 | finds the first occurrence of a character, and reports none exactly when the character is absent |
| Text.MaxString | server/mcp_server.py:140 | Python's `max` of a non-empty list of strings: returns a member that is not below any other in code-point order |
| Text.MaxStringOr | server/mcp_server.py:140 | `max(..., default=d)`: returns the default for an empty list, otherwise the greatest element |
| Text.LexLeTotal | server/mcp_server.py:140 | code-point string order is total, so `max` is well defined |
| Text.LexLeTransitive | server/mcp_server.py:140 | code-point string order is transitive |
| Text.JoinPlacesEach | client/llm_client.py:264 | `sep.join(xs)` contains each element at its computed offset, the separator itself sits right after every element but the last, and the joined string ends with the last element |
| Text.JoinLinesInFrame | client/llm_client.py:264 | with a prefix ending in a newline, `"\n".join(xs)` puts every element on a line of its own: a newline right before it, and right after it either the newline before the next element or, for the last one, the suffix |
| Streaming.DataChunks | client/llm_client.py:241-248 | the data chunks concatenate back to the text. There are ceil(n/100) of them, all but the last exactly 100 characters long and the last non-empty. All are of the stream's kind and none is done |
| Streaming.Chunks | client/llm_client.py:241-249 | the stream is well formed. It ends with one empty done chunk after the data chunks, and reassembles to the text. An empty text yields only the done chunk |
| Streaming.ConcatAppend | client/llm_client.py:242-244 | reassembling two streams in sequence equals concatenating their texts |
| Streaming.StreamText | client/llm_client.py:241-249 | the loop over `range(0, len, 100)` produces exactly the stream `Chunks` specifies |
| ToolCommand.Put | client/llm_client.py:234 | a dict store: the key now maps to the value, other keys are unchanged, keys stay distinct, and insertion order is kept |
| ToolCommand.KeyValue | client/llm_client.py:232-234 | a token binds a key exactly when it contains `=` |
| ToolCommand.KeyValueRebuildsToken | client/llm_client.py:233-234 | for a whitespace-free token, key + `=` + value rebuilds the token, and the key holds no `=` |
| ToolCommand.AssignKeepsLastBinding | client/llm_client.py:231-234 | the dict built from bindings lacks a key exactly when no binding names it, and otherwise holds the value of the last binding that names it |
| ToolCommand.ParamsKeepLastBinding | client/llm_client.py:229-234 | the same for parameter tokens: tokens without `=` are ignored, and a repeated key keeps its last value |
| ToolCommand.CommandText | client/llm_client.py:224 | the text after the slice, once stripped, neither begins nor ends with whitespace |
| ToolCommand.ParseCommand | client/llm_client.py:224-234 | fails with `list index out of range` exactly when the command is empty. Otherwise the tool name is the first token and the arguments come from the remaining tokens |
| ToolCommand.ParseToolCommand | client/llm_client.py:224-234 | fails with `list index out of range` exactly when nothing follows the five-character slice. Otherwise the tool name is the first token of the command and the arguments come from the remaining tokens |
| ToolCommand.ParsedArgsAreLastBindings | client/llm_client.py:226-234 | in a parsed command, each argument is absent exactly when no parameter token binds it, and otherwise carries the last binding's value |
| ToolCommand.CallConflict | client/llm_client.py:79-83 | reports a parsed key that collides with `call_tool`'s own parameters `self` or `tool_name`, namely the first such key in keyword-argument order, and reports none only when neither is bound |
| ToolCommand.RoutingSkipsLeadingSpace | client/llm_client.py:213 | `IsToolQuery`, the routing test, holds exactly when the lower-cased query spells `tool:` right after its leading whitespace. Letter case and trailing whitespace do not matter |
| ToolCommand.SlicedPrefixIsToolPrefix | client/llm_client.py:213-224 | for a routed query that does not start with whitespace, the five characters sliced off are `tool:` in some letter case |
| ToolCommand.LeadingSpaceShiftsPrefix | client/llm_client.py:213-224 | `"  tool: " + name` is routed to the tool path but parses as a call of tool `l:` with no arguments |
| ToolCommand.NoBindings | client/llm_client.py:231-232 | a token without `=` contributes no argument |
| Suggestions.FirstMatch | client/llm_client.py:196-202 | when no sub-rule matches, the result is the category default (or nothing). Otherwise it is the suggestion of the first matching sub-rule |
| Suggestions.Present | client/llm_client.py:193-206 | collects the suggestions of the matching rows, never more than there are rows. Each string occurs exactly as often as rows produced it, so duplicates are kept and not merged |
| Suggestions.SuggestFrom | client/llm_client.py:193-206 | a string is suggested exactly when some table row produces it for the query. It occurs once per row that produces it, so each row contributes at most one suggestion |
| Suggestions.SilentTable | client/llm_client.py:193-206 | when no row's keywords occur in the query, there are no suggestions |
| Suggestions.SuggestionsInTableOrder | client/llm_client.py:193-206 | suggestions appear in the order of the table rows that produced them |
| Suggestions.ToolSuggestions | client/llm_client.py:173-206 | on the lower-cased query, a suggestion is present exactly when a row of the five-row table produces it, once per producing row. So there are at most five, and a command two rows produce would be listed twice |
| Suggestions.NoKeywordNoSuggestion | client/llm_client.py:178-206 | a query containing none of the table's keywords gets no suggestion |
| Suggestions.StatusSuggestsSummaryThenHealth | client/llm_client.py:179-190 | a query mentioning `status` gets both the summary call and the health call, the summary first |
| Suggestions.CaseQueryDefaultsToListCases | client/llm_client.py:184-202 | a case query that mentions neither `active` nor `details`/`info` falls back to `tool: list_cases` |
| Suggestions.ActiveCasesWinOverDetails | client/llm_client.py:184-199 | in the case group, the `active` sub-rule is tried first and wins |
| Suggestions.OrganizationGroupWithoutRefinement | client/llm_client.py:180-202 | the organization group has no default, so without a list or details keyword it contributes nothing |
| Suggestions.WithSuggestions | client/llm_client.py:258-303 | with no suggestions the message is unchanged. Otherwise it starts with the message followed by the `Try these direct tool calls` header |
| Suggestions.SuggestionListed | client/llm_client.py:264 | every suggestion appears as its own bullet line at its computed position in the message: a newline right before the bullet, and right after the suggestion a newline, or the end of the message for the last one |
| Router.ToolLines | client/llm_client.py:307-311 | one `- name: description` line per tool, in the descriptions' order |
| Router.SystemPromptListsEveryTool | client/llm_client.py:307-321 | the system prompt contains every tool's description line at its computed position, on a line of its own: a newline right before it, and right after it the single newline before the next tool's line or, for the last tool, the closing text |
| Router.PromptPlacesEveryLine | client/llm_client.py:307-321 | for any list of tool lines, the prompt's fixed text around `"\n".join(lines)` puts each line on a line of its own, with a newline before it and the next line's newline or the closing text after it |
| Router.PrepareMessages | client/llm_client.py:305-325 | the messages are the system prompt followed by exactly the session's history. No visible history changes and the cap is kept |
| Router.ErrorStream | client/llm_client.py:251-256 | an error is a stream of exactly one chunk, of type `error` and marked done, that carries the whole message |
| Router.Execute | client/llm_client.py:236-256 | the stream is a tool response exactly when no argument collides and the call succeeds. It is then the 100-character chunking of the call's text, ending with an empty done chunk. A collision or a failed call yields an `Error executing tool:` stream |
| Router.HandleToolQuery | client/llm_client.py:220-256 | an empty command gives the `list index out of range` error stream. Anything else executes the parsed invocation |
| Router.BareToolPrefix | client/llm_client.py:213-256 | the bare query `tool:` is routed to the tool path and answered with the `list index out of range` error |
| Router.ToolCallReceivesParsedCommand | client/llm_client.py:224-249 | a successful tool response is the chunked text returned by a call whose tool name is the first token of the command and whose arguments are the last bindings of the remaining tokens |
| Router.HandleLlmQuery | client/llm_client.py:258-303 | without a provider: an error carrying the suggestions, and no history change. On provider failure: `LLM Error:` with the suggestions, and the history unchanged. On success: the reply is appended as the assistant's turn and streamed as its 100-character LLM-response chunks, ending with an empty done chunk. Other sessions are untouched and the cap is kept |
| Router.ProcessQuery | client/llm_client.py:208-218 | the user's turn is recorded first. A `tool:` query gets the tool handler's stream with no further history change, and any other query is handled by the LLM path on the updated store. The stream is well formed and other sessions are untouched |
| Router.StoreAfterQuery | client/llm_client.py:208-283 | a query adds only the user's turn unless the model answered, in which case the reply is appended after it |
| Router.HistoryAfterQuery | client/llm_client.py:164-283 | on every route, the session ends with the last twenty of its old history plus the user's turn, followed by the model's reply when there was one |
| Router.ModelSeesQueryLast | client/llm_client.py:305-325 | the model receives the system prompt first and the user's new query last, in at most twenty-one messages |
| SecurityData.ShippedNamesUnique | server/mcp_server.py:17-23 | the shipped organizations have distinct names, as dict keys must |
| SecurityTools.ListOrganizations | server/mcp_server.py:113-115 | returns one name per organization, in table order |
| SecurityTools.FindOrganization | server/mcp_server.py:126-129 | returns nothing exactly when no organization has the name. Otherwise it returns an organization of the table with that name |
| SecurityTools.FindOrganizationIsUnique | server/mcp_server.py:126-129 | with distinct names, a lookup returns the one organization that has the name |
| SecurityTools.GetOrganizationDetails | server/mcp_server.py:117-143 | returns `Organization '<name>' not found` exactly when the name is absent. Otherwise: the organization's own fields; the total count of its cases and, among those, the exact count of active ones (never above the total); the count of its signals; and its latest signal timestamp, or `N/A` |
| SecurityTools.LatestStamp | server/mcp_server.py:140 | the last-activity stamp is one of the organization's signal timestamps and not earlier than any of them |
| SecurityTools.FilterOrganizationsByType | server/mcp_server.py:145-161 | keeps exactly the organizations whose type equals the requested one ignoring letter case, in table order, with multiplicities preserved |
| SecurityTools.ListCases | server/mcp_server.py:163-175 | `all` returns every case. Any other status keeps exactly the cases with that status, in order, with multiplicities preserved |
| SecurityTools.FindCase | server/mcp_server.py:186-188 | returns nothing exactly when no case has the id. Otherwise it returns the first case with the id |
| SecurityTools.GetCaseDetails | server/mcp_server.py:177-201 | returns `Case '<id>' not found` exactly when the id is absent. Otherwise: the first case with that id; the number of related signals; and the first at most three related signals, all of them related |
| SecurityTools.ByOrg | server/mcp_server.py:215-216 | keeps exactly the signals of the organization, or all of them for `all`, in order |
| SecurityTools.ByType | server/mcp_server.py:218-219 | keeps exactly the signals whose type equals the requested one ignoring letter case, or all of them for `all`, in order |
| SecurityTools.ListSignals | server/mcp_server.py:203-221 | `all`/`all` returns every signal. Otherwise it keeps exactly the signals that pass both filters, in order, with multiplicities preserved |
| SecurityTools.RiskDistribution | server/mcp_server.py:239-243 | the tally has distinct keys, which are exactly the risk levels that occur. It counts each level's organizations, and its counts sum to the number of organizations |
| SecurityTools.RiskDistributionInFirstOccurrenceOrder | server/mcp_server.py:239-243 | the risk levels come in the order of the first organization having each, as the dict's insertion order keeps them |
| SecurityTools.StatusDistribution | server/mcp_server.py:245-249 | the tally has distinct keys, which are exactly the statuses that occur. It counts each status's cases, and its counts sum to the number of cases |
| SecurityTools.StatusDistributionInFirstOccurrenceOrder | server/mcp_server.py:245-249 | the statuses come in the order of the first case having each, as the dict's insertion order keeps them |
| SecurityTools.SecuritySummary | server/mcp_server.py:223-261 | the organization and signal totals are the table sizes. High-risk and active counts agree with the distributions, critical cases are counted by severity, and the distributions sum to the table sizes |
| SecurityTools.ListedOrganizationsResolve | server/mcp_server.py:113-143 | every listed name resolves to that organization's details |
| SecurityTools.ActiveCasesAreListed | server/mcp_server.py:163-175 | an organization's active-case count never exceeds the number of cases `list_cases(status="active")` returns |
| Seqs.Filter | server/mcp_server.py:132-133 | a list comprehension with a condition: every element kept passes it, an element is kept exactly when it is in the input and passes, and the result is never longer than the input |
| Seqs.FilterKeepsOrderAndCount | server/mcp_server.py:132-133 | a list comprehension with a condition keeps the order of its input. Each element occurs as often as in the input when it passes, and not at all otherwise |
| Seqs.FilterLength | server/mcp_server.py:231-234 | the length of a filtered list is the number of elements satisfying the condition |
| Seqs.Bump | server/mcp_server.py:240-249 | `d[k] = d.get(k, 0) + 1` raises only `k`'s count, by one, and the total by one. Keys stay distinct, and the keys present are the old ones plus `k` |
| Seqs.BumpKeepsPositions | server/mcp_server.py:243 | bumping never moves a key: every key already present keeps its position |
| Seqs.BumpAppendsNewKey | server/mcp_server.py:243 | a key seen for the first time is appended at the end with count 1 |
| Seqs.BumpKeepsLength | server/mcp_server.py:243 | a key already present is bumped in place, so the dict does not grow |
| Seqs.TallyOf | server/mcp_server.py:239-249 | counting a list of keys yields a tally whose counts are the keys' multiplicities and whose keys are exactly those occurring |
| Seqs.TallyInFirstOccurrenceOrder | server/mcp_server.py:239-249 | the tally's keys come in the order of their first occurrence in the counted list, as a dict keeps insertion order |

## Left out

- The MCP transport (`SecureGuardMCPClient`, sessions, `list_tools`, `_extract_content`) and the JSON serialisation of results are replaced by the `ToolCaller` parameter. `call_tool` turns its own failures into an `{"error": ...}` result, which the client streams as a normal tool response. In the model, a `Failure` from `ToolCaller` stands for an exception escaping the call.
- The Groq client, its model name, temperature and token limit are replaced by the `Provider` parameter. A missing provider models a client without an API key.
- Router.HandleLlmQuery: a reply whose content is `None` is not modelled. The provider always returns a string.
- Python's `lower`, `upper` and `isspace` are modelled as ASCII letter case mapping and the `str.isspace` code points. Case mappings outside ASCII are not modelled; some of them change length (`ß` upper-cases to `SS`, `İ` lower-cases to two characters).
- Async generators are modelled as the finished list of chunks they yield. Concurrency between sessions is not modelled.
- SecurityTools.SecuritySummary: does not model the `last_updated` clock reading or the hard-coded `top_affected_orgs` list. That list is a constant which does not agree with the shipped case table: it credits OrgD and OrgA with one active case each, while neither has one.
- `health`, `get_available_tools`, `create_mcp_server`, `print_startup_info` and the command-line entry point are not modelled. They wire up I/O and return constant data.
- The web layer in `client/app.py` is not modelled. It strips the query and rejects an empty one before the client sees it (`client/app.py:87-89`); the client model accepts any string.
- Logging is not modelled.
