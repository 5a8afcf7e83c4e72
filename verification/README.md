# Two small LLM agents, modelled in Dafny

This project models the decision logic of the two agent programs of the
`gemmalocalllm` repository as pure functions, and proves what their loops
promise.

**The single-shot tool agent** is `experimemt/main.go`. It has a tool
registry (`AddTool`) and three tools:
- `calculator`, with its argument checks and zero-divisor guard;
- `web_search`, a mock;
- `chris_tanti`, with fixed replies.

The agent builds a prompt (`GetToolsPrompt`, `GeneratePrompt`) and runs
`Agent.Run`:
- a request that names "chris tanti" goes straight to that tool;
- otherwise the agent makes at most five model calls;
- each response is read as a final answer, as a tool call, or as neither;
- a tool call is the first match of `(?s)\{ "name": ".*?" \}`, which is then decoded and looked up;
- a response with no match, a span that does not decode, or a tool name that is not registered ends the run with an error;
- a tool's result or error is appended to the history as an observation.

The model endpoint, the JSON decoder and the order in which Go's runtime
iterates the registry map are parameters (`Agent.Env`).

**The interactive chat agent** is the loop in `main.go`. The conversation
opens with one system message. For each line the user types:
- "exit" or "quit" ends the loop;
- otherwise the line is appended and the whole conversation is sent to the chat endpoint;
- the streamed reply is stripped of a "```json" fence and white space;
- if it decodes to a structured response with actions, a numbered menu is offered, and the next input line picks an action;
- the raw reply is appended as the assistant's message, unless the call failed.

The chat endpoint and the JSON decoder are parameters (`ChatLoop.ChatEnv`).

Modules:
- `Wrappers`: `Option` and `Result`.
- `Strings`: the Go `strings` functions used.
- `Decimal`: `strconv.Atoi` and `%.2f`.
- `GoFmt`: `%v` of a `map[string]string`.
- `AgentTools`, `Prompt`, `ActionRegex`, `Agent`: the single-shot agent.
- `ChatLoop`, `ChatRepl`: the chat agent. The loop is generic in how a turn is made; `ChatRepl` plugs in the program's own turn and system message.

## Model

| member | source | states |
|---|---|---|
| Strings.FindFrom | experimemt/main.go:170-171 | the scan finds the first occurrence at or after the start position, and finds none only when there is none |
| Strings.ContainsIffFound | experimemt/main.go:135 | `strings.Contains` holds exactly when the left-to-right scan finds an occurrence |
| Strings.TrimPrefix | experimemt/main.go:163 | with the prefix present, prefix plus result is the input; without it, the input is returned unchanged |
| Strings.TrimSuffix | main.go:135 | with the suffix present, result plus suffix is the input; without it, the input is returned unchanged |
| Strings.TrimSpace | main.go:137 | the result is a slice of the input with only white space cut at each end and no white space left at either end; it is empty exactly when the input is all white space |
| Strings.TrimSpaceOfTrimmed | main.go:137 | a string with no white space at either end is its own trim |
| Strings.TrimSpaceSkipsLeadingSpace | experimemt/main.go:163 | a leading white-space character never survives the trim |
| Strings.ToLower | experimemt/main.go:135 | the length is kept; 'A'..'Z' become 'a'..'z' and every other character is kept |
| Decimal.Atoi | main.go:152 | a digit string, bare or after one `+` or `-`, parses to its decimal value (negated after `-`) exactly when that value fits in Go's 64-bit `int`, and is rejected when it does not; every other string is rejected |
| Decimal.NatToStringRoundTrip | main.go:152 | a decimal numeral parses back to its number, with or without a `+` and negated after a `-` |
| Decimal.RoundHalfEven | experimemt/main.go:291 | the rounding is at most one half away from the value, and a tie goes to the even neighbour |
| Decimal.FormatFixed2 | experimemt/main.go:291 | the text is an optional '-' (exactly for a negative value), a digit string without leading zeros (a lone "0" aside), '.' and two digits, which read together as the value's hundredfold rounded half to even |
| Decimal.FormatCents | experimemt/main.go:291 | a cent count is shown as its whole part without leading zeros, '.', and its two-digit remainder, after a '-' exactly when negative |
| Decimal.FormatFixed2Whole | experimemt/main.go:291 | `%.2f` of a whole number is its numeral followed by ".00" |
| GoFmt.SortedKeys | experimemt/main.go:98 | the map's keys in ascending string order, each exactly once |
| GoFmt.FormatStringMap | experimemt/main.go:98 | `%v` of the argument map is framed by "map[" and "]" and shows every entry as `key:value` |
| AgentTools.AddTool | experimemt/main.go:87-89 | the registry gains exactly the tool's name, which maps to the tool; every other entry is unchanged; entries stay filed under their own names |
| AgentTools.Calculate | experimemt/main.go:262-290 | errors come in the source's order: missing operation, then num1, then num2, then division by zero, then an unsupported operation; it succeeds exactly when all three arguments are present, the operation is one of the four, and it is not a division by zero; a success is the sum, difference or product, or the quotient `q` with `q * num2 == num1` |
| AgentTools.CalculatorAddsTwoAndThree | experimemt/main.go:276-291 | adding 2 and 3 yields the text "5.00" |
| AgentTools.CalculatorRefusesZeroDivisor | experimemt/main.go:283-286 | dividing any number by zero is the "division by zero" error |
| AgentTools.RunCalculator | experimemt/main.go:261-292 | the tool fails exactly when the calculation fails, with that error's message; otherwise its text is the result formatted by `%.2f` |
| AgentTools.RunWebSearch | experimemt/main.go:301-308 | the tool fails exactly when the query is missing or not a string, with the message "missing 'query' argument"; otherwise its text starts with "Search results for '", the query and "'" |
| AgentTools.RunChrisTanti | experimemt/main.go:316-325 | the tool fails exactly when the query is missing or not a string; a present query returns the facts exactly when its lower-cased form contains "chris tanti", and the fixed refusal otherwise |
| AgentTools.DefaultRegistry | experimemt/main.go:257-326 | the program's registry holds exactly calculator, web_search and chris_tanti, each under its own name |
| Prompt.GetToolsPrompt | experimemt/main.go:92-101 | the tool list starts with its header and has a "Name: " line for every tool visited |
| Prompt.GeneratePrompt | experimemt/main.go:104-124 | the prompt starts with the preamble and the tool header, names every listed tool, and ends with the instructions, the history and the user's line |
| Prompt.PromptCarriesRequestHistoryAndTools | experimemt/main.go:92-123 | for any order of visiting the registry, the prompt ends with "User: " and the request, contains the history, and has a "Name: " line for every registered tool |
| Prompt.PromptCarriesEarlierHistory | experimemt/main.go:151 | a prompt built on any extension of a history still contains that history |
| ActionRegex.FindAction | experimemt/main.go:170-174 | a reported span matches the pattern; among all matches it starts leftmost and is the shortest (the lazy `.*?`); no span is reported exactly when nothing matches |
| ActionRegex.ActionText | experimemt/main.go:178 | the matched text starts with `{ "name": "` and ends with `" }` |
| ActionRegex.MatchStopsAtFirstCloser | experimemt/main.go:170 | between the opener and the end of the match there is no other `" }` |
| ActionRegex.PrescribedFormatIsCutShort | experimemt/main.go:170-171 | a response in the call format the prompt prescribes is matched from its start, but at least two characters short of its end |
| ActionRegex.WebSearchCallIsTruncated | experimemt/main.go:170-178 | the prescribed web_search call with one argument is matched, but the matched text is not the whole call |
| Agent.StepFailure | experimemt/main.go:172-187 | a missing action becomes the no-action error, a decoder failure the decode error with the decoder's message, and an unregistered name the unknown-tool error with that name, and nothing else maps to each |
| Agent.ErrorText | experimemt/main.go:173-204 | the decode error's text is "failed to unmarshal tool invocation JSON: " followed by the decoder's message, and the unknown-tool error's text is "unknown tool: " followed by the name |
| Agent.ErrorTextIdentifiesDetail | experimemt/main.go:181-186 | two decode or unknown-tool errors with the same text are the same error |
| Agent.Interpret | experimemt/main.go:162-174 | a final answer exactly when the response starts with "Final Answer:", and the answer is the trimmed remainder; otherwise a tool call exactly when the pattern matches, and its text is the matched span; otherwise neither |
| Agent.FinalAnswerPayload | experimemt/main.go:162-163 | "Final Answer: " followed by an already trimmed text yields exactly that text |
| Agent.ObservationEntry | experimemt/main.go:191-198 | the entry is "\nObservation: " followed by the tool's result, or by "Tool execution failed with error: " and the error |
| Agent.Step | experimemt/main.go:162-198 | a step finishes exactly on the marker; aborts with no action exactly when nothing matches; aborts with the decoder's error, or with an unknown tool whose name is not registered; and otherwise observes the looked-up tool's outcome on the decoded arguments |
| Agent.TurnOf | experimemt/main.go:154-198 | a failed model call stops with that call's error; otherwise a finishing step stops with its answer, a rejected step stops with the matching run error, and an observing step goes on with that observation, and only it does |
| Agent.Drive | experimemt/main.go:149-204 | the loop makes at most five iterations, and it leaves no stopping prompt exactly when it fails with the step-bound error |
| Agent.DriveBounds | experimemt/main.go:149-204 | the loop makes at most five iterations; it fails with the step-bound error exactly when no iteration stopped it, and then all five called a tool |
| Agent.DriveHistory | experimemt/main.go:164-201 | the final history is the starting one, then every observation in order, then the answer entry if there is an answer |
| Agent.DrivePrompt | experimemt/main.go:151 | the `k`-th tool-calling iteration's prompt is built on the history with the first `k` observations |
| Agent.DriveObservation | experimemt/main.go:154-198 | each recorded observation is what the model's reply to that iteration's prompt led to |
| Agent.DriveLast | experimemt/main.go:151-187 | the prompt that stopped the loop carries every observation, and the reply to it led to the run's outcome |
| Agent.Shortcut | experimemt/main.go:135-146 | no model call is made and the history is unchanged; the outcome is the chris_tanti tool's result or error, or a nil-function failure when no such tool is registered |
| Agent.Run | experimemt/main.go:127-205 | the history only grows: it is the old history, then the observations, then the answer entry; at most five tool steps; the step-bound error exactly when five tool steps ran and nothing stopped the loop; the shortcut leaves everything untouched |
| Agent.RunIsDrive | experimemt/main.go:134-149 | a request without the trigger phrase runs the bounded loop from its first iteration |
| Agent.RunPrompt | experimemt/main.go:151 | the prompt of the `k`-th tool step uses the `k`-th listing of the registry and the history with the first `k` observations |
| Agent.RunObservation | experimemt/main.go:154-198 | the observation of the `k`-th tool step is what the model's `k`-th reply led to |
| Agent.RunLast | experimemt/main.go:149-187 | unless the step bound ended it, the run's last prompt carries every observation, and the reply to it ended the run with the run's outcome |
| Agent.ShortcutAnswersFacts | experimemt/main.go:135-146 | with the program's registry, a request naming "chris tanti" returns the fixed facts with no model call and an unchanged history |
| Agent.PromptOfRunText | experimemt/main.go:104-124 | a prompt of the run names every registered tool, carries the history the run started from, and ends with the request |
| Agent.EveryPromptIsOfRun | experimemt/main.go:149-151 | every prompt the run sends lists the whole registry, extends the starting history, and carries the request |
| Agent.FinalReplyStops | experimemt/main.go:162-166 | a reply starting with "Final Answer:" ends the run with the trimmed remainder |
| Agent.DriveStopsFirst | experimemt/main.go:149-166 | a first iteration that stops ends the loop with nothing appended but the closing entry |
| Agent.FirstFinalAnswerEndsRun | experimemt/main.go:162-166 | a first reply with the marker makes the run return the trimmed remainder after one call, and the history gains exactly "\nAssistant: " and the answer |
| Agent.NoActionEndsRunUnextended | experimemt/main.go:162-173 | the run fails with the no-action error exactly when its last reply has neither the marker nor a match, and then the history holds only the observations before it |
| Agent.UnknownToolEndsRunUnextended | experimemt/main.go:170-187 | the run fails with the unknown-tool error naming a tool exactly when its last reply is a matched, decoded call of that unregistered tool, and then no observation is appended for it |
| Agent.MaxStepsMeansFiveToolSteps | experimemt/main.go:149-204 | the step-bound error means five model calls, each answered by a tool call whose observation was appended, and nothing else in the history |
| Agent.ToolStepAppendsOneObservation | experimemt/main.go:191-201 | each tool step extends the history by exactly its observation, which starts "\nObservation: ", and the history before it is a prefix of the history after it |
| Agent.StepExtendsHistory | experimemt/main.go:194-197 | the history after `k + 1` steps is the history after `k` steps followed by the `k`-th observation |
| Agent.NextIsObservation | experimemt/main.go:191-198 | whatever lets the loop go on is an observation entry |
| ChatLoop.Unfenced | main.go:133-136 | a reply without the leading "```json" fence is kept whole; otherwise the fence is removed and, when the rest ends with "```", exactly that one trailing fence too |
| ChatLoop.CleanResponse | main.go:132-137 | the cleaned text is a piece of the reply with no white space at either end; a reply without the leading fence is only trimmed |
| ChatLoop.CleanFencedReply | main.go:133-137 | a reply fenced on both sides cleans to the trimmed text between the fences |
| ChatLoop.CleanRemovesOneFence | main.go:135 | only one trailing fence is removed: a doubled one leaves one in place |
| ChatLoop.CleanOpenFence | main.go:133-137 | a leading fence without a trailing one is removed on its own |
| ChatLoop.CleanPlainTrimmed | main.go:132-137 | a reply without the fence and without surrounding white space reaches the decoder unchanged |
| ChatLoop.Choose | main.go:149-166 | an empty line does nothing, and only an empty line does; an accepted line parses to a number from 1 to the number of actions and selects that action |
| ChatLoop.ChooseExecutesIff | main.go:151-154 | a line runs an action exactly when it parses to a number from 1 to the number of actions |
| ChatLoop.ChooseByNumber | main.go:152-154 | an action's number selects that action, with or without a `+` sign; 0 and every number past the last action are invalid |
| ChatLoop.ExitAtMenuIsInvalid | main.go:149-165 | "exit" or "quit" typed at the menu is an invalid choice, not a way out |
| ChatLoop.FullResponse | main.go:115-120 | every streamed chunk occurs in the collected reply, and no chunks collect to the empty reply |
| ChatLoop.FullResponseSnoc | main.go:115-120 | a chunk arriving last is appended after everything collected so far |
| ChatLoop.MenuOf | main.go:140-150 | a menu is shown exactly when the cleaned reply decodes and has actions, and its choice is the next input line, or none when the input ended |
| ChatLoop.TurnLinesSplit | main.go:84-87 | the lines after a turn's own line are its menu choice, if it read one, and then the lines it left unread |
| ChatLoop.LoopMessages | main.go:82-177 | the conversation only grows: each turn's messages follow the earlier ones, and nothing else is added or removed |
| ChatLoop.LoopLines | main.go:82-150 | the turns read the input lines in order, and the lines they did not read are left unread |
| ChatLoop.Loop | main.go:82-177 | at most one turn per input line; the loop ends when the input runs out or at an exit command, which is left unread |
| ChatLoop.LoopMade | main.go:82-128 | every turn was made from a line other than an exit command, on the conversation as it stood |
| ChatLoop.NextTurn | main.go:96-150 | the turn records its line and the menu's choice line, and its chat call is sent the conversation with the user's line last |
| ChatLoop.NextTurnFollows | main.go:140-166 | the turn's menu is shown exactly when its reply decodes to actions, with that reply's text, actions and choice |
| ChatLoop.ConversationHasNoSystemMessage | main.go:96-99 | turns add only user and assistant messages |
| ChatLoop.ConversationUpTo | main.go:96-176 | the messages of the first `j + 1` turns are those of the first `j`, then the `j`-th turn's |
| ChatLoop.LoopSession | main.go:82-177 | from any starting conversation: it is followed by the turns' messages and by no system message; the turns read the lines in order; the loop stops at the end of the input or at an exit command |
| ChatLoop.LoopTurn | main.go:96-176 | the `j`-th chat call is sent the conversation so far with the user's line last; the turn follows from its reply; it adds that line and, unless the call failed, the raw reply |
| ChatRepl.InitialMessages | main.go:57-74 | the conversation starts with exactly one message, a system message |
| ChatRepl.Repl | main.go:57-177 | the session's conversation starts with the system message, and there is at most one turn per input line |
| ChatRepl.ExitFirstKeepsConversation | main.go:90-93 | an exit command as the first line ends the session with the conversation untouched |
| ChatRepl.ReplConversation | main.go:57-177 | the session's conversation is the system message and then the turns' user and assistant messages, with no other system message; the lines are read in order; the session ends at the end of the input or at an exit command |
| ChatRepl.ReplTurn | main.go:96-176 | the `j`-th chat call is sent the system message, the earlier turns' messages and the user's line; a failed call adds only the user message, and a successful one adds the raw concatenated reply after it |

## Left out

- `CallOllama` (experimemt/main.go:208-245) and `client.Chat` (main.go:122) are HTTP calls. They are replaced by the oracles `Env.model` and `ChatEnv.chat`, which take the call index and the prompt or conversation. A fixed sequence of answers is the special case that ignores the prompt.
- `GetConversationHistory` and `SaveConversationHistory` are file I/O. `Agent.Run` takes the history the store returned. `RunResult.history` is what the store holds at the end. Save errors are discarded by the source, so every save is modelled as succeeding. A failing read, which ends `Run` before anything else happens, is not modelled.
- `json.Unmarshal` is a foreign library call. It is the parameter `Env.decode` (span to tool invocation) or `ChatEnv.unmarshal` (cleaned reply to structured response), and it may fail with a message.
- Go's map iteration order in `GetToolsPrompt` is randomised. It is the parameter `Env.toolOrder`, one listing per model call; the prompt lemmas require only that each listing visits every registered tool once. No claim about tool order in the prompt is made.
- The calculator's `float64` arithmetic is modelled with exact reals. `%.2f` is modelled as round-half-even of the exact value. Rounding and overflow of binary floating point are not modelled.
- `strings.ToLower` is modelled on ASCII letters only; other Unicode case mappings are left out. `TrimSpace` uses Go's full white-space set. Strings are sequences of code points, not UTF-8 bytes.
- A missing `chris_tanti` tool makes the shortcut call a nil function, which panics in the source. The model turns this into the run error `MissingShortcutTool`, with the runtime's message; the panic itself is not modelled.
- Running the chosen command (`exec.Command("bash", "-c", ...)`, main.go:156-162) is process execution. Only which action is selected is modelled.
- Reading lines (`bufio.Scanner`) is the input sequence. A menu choice read after the input ended is "", as `scanner.Text()` gives after a failed scan.
- GoFmt.FormatStringMap: states that every entry shows as `key:value` between "map[" and "]", not the ascending key order or the single spaces between entries. The order is stated for `GoFmt.SortedKeys`, and the text only appears in the printed tool list.
- Agent.ErrorText: the fixed texts of the no-action and step-bound errors are not stated in the contract, only those of the errors that carry a message or a name.
- ChatLoop.ChooseByNumber: the acceptance direction is stated only for numbers up to `math.MaxInt64`, since larger numerals do not parse in Go's `strconv.Atoi`.
- Logging, printing and the welcome text are left out, as is the wording of the mock `web_search` result after the quoted query. The process entry points (`main` of the single-shot agent, command-line argument joining) are left out too.
- train.py is a fine-tuning script driven by external ML libraries, with no loop logic to model.
- The regular expression is modelled as written, not as the JSON object it was meant to find. The call format the prompt prescribes is cut short by it (`ActionRegex.WebSearchCallIsTruncated`), so decoding such a span is up to the decoder parameter.
