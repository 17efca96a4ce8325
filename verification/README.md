# Verification model of the M365 Copilot gateway

The gateway turns the Microsoft 365 Copilot ChatHub into OpenAI- and Anthropic-compatible APIs. This
project models the parts of it that carry state from step to step, and proves what they keep over
whole runs. Each module is a specification on values (a step function and its run), the lemmas about
all runs, and the loops or the class with the source's own fields, proved against that specification.

| module | what it models |
|---|---|
| `StreamHold` | the streaming callback of `/v1/chat/completions` with its eight-rune hold-back |
| `StreamDelay` | what has been sent at any moment of a stream |
| `StreamReading` | what the client has read when a streamed answer is over |
| `SnapshotMerge`, `FinalText` | the merge of ChatHub snapshots and cursor tokens, and the choice of the final text |
| `Pipeline` | the two together, from ChatHub frames to what the client reads |
| `ToolConversation` | the validator of the tool protocol |
| `ResponsesTranslation`, `AnthropicTranslation` | the two request translators that feed the validator |
| `ResponseHistory` | the conversations chained by `previous_response_id` |
| `AgentLedger`, `CompactResult`, `AgentLoop` | the evidence ledger, result compaction, the repeated-call filter and the turn bound |
| `ToolCallStream` | streamed tool calls: the chunk writer and the Responses reader |
| `FencedTools`, `RecoveredTools` | tool calls recovered from text: `tool_call` fences against their printed form, then named fences, shell fences and JSON lines |
| `JsonSchema` | the recursive argument validator |
| `LoginLimiter` | the administrator login limiter |
| `ProxyPool` | the outbound proxy pool |
| `Text`, `Bytes`, `Protocol` | strings as runes, strings as bytes, JSON values and messages |

Text is a sequence of runes except where the source counts bytes (`CompactResult`, the overlap ratio).
Regular expressions, `fmt.Sprint`, `strings.ToLower`, the JSON codec, hashes and random ids are
parameters; a lemma that needs more of them (an id that is new, a codec that reads back what it wrote)
says so in its `requires`. Clock readings are parameters too.

## What the code does where it differs from what one expects

For each of these a lemma gives inputs on which it happens. Where the text says "exactly", the
condition is proved both ways.

- A stale snapshot of at most eight runes is taken for a cursor token and appended again, exactly
  unless the text happens to end with it (`StaleSnapshotIgnoredExactly`,
  `ShortStaleSnapshotIsAppended`).
- When a tool event comes with a streamed answer, the last eight runes of the answer are never sent,
  even if nothing in it is a call (`ToolEventLosesTail`, `TextThenEvent`); the client reads the whole
  text exactly when no tool event came and nothing was recovered (`ClientReadsUpstream`).
- In a Responses input every `function_call` becomes its own assistant message, so two calls with no
  output between them are refused wherever they stand, also when both are answered later
  (`AcceptedResponsesInput`, `ParallelCallsRefused`, `AnsweredParallelCalls`).
- A tool result that is only white space leaves its call pending, so the next turn is refused although
  the validator accepted the conversation; the turn goes on exactly when no answer in it is blank and
  calls are left (`AcceptedLedger`, `ContinueExactly`, `BlankExactly`, `BlankResultRefuses`).
- The router drops candidates that were completed in earlier turns, but not equal candidates of one
  turn (`EqualCallsIssued`, `EqualCallsRun`); calls are repeated exactly when one batch repeats them
  (`NoCallRepeated`), so never with one call per turn (`OneCallPerTurn`).
- A shell fence becomes a `bash` call although the request allows no such tool (`ShellFenceIsCalled`,
  `ShellIsNotRead`). Only allowed tools are called exactly when `bash` is one of them
  (`OnlyAllowedExactly`).
- A named fence asks the tool choice for the name of the fence, and then calls the tool named in its
  body (`InnerNameIsCalled`); a JSON line calls `bash` without asking at all (`CommandLineIsCalled`).
  The tool choice is obeyed exactly when it admits everything that can be called unasked
  (`ChoiceObeyedExactly`).
- Fenced arguments come back as the object that is left over exactly when they are `null`
  (`CallReadBack`).
- A streamed function call is announced to the client under one item id and finished under another, so
  the first item never ends (`StreamedIdNeverEnds`).
- Eight failed logins fit into fifteen minutes although five lock the address (`EightIsReached`), and
  none is counted when the table is full (`FullTableDoesNotCount`, `FloodHidesFailures`); a failure is
  entered exactly when the address is known or there is room after the purge (`EnteredExactly`).
- A cooling proxy is handed out exactly when every proxy is cooling down (`CoolingOnlyWhenAll`), hence
  the condition of `BackoffIsKept`.
- The removal of a proxy can cost another one its turn in the round (`RemovalDelays`); one more round
  for each removal makes up for it (`ReadyEntryIsServed`).

## Model

| member | source | states |
|---|---|---|
| `StreamDelay.SentPlusPendingIsReceived` | internal/web/server.go:967-1004 | For every chunking, what was sent followed by what waits is all the text received; only the first chunk carries the role and none is empty. |
| `StreamDelay.NeverSendsIntoMarker` | internal/web/server.go:976-1003 | However the stream goes on, what has been sent ends before any fence or `"command"` of the whole text, also when the marker arrives in pieces. |
| `StreamDelay.SilentAfterMarker` | internal/web/server.go:979-988 | After the event that completes a marker nothing more is sent until the stream ends. |
| `StreamDelay.HoldBackIsChunkingIndependent` | internal/web/server.go:989-1003 | While there is no marker, exactly the received text minus its last min(8, n) runes has been sent, whatever the chunk boundaries. |
| `StreamDelay.SentBounds` | internal/web/server.go:967-1004 | At every moment the last marker-free text minus eight runes has been sent, and nothing from the first marker on. |
| `StreamReading.PlainAnswerDeliveredOnce` | internal/web/server.go:1008-1027 | A stream that ends without tool calls delivers the whole text exactly once, also when it only came with the final result. |
| `StreamReading.ClientReadsExactly` | internal/web/server.go:950-1027 | For every event sequence and every parser: the client is sent the whole text if and only if there are no calls (or no text), otherwise nothing from the first marker on, and all but the last eight runes of a text without one. |
| `StreamReading.RecoveredCallsStayHidden` | internal/web/server.go:1014-1023 | For a recovery that only finds calls in text with a marker, as the whole of `fencedToolCalls` does by `RecoveredTools.RecoveredNeedsMarker`, an answer that ends in recovered calls has shown none of the text from the first marker on. |
| `StreamHold.StreamCallback.EmitText` | internal/web/server.go:954-966 | Sends a non-empty part as one chunk, with the role on the first one only. |
| `StreamHold.StreamCallback.OnEvent` | internal/web/server.go:967-1004 | Updates text, pending text, tools and chunks as the step of the specification. |
| `StreamHold.StreamCallback.Complete` | internal/web/server.go:1008-1027 | Recovers a final text, decides for calls or flushes what waits, as the final step of the specification. |
| `StreamReading.StreamAnswer` | internal/web/server.go:950-1027 | A whole answer: all of the text once without calls, otherwise a prefix that stops before the first marker. |
| `SnapshotMerge.MergeOfPlain` | internal/chathub/client.go:93-146 | On citation-free text a frame extends the text, is ignored, or is appended, and exactly when. |
| `SnapshotMerge.StaleSnapshotIgnoredExactly` | internal/chathub/client.go:125-141 | A snapshot of an earlier state is ignored if and only if it is longer than eight runes or the text ends with it. |
| `SnapshotMerge.ShortStaleSnapshotIsAppended` | internal/chathub/client.go:140-143 | An input on which a stale short snapshot doubles text. |
| `SnapshotMerge.LongFrameExactly` | internal/chathub/client.go:107-146 | A frame longer than eight runes is taken over when it extends the text and changes nothing otherwise. |
| `SnapshotMerge.MergeOfCleaned` | internal/chathub/client.go:93-146 | With citations: where cleaning again changes nothing, the merge is the same three-way choice made on the cleaned frame. |
| `SnapshotMerge.CaughtUpByCleanText` | internal/chathub/client.go:107-124 | When the streamed text still holds a citation, a frame whose cleaned form extends the cleaned text adds exactly what is missing from it. |
| `SnapshotMerge.SnapshotsConverge` | internal/chathub/client.go:93-146 | Snapshots of one text, in any order and with repeats, converge to the longest one seen. |
| `SnapshotMerge.CursorAppliedExactly` | internal/chathub/client.go:93-143 | A cursor token is appended if and only if the stream is empty, or it has at most eight runes, the text does not end with it, and it neither extends nor restates the text; once more than eight runes are streamed, the first two are enough. |
| `SnapshotMerge.FrameExactly` | internal/chathub/client.go:93-146 | A snapshot or token is merged as ChatHub means it if and only if the snapshot extends the text or the token is such a one. |
| `SnapshotMerge.MixedTraceFollowsUpstream` | internal/chathub/client.go:93-146 | On every mixed trace of such snapshots and tokens, from the start of the stream on, the merged text equals the upstream text. |
| `SnapshotMerge.EveryFrameFollowsUpstream` | internal/chathub/client.go:93-146 | On citation-free runs the two are equal after every single frame if and only if the run is such a trace. |
| `SnapshotMerge.FramesExactly` | internal/chathub/client.go:464-497 | The texts of an update that are merged: the cursor text, unless it is empty or a message shows progress, search results, code or a tool call, and then the text of every untyped bot message, in order. |
| `SnapshotMerge.ChatStream.EmitDelta` | internal/chathub/client.go:376-389 | Appends the cleaned delta to the text and passes it on; what was passed on joins to the text. |
| `SnapshotMerge.ChatStream.EmitSnapshot` | internal/chathub/client.go:391-400 | One frame of the loop is one merge. |
| `SnapshotMerge.ChatStream.Receive` | internal/chathub/client.go:464-497 | One update merges its cursor text, unless a message of a tool comes with it, and then its bot snapshots in order. |
| `SnapshotMerge.ChatStream.ReceiveAll` | internal/chathub/client.go:407-500 | Over all updates the deltas passed on join to the merged text and earlier deltas stay. |
| `Pipeline.ClientReadsUpstream` | internal/chathub/client.go:294-301 | End to end, over any mix of snapshots, tokens and other events, with the whole of `fencedToolCalls` as recovery: the client reads the upstream text, or the final result when nothing was streamed, whole and once if and only if no tool event came and nothing is recovered from it; otherwise nothing from the first marker on, and all but the last eight runes where there is none. |
| `Pipeline.ToolEventLosesTail` | internal/web/server.go:967-971 | With a tool event anywhere in the stream, a text without markers is read without its last eight runes. |
| `Pipeline.TextThenEvent` | internal/chathub/client.go:433-496 | One snapshot followed by one tool event is such a stream. |
| `Pipeline.ShellIsNotRead` | internal/web/server.go:1014-1023 | An upstream text that is one shell fence becomes a call, and the client reads none of it. |
| `Pipeline.Relay` | internal/chathub/client.go:407-500 | Merge loop, event hand-over and callback together keep these promises for any signals and any recovery parser, and end with the calls of the tool events or else of the parser. |
| `FinalText.OverlapRange` | internal/chathub/client.go:185-210 | The overlap lies in [0, 1] and is 1 exactly when every sampled piece of the shorter text (the first one where they are equally long) occurs in the other. |
| `FinalText.SampledExactly` | internal/chathub/client.go:190-205 | What is sampled: every byte of a signature of fewer than four bytes, and otherwise the pairs of bytes one after the other. |
| `FinalText.OverlapOfPart` | internal/chathub/client.go:185-210 | A signature that occurs in the other one overlaps completely. |
| `FinalText.OverlapRatio` | internal/chathub/client.go:185-210 | The sampling loop computes that fraction. |
| `FinalText.ReconcileChoosesWell` | internal/chathub/client.go:152-183 | The result is one of the two cleaned texts, empty only if both are, the longer of two that agree, and at least three quarters of the streamed one. |
| `FinalText.ReconcileExactly` | internal/chathub/client.go:170-183 | Where neither text continues the other and both have something to compare: the final one is taken if and only if its signature contains the streamed one and it has three quarters of its runes, or at least seven in ten sampled pieces occur and it is longer. |
| `FinalText.ReconcileElsewhere` | internal/chathub/client.go:152-173 | Everywhere else the final text is taken if and only if it continues the streamed one. |
| `FinalText.UnrelatedIsNotTaken` | internal/chathub/client.go:175-183 | A final text without a sampled piece in common that does not contain the streamed one is not taken, however long. |
| `FinalText.OverlapReached` | internal/chathub/client.go:185-210 | The ratio reaches 0.7 if and only if at least seven in ten sampled pieces occur. |
| `FinalText.FinalTextReconcile` | internal/chathub/client.go:152-183 | The chain of tests gives that choice. |
| `ToolConversation.ValidIffWellFormed` | internal/web/tool_state.go:8-44 | The validator accepts if and only if all call ids are non-empty and distinct, no result precedes the first assistant message, and the results after each assistant message are a permutation of its calls. |
| `ToolConversation.CheckExactly` | internal/web/tool_state.go:11-35 | The same from any state in the middle of a conversation. |
| `ToolConversation.CheckTracksCalls` | internal/web/tool_state.go:9-35 | Pending and completed ids together are always the ids of the calls so far. |
| `ToolConversation.ValidateToolConversation` | internal/web/tool_state.go:8-44 | The loop over both sets accepts exactly the well-formed conversations and reports the first error of the automaton. |
| `ResponsesTranslation.ProgressIsInvisible` | internal/web/protocol_compat.go:52-59 | Valid progress items can stand anywhere without changing the translation, and an invalid one is the only item that is refused. |
| `ResponsesTranslation.EveryItemIsSaid` | internal/web/protocol_compat.go:45-96 | Item by item, in order: an output becomes a tool message with its `call_id` and `output`; a call becomes one call with its id, kind and name, and the value of its arguments encoded once (decoded first when they are a JSON string, the object with `input` for a custom call); any other object keeps its role and content, by default the user and the item itself. |
| `ResponsesTranslation.RequestIsSaid` | internal/web/protocol_compat.go:29-132 | A whole request: refused exactly for its input, and otherwise the policy, the instructions and then the text or the items. |
| `ResponsesTranslation.AcceptedResponsesInput` | internal/web/protocol_compat.go:44-96 | The translated input passes the validator if and only if it is a series of call and output pairs with distinct non-empty ids and assistant messages only between pairs. |
| `ResponsesTranslation.ParallelCallsRefused` | internal/web/protocol_compat.go:66-83 | The translation of an input with two calls, anywhere, and neither an output nor an assistant message between them never passes the validator. |
| `ResponsesTranslation.AnsweredParallelCalls` | internal/web/protocol_compat.go:60-83 | Two parallel calls that are both answered afterwards: an input that is translated and refused. |
| `ResponsesTranslation.ResponsesToOpenAI` | internal/web/protocol_compat.go:29-132 | The loops produce the translation and refuse exactly empty text, bad progress and input of another type; the policy comes first when there is a custom `exec` tool, then the trimmed instructions, then one message for each item as `EveryItemIsSaid` describes it. |
| `AnthropicTranslation.CallsAndResultsPreserved` | internal/web/protocol_compat.go:153-206 | The calls and the tool messages of the translation are those that the blocks of the turns give, in order, none lost or doubled. |
| `AnthropicTranslation.EveryBlockIsSaid` | internal/web/protocol_compat.go:171-200 | Block by block: the j-th `tool_use` block gives the j-th call with its id, its name and its input encoded, the j-th `tool_result` block the j-th tool message with its `tool_use_id` and content, and text and base64 image blocks are shown in order, an image as a data url with its media type. |
| `AnthropicTranslation.EveryTurnIsSaid` | internal/web/protocol_compat.go:158-206 | Turn by turn: the results first, then at most one message with the role of the turn, its text and its calls; refused exactly when some content is neither text nor a list. |
| `AnthropicTranslation.CallsAreTheBlocks` | internal/web/protocol_compat.go:158-206 | Over all turns the j-th call is the j-th `tool_use` block, with arguments that decode to its input where the codec is faithful, and, where no turn has the role of a tool, the j-th tool message the j-th `tool_result` block. |
| `AnthropicTranslation.AcceptedAnthropicTurns` | internal/web/protocol_compat.go:153-206 | The translation passes the validator if and only if no tool turn speaks, no result precedes the first round, the uses of every round are answered exactly once before the next one opens, and all use ids are distinct and non-empty. |
| `AnthropicTranslation.AnsweredTurnsAccepted` | internal/web/protocol_compat.go:153-206 | Uses with distinct non-empty ids that are each answered once before the next assistant turn give an accepted conversation. |
| `AnthropicTranslation.SplitBlocks` | internal/web/protocol_compat.go:166-200 | The block loop separates results, text and calls, each in order and saying what its blocks say. |
| `AnthropicTranslation.AnthropicToOpenAI` | internal/web/protocol_compat.go:153-206 | The message loop puts the system message in front and then says every turn, refuses exactly content that is neither text nor a list, and gives an accepted conversation under the condition above. |
| `ResponseHistory.EntriesNeverChange` | internal/web/protocol_handlers.go:284-302 | A stored history is never changed or removed by later turns. |
| `ResponseHistory.TurnIsStored` | internal/web/protocol_handlers.go:276-304 | A stored turn leaves the earlier history, its request and one assistant message with the calls, or with the text where there are none; any other turn changes nothing. |
| `ResponseHistory.StatusExactly` | internal/web/protocol_handlers.go:241-283 | A turn is stored if and only if its predecessor is known, the conversation is valid and the reply has calls or visible text, and it fails exactly at the first of these that does not hold. |
| `ResponseHistory.StoredIsTranscript` | internal/web/protocol_handlers.go:241-304 | Each stored history is exactly the requests and replies of its chain of predecessors, in order. |
| `ResponseHistory.StoredIsWaiting` | internal/web/protocol_handlers.go:276-303 | After any stored history the validator's pending set is exactly the call ids of the last reply. |
| `ResponseHistory.FollowUpAccepted` | internal/web/protocol_handlers.go:241-250 | A follow-up is accepted if and only if it first answers exactly those calls, and the rest of it is well formed and reuses no id. |
| `ResponseHistory.AnsweringTheLastReply` | internal/web/protocol_handlers.go:241-304 | Along any chain, answering the calls of the last reply is accepted. |
| `ResponseHistory.FollowUpInputAccepted` | internal/web/protocol_handlers.go:236-250 | A translated Responses input after a stored history is accepted if and only if it begins with the outputs of exactly the awaited calls and goes on as an acceptable input that reuses no id. |
| `ResponseHistory.OutputsAreAccepted` | internal/web/protocol_handlers.go:236-304 | End to end: along any chain, output items for the calls of the last reply are translated and accepted. |
| `ResponseHistory.ResponseStore.Respond` | internal/web/protocol_handlers.go:226-306 | One turn: the status it ends with, the new store, and that all older entries are untouched. |
| `CompactResult.CompactBounded` | internal/web/agent_ledger.go:34-48 | For every Go-sized result the compacted one has at most max(limit, 200) bytes. |
| `CompactResult.KeepsHeadAndTail` | internal/web/agent_ledger.go:42-47 | With L = max(limit, 200) the result is the first L / 3 bytes, a note that counts the dropped bytes, and the last max(L - L / 3 - 80, 80) bytes, without overlap. |
| `CompactResult.NoteTells` | internal/web/agent_ledger.go:47 | The note is the fixed text around a number that reads back as the number of dropped bytes. |
| `CompactResult.DecimalReads` | internal/web/agent_ledger.go:47 | The number in the note reads back as the number of dropped bytes. |
| `CompactResult.CompactIdempotent` | internal/web/agent_ledger.go:34-48 | Compacting twice is compacting once. |
| `CompactResult.CompactBlank` | internal/web/agent_ledger.go:34-48 | Only a blank result compacts to nothing. |
| `AgentLedger.OneResultPerCall` | internal/web/agent_ledger.go:53-77 | In an accepted conversation the result ids are a permutation of the call ids. |
| `AgentLedger.AcceptedLedger` | internal/web/agent_ledger.go:53-104 | On accepted conversations completed and pending partition the calls in call order, every call has an answering tool message, its result is that message's compacted content, and it is pending if and only if that message is blank. |
| `AgentLedger.ActiveLedgerIsSuffix` | internal/web/agent_ledger.go:178-189 | The lists of the active turn are suffixes of the full ledger's, also when the user speaks between a call and its result. |
| `AgentLedger.ContinueExactly` | internal/web/agent_ledger.go:154-165 | An accepted request may go on if and only if its current turn has fewer calls than the rounds (32 when not set) and no tool message that answers one of the turn's calls is blank. |
| `AgentLedger.BlankResultRefuses` | internal/web/agent_ledger.go:89-90 | A conversation that the validator accepts and that is refused because its one result is blank. |
| `AgentLedger.BlankExactly` | internal/web/agent_ledger.go:35 | The compacted bytes of a result are empty if and only if every rune of its text is white space. |
| `Bytes.TrimByRune` | internal/web/agent_ledger.go:35 | Trimming the UTF-8 bytes of a text is trimming its runes: the byte patterns and the runes agree on white space. |
| `AgentLedger.ResultBounded` | internal/web/agent_ledger.go:71 | A result takes at most 4000 bytes in the ledger. |
| `AgentLedger.ContentExactly` | internal/web/server.go:753-772 | Text stays text, a list gives the joined texts of its text parts in order, and anything else is printed. |
| `AgentLedger.Admit` | internal/web/server.go:823-836 | Validation, ledger of the active turn and limit together: refused by the validator, refused for the limit or for blank results, or admitted, and exactly when. |
| `AgentLedger.ActiveMessages` | internal/web/agent_ledger.go:178-189 | The scan for the last user message. |
| `AgentLedger.BuildAgentLedger` | internal/web/agent_ledger.go:53-104 | The map, the order list and the two counting maps give the ledger, which for usable ids is one piece of evidence per call. |
| `AgentLedger.RepeatedCallExactly` | internal/web/agent_ledger.go:82-88 | The flag for repeated calls is set if and only if two calls have the same name and arguments (without the zero separator in them). |
| `AgentLedger.RepeatedFailureExactly` | internal/web/agent_ledger.go:93-99 | The flag for repeated failures is set if and only if two failed results of the same name and arguments have the same normalised failure. |
| `AgentLoop.LimitedBatch` | internal/web/settings.go:327-366 | The limit keeps the first calls of a batch, at most the configured number and at least one; it keeps several only if every name has a reading word and no word for a change, and then as many as are configured. |
| `AgentLoop.IssueLimits` | internal/web/server.go:912-929 | The streaming router issues such a batch of candidates that were not completed. |
| `AgentLoop.UnfinishedExactly` | internal/web/agent_ledger.go:136-153 | The filter keeps exactly the calls without a completed call of the same name and canonical arguments. |
| `AgentLoop.CanonicalExactly` | internal/web/agent_ledger.go:126-134 | Canonical arguments are equal if and only if both are JSON for the same value, or neither is JSON and the trimmed texts are equal. |
| `AgentLoop.DroppedExactly` | internal/web/agent_ledger.go:136-153 | A candidate is dropped if and only if a completed call has the same name and the same JSON value, or the same text where it is not JSON; the others are kept in order. |
| `AgentLoop.OtherArgumentsKept` | internal/web/agent_ledger.go:136-153 | A call of the same tool with other arguments is kept. |
| `AgentLoop.FilterCompletedCalls` | internal/web/agent_ledger.go:145-153 | The filter in place in the same array keeps exactly those candidates in their order. |
| `AgentLoop.CallsPerUserTurn` | internal/web/server.go:827-836 | Over every run within one user turn, whatever path issued the batches as long as each went through the limit, the calls never exceed the rounds minus one plus one batch. |
| `AgentLoop.FreshTurnBound` | internal/web/server.go:827-836 | A conversation that ends with the user's message starts at no calls, so the bound holds for all calls of that turn. |
| `AgentLoop.NoCallRepeated` | internal/web/server.go:899-933 | Over every run of router turns whose results are not blank, no name comes twice with the same canonical arguments if and only if none does within one batch. |
| `AgentLoop.NoSameCallTwice` | internal/web/server.go:899-933 | The same by meaning, for a codec that reads back what it has read: no call comes twice with the same name and the same JSON value or text if and only if none does within one batch. |
| `AgentLoop.OneCallPerTurn` | internal/web/settings.go:327-330 | With at most one call per turn configured, none comes twice. |
| `AgentLoop.EqualCallsIssued` | internal/web/agent_ledger.go:145-153 | Two equal candidates for a tool that looks read-only are both issued when two calls per turn are configured. |
| `AgentLoop.EqualCallsRun` | internal/web/server.go:899-933 | A run of one such turn. |
| `AgentLoop.CompletedOnce` | internal/web/agent_ledger.go:136-153 | The completed list after such a run has no two entries for one call if no batch repeats one, and, once every call is answered, only if. |
| `ToolCallStream.WriteToolResponse` | internal/web/tool_response.go:76-104 | The chunk sequence: the summary unless already sent, one chunk per call, the finish. |
| `ToolCallStream.WrittenExactly` | internal/web/tool_response.go:76-104 | What each chunk holds: the summary, one complete call at each position with the kind `function` by default, and only in the last chunk that the answer ends in tool calls. |
| `ToolCallStream.FragmentsAddUp` | internal/web/protocol_handlers.go:103-137 | However calls are cut into chunks, each index accumulates the last id, the joined names and arguments and the first kind of its fragments. |
| `ToolCallStream.WrittenIsReadBack` | internal/web/protocol_handlers.go:73-190 | What the writer wrote is read back in order with the same ids, names, kinds and arguments, or the `input` of a custom call. |
| `ToolCallStream.InputExactly` | internal/web/codex_responses.go:95-105 | The input of a custom call is the `input` text of its JSON arguments, or empty. |
| `ToolCallStream.NothingWrittenIsLost` | internal/web/tool_response.go:97-103 | The writer's indices are 0, 1, 2 and so on, so the reader outputs one item for every call that the gateway writes. |
| `ToolCallStream.NothingLostExactly` | internal/web/protocol_handlers.go:168-173 | Of the reader alone, for streams from elsewhere too: it has one item for each index if and only if the indices have no gap. |
| `ToolCallStream.GapLosesCall` | internal/web/protocol_handlers.go:168-173 | The reader would output nothing for a lone call at index 1, which the writer never writes. |
| `ToolCallStream.DeltasAddUp` | internal/web/protocol_handlers.go:126-190 | For every item id of a function call, while it streams and when it is closed, the argument deltas join to the final arguments. |
| `ToolCallStream.TextAddsUp` | internal/web/protocol_handlers.go:95-102 | The text deltas join to the contents of the chunks, and without calls the message item holds that text. |
| `ToolCallStream.EventsComeInOrder` | internal/web/protocol_handlers.go:95-200 | For any chunks: no event about an item or the message comes before the event that adds it at the same position under the same id. |
| `ToolCallStream.EveryItemEnds` | internal/web/protocol_handlers.go:168-200 | Every finished item ends exactly once, at its position, in order and with exactly its payload; without calls the message ends with the whole text. |
| `ToolCallStream.StreamedIdNeverEnds` | internal/web/protocol_handlers.go:116-188 | The id under which a function call is announced while it streams is never finished; the item ends under another id. |
| `ToolCallStream.AdaptStream` | internal/web/protocol_handlers.go:73-200 | The reader's loops produce that state, and fail exactly for a stream with neither calls nor visible text. |
| `FencedTools.BodiesRecovered` | internal/web/fenced_tools.go:24-29 | Exactly the printed fences are found, in order, with their bodies up to outer white space. |
| `FencedTools.CallReadBack` | internal/web/fenced_tools.go:30-55 | A printed call is read back with the same name and arguments if and only if the arguments are not null. |
| `FencedTools.FencesRoundTrip` | internal/web/fenced_tools.go:24-58 | Allowed calls printed as fences between prose without a tag are recovered with the same names and arguments, in the same order, numbered from 0. |
| `FencedTools.EncodedBody` | internal/chathub/tool_protocol.go:39-41 | What a codec writes for the printed object, if it reads it back, is such a printed body. |
| `FencedTools.CallsAreAllowed` | internal/web/fenced_tools.go:34-36 | Whatever the text, the unified-fence step calls only tools that the request and its tool choice allow. |
| `FencedTools.MatchFrontExactly` | internal/web/fenced_tools.go:11 | The scan finds a `tool_call` fence at a position if and only if the pattern matches there, and it finds the match that the pattern prefers: the longest gap, then the shortest body. |
| `FencedTools.BodiesScan` | internal/web/fenced_tools.go:24-29 | The first position with a match gives the first body and the scan goes on behind it; without one there is none. |
| `FencedTools.NumberedExactly` | internal/web/fenced_tools.go:53-54 | Every call that was found becomes one call, in order, with the next number in its id. |
| `FencedTools.CallInExactly` | internal/web/fenced_tools.go:30-55 | A body asks for a call if and only if it is JSON for an object whose first usable name is an allowed tool that the choice admits. |
| `FencedTools.FirstStringExactly` | internal/web/fenced_tools.go:141-149 | The first of the keys whose value is text that is not blank decides, and gives the trimmed text. |
| `FencedTools.ArgumentsExactly` | internal/web/fenced_tools.go:38-52 | The arguments are `arguments`, or else `args`, or else the object without its names. |
| `FencedTools.ChoiceExactly` | internal/web/toolloop.go:42-59 | "none" admits no tool, any other word every named tool, an object that names a function or tool that one alone, and anything else every tool. |
| `RecoveredTools.RecoveredNeedsMarker` | internal/web/fenced_tools.go:20-139 | Text that any step of the recovery turns into a call holds a fence or a quoted "command". |
| `RecoveredTools.MatchNamedExactly` | internal/web/fenced_tools.go:10 | The scan finds a named fence at a position if and only if the pattern matches there, and it finds the preferred match. |
| `RecoveredTools.NamedScan` | internal/web/fenced_tools.go:61-62 | The first position with a match gives the first fence and the scan goes on behind it; without one there is none. |
| `RecoveredTools.ShellFenceExactly` | internal/web/fenced_tools.go:70-88 | A shell fence that is not an allowed tool asks for `bash` with the command, timeout and directory of its JSON object, or with its whole text where it is not JSON, and for nothing when it is JSON without a command. |
| `RecoveredTools.ToolFenceExactly` | internal/web/fenced_tools.go:90-110 | Any other fence asks for something if and only if its name is allowed and admitted and its body is JSON that is not null: for the allowed tool that the body names with the arguments it carries, or else for its own tool with the whole body. |
| `RecoveredTools.LineExactly` | internal/web/fenced_tools.go:112-136 | A line that starts with a brace asks for `bash` if and only if its text up to the last closing brace is JSON for an object with a command. |
| `RecoveredTools.BareScan` | internal/web/fenced_tools.go:112-136 | The first position that starts such a line decides; without one there is no call. |
| `RecoveredTools.NameCharExactly` | internal/web/fenced_tools.go:10 | A fence name is made of the letters, the digits, `_` and `-`. |
| `RecoveredTools.UnifiedExactly` | internal/web/fenced_tools.go:64-66 | A fence is a unified one if and only if its name in lower case is `tool_call`. |
| `RecoveredTools.PrintedIsRecovered` | internal/web/fenced_tools.go:20-60 | Allowed calls printed as fences between prose come back from the whole recovery, in order. |
| `RecoveredTools.RecoveredNames` | internal/web/fenced_tools.go:66-135 | Whatever the text and the step, a recovered call is for an allowed tool or for `bash`. |
| `RecoveredTools.OnlyAllowedExactly` | internal/web/fenced_tools.go:20-139 | Only allowed tools are called, whatever the text, if and only if `bash` is allowed. |
| `RecoveredTools.RecoveredAsked` | internal/web/fenced_tools.go:66-135 | A recovered call obeys the tool choice, or is for `bash`, or for an allowed tool when a fence name is admitted. |
| `RecoveredTools.InnerNameIsCalled` | internal/web/fenced_tools.go:93-110 | A fence that the choice admits calls the allowed tool named in its body, whether the choice admits that or not. |
| `RecoveredTools.CommandLineIsCalled` | internal/web/fenced_tools.go:112-138 | A line of JSON with a command is one `bash` call with its command, timeout and directory, whatever is allowed and chosen. |
| `RecoveredTools.ChoiceObeyedExactly` | internal/web/fenced_tools.go:20-139 | Every recovered call obeys the tool choice, whatever the text, if and only if the choice admits `bash` and, as soon as it admits one nameable tool, every allowed one. |
| `RecoveredTools.ShellFenceIsCalled` | internal/web/fenced_tools.go:72-92 | A shell fence without JSON, for a shell that is not allowed, becomes exactly one `bash` call with the command. |
| `RecoveredTools.CallsAreNeverShown` | internal/web/server.go:1014-1023 | A streamed answer that turns out to hold calls of any form has shown at most the text before the first marker. |
| `RecoveredTools.FencedToolCalls` | internal/web/fenced_tools.go:20-139 | The three scans in turn, each only when those before it found nothing. |
| `FencedTools.UnifiedFences` | internal/web/fenced_tools.go:24-58 | The scan and the loop over the matches produce these calls. |
| `JsonSchema.AcceptsExactly` | internal/web/tooldecision.go:27-107 | A value is accepted if and only if every pair reached by descending into value and schema together passes its own enum, type, required and closedness checks. |
| `JsonSchema.LevelExactly` | internal/web/tooldecision.go:27-107 | One level of the recursion is the local checks and the same verdict one step below. |
| `JsonSchema.TypeExactly` | internal/web/tooldecision.go:83-105 | Each simple type admits exactly its values, `integer` the numbers without a fraction; an unknown type admits everything. |
| `JsonSchema.VerdictIgnoresOrder` | internal/web/tooldecision.go:56-69 | The verdict does not depend on the order in which map keys are visited. |
| `JsonSchema.EnumByValue` | internal/web/tooldecision.go:28-41 | Comparing encodings decides membership of the value, where the codec reads back the value and the enum's entries. |
| `JsonSchema.AcceptedArguments` | internal/web/tooldecision.go:9-25 | The schema is that of the first tool with the call's name, and accepted arguments have every required name, no foreign name in a closed schema, and conforming properties. |
| `LoginLimiter.AtMostEightFailures` | internal/web/admin_security.go:89-126 | In every run, from any table without the address, in which the address neither logs in nor meets a full table, at most eight of its failures lie in any half-open fifteen minutes. |
| `LoginLimiter.AtMostEightAfterLogin` | internal/web/server.go:174-194 | The same anew after each login of the address. |
| `LoginLimiter.EightIsReached` | internal/web/admin_security.go:89-126 | A run that meets these conditions and has eight. |
| `LoginLimiter.LockLasts` | internal/web/admin_security.go:93-95 | A lock refuses its address for its whole time, whatever other addresses do. |
| `LoginLimiter.FifthFailureLocks` | internal/web/admin_security.go:121-124 | The failure that reaches five locks for fifteen minutes from that failure. |
| `LoginLimiter.OutcomeExactly` | internal/web/server.go:174-194 | A locked address is refused whatever the password; any other attempt is decided by the password alone, and the right one forgets the failures of its address and no other. |
| `LoginLimiter.PurgeIsInvisible` | internal/web/admin_security.go:107-112 | The purge loses nothing: for every address, whether it is locked and what its next failure leads to are the same with and without it, then and later. |
| `LoginLimiter.TableBounded` | internal/web/admin_security.go:102-117 | Over every run the table has at most 4096 entries. |
| `LoginLimiter.EnteredExactly` | internal/web/admin_security.go:107-117 | A failure is entered if and only if the address is known or there is room after the purge. |
| `LoginLimiter.FullTableDoesNotCount` | internal/web/admin_security.go:107-117 | Any number of failures goes uncounted while the table stays full, so the bound needs its condition. |
| `LoginLimiter.FloodHidesFailures` | internal/web/admin_security.go:104-117 | A run from the empty table that fills it, after which failures of one more address go uncounted. |
| `LoginLimiter.Limiter.LoginAllowed` | internal/web/admin_security.go:89-100 | The verdict and the table after the check. |
| `LoginLimiter.Limiter.RecordLoginFailure` | internal/web/admin_security.go:104-126 | The purge loop and the new entry. |
| `LoginLimiter.Limiter.ClearLoginFailures` | internal/web/admin_security.go:127-131 | Forgets the address and nothing else. |
| `LoginLimiter.Limiter.AdminLogin` | internal/web/server.go:174-194 | Check, then record or clear: one step of the run, which keeps the table bounded. |
| `ProxyPool.ReadyEntryIsServed` | internal/outbound/pool.go:46-64 | An entry that stays out of cooldown and in the pool is handed out within as many picks as the pool has entries, and one round more for each removal of another entry in between. |
| `ProxyPool.RemovalDelays` | internal/outbound/pool.go:133-142 | A run of three picks and one removal in which a ready entry of three is not handed out. |
| `ProxyPool.RoundServesEachOnce` | internal/outbound/pool.go:46-64 | With nothing cooling, and also with everything cooling, one round of picks hands out every entry exactly once, in order from the cursor. |
| `ProxyPool.CoolingIsSkipped` | internal/outbound/pool.go:53-60 | While some entry is ready, no cooling one is handed out. |
| `ProxyPool.CoolingOnlyWhenAll` | internal/outbound/pool.go:53-63 | A cooling entry is handed out if and only if every entry is cooling. |
| `ProxyPool.MarkedExactly` | internal/outbound/pool.go:65-84 | A failure adds one and cools for min(2k, 120) seconds, a success forgets all failures and cools at no time, and a report about another proxy changes nothing. |
| `ProxyPool.FailuresInARow` | internal/outbound/pool.go:68-82 | After k failures in a row the entry cools until min(2k, 120) seconds after the last one. |
| `ProxyPool.BackoffIsKept` | internal/outbound/pool.go:46-84 | Until then it is not handed out while some entry is ready, whatever else is picked, marked or removed. |
| `ProxyPool.RunKeepsDistinct` | internal/outbound/pool.go:133-145 | Picks, marks and removals keep the entries distinct. |
| `ProxyPool.ListedExactly` | internal/outbound/pool.go:30-45 | A new pool holds each non-empty url once. |
| `ProxyPool.NewPool` | internal/outbound/pool.go:30-45 | The constructor's loop builds that pool or reports an unusable url, and exactly when. |
| `ProxyPool.Pool.PickEntry` | internal/outbound/pool.go:46-64 | The scan returns the entry of the specification, never outside the list, and moves the cursor only. |
| `ProxyPool.Pool.MarkEntry` | internal/outbound/pool.go:65-84 | Updates the failures and the cooldown of the entry with the url, to those values, and of no other. |
| `ProxyPool.Pool.RemoveEntry` | internal/outbound/pool.go:133-145 | Takes out that entry and keeps the order of the others. |

## Left out

- SnapshotMerge.ChatStream.Receive: does not model how an update's messages are classified as tool or progress events; the events themselves are the signals of Pipeline.
- SnapshotMerge.ChatStream.ReceiveAll: covers the texts of update frames; pings, result frames and the deadline are not modelled.
- FencedTools.CallsAreAllowed: is about the unified-fence step only; the shell and JSON-line steps call `bash` without asking the allowed list or the tool choice (RecoveredTools.RecoveredNames).
- StreamHold.StreamCallback.Complete: returns the calls before the per-turn limit is put on them (AgentLoop.LimitedBatch).
- AnthropicTranslation.AnthropicToOpenAI: does not model the tool list and the conversion of the tool choice.
- ProxyPool.FailuresInARow: does not model the 64-bit overflow of the backoff product, which needs more than four billion failures in a row.
- FinalText.OverlapRatio: does not model the rounding of the floating-point quotient; it is a real number here.
- AgentLedger.BuildAgentLedger: does not model the signature text that is kept of a repeated call or failure, only the two flags.
- ToolCallStream.AdaptStream: does not model a failing inner request, an over-long stream line or the created, completed and message-done envelope events, and writes the n-th random item id as the number n.
- LoginLimiter.Limiter.LoginAllowed: does not model the waiting time that is reported to a locked address.
- ResponsesTranslation.ResponsesToOpenAI: does not model the translation of the tool list beyond the test for a custom `exec`, and stands for the fixed policy text by a short constant.
- ResponseHistory.ResponseStore.Respond: covers turns that are not streamed; streamed Responses turns store nothing, and usage estimates are not modelled.
- ToolConversation.ValidateToolConversation: errors carry the message index and the id, not their wording.
- JsonSchema.AcceptsExactly: errors carry a path and the names, not their wording; keywords outside the explicit-type subset are ignored by the code and by the model alike.
- CleanM365Citations on text that holds a citation marker: its regular expressions are the parameter `strip`, and the lemmas about merging are for citation-free text.
- The ordering of JSON object keys and the case-insensitive key matching of Go's struct decoding (the `input` of a custom call) belong to the codec parameter.
- The non-streaming router path of `/v1/chat/completions`, which filters repeated calls only on its retry, and the keyword heuristics of `completionEvidenceAllows`.
- The Anthropic and Responses response writers, the MCP queue and client, the account store, settings tables, uploads, OAuth, WebSocket and HTTP traffic, files and logging: input and output plumbing.
- Goroutine interleaving inside a locked operation: each locked operation, and each login attempt, is one step.
