# Verification of the coding agent's core

A Dafny model of the parts of the agent whose correctness spans many steps or
many functions, with proofs about all inputs, all schedules and all runs.
`dafny verify dfyconfig.toml` checks the whole project.

| part | modules |
|---|---|
| ACP outbound writes: producers, prioritising writer, closer, request admission | `AcpWriter`, `AcpSafety`, `AcpOutcomes`, `AcpProgress`, `AcpDispatch` |
| Newline framing under partial writes, and live text cut at character boundaries | `Utf8`, `Framing`, `LiveText` |
| From a persisted history to a prompt | `Transcript`, `Persisted`, `TextOps`, `CanceledBranches`, `Prompt`, `PromptPairing`, `PromptDelivery`, `PromptContent` |
| Rewriting passes before a request, and pruning of old tool results | `Merge`, `ToolIds`, `Redacted`, `Media`, `PrepareStep`, `Prune`, `PruneBudget` |
| The step engine: stream events, tool executor, step loops | `StepContent`, `StepStream`, `ToolExecutor`, `StepPrompts`, `StepLoop`, `GenerateLoop`, `StepFeedback` |
| One whole turn, from history to every prompt sent | `AgentTurn` |
| JSON text: printer, reader, insertion-ordered objects | `JsonText`, `JsonReader`, `OrderedObject` |
| JSON values: pointer edits, null normalisation, argument checking, schema rewriting | `JsonTree`, `Pointers`, `PointerEdits`, `NullNormalization`, `NullEffects`, `NullEdits`, `ToolArguments`, `SchemaNormalize`, `SchemaMeaning`, `SchemaPreserved` |
| Message and steering queues, and prompts that join a running turn | `Queue`, `JoinRun` |

How to read it. A loop of the program is a method with invariants; its contract
equates the result with a specification function, and the laws are lemmas about
that function. Beside the laws of what each part keeps stand its full effects,
told without that function (`AcpOutcomes`, `PromptContent`, `StepFeedback`,
`NullEffects`, `PruneBudget`, `Merge.RunMerged`, `JoinRun.FateIff`). Concurrent
parts (`AcpWriter`, `AcpDispatch`, `ToolExecutor`) are step systems: one step is
one atomic action, and results are about every state reachable by any list of
steps. The transcript contract, `WellPaired`, is
defined neighbour by neighbour and proved equal to its statement in words
(`Transcript.WellPairedIsContract`). Its two scopes are all calls, which is
what the prompt assembly promises, and the calls the provider did not execute
itself, which is what the step engine can promise.

Properties that turned out not to hold as one would state them, each with a
concrete input and the condition under which it does hold, which is exact
except where it is called sufficient:

- Assembled prompts are well paired unless an assistant turn that makes calls
  begins with the retry notice: its text makes the turn disappear while its
  answers are still sent (`PromptPairing.PairedIffNoHiddenCalls`,
  `PromptPairing.PairingCanFail`). Counting the client's calls only, a call the
  provider executed breaks pairing as well, because it is answered again
  (`PromptPairing.PairedIffMatched`, `PromptPairing.ProviderCallAnswered`).
- Frames survive the line transport exactly when they are valid UTF-8: the
  write side does not check it, the read side does
  (`Framing.RoundTripIffValidUtf8`, `Framing.RoundTripCanFail`).
- A step with its own system prompt overwrites the first message, whatever it
  is, and where the prompt still shares its memory with the first one, later
  steps keep the overwritten message. A prompt stays well paired exactly when
  the system prompt that stands in it fits the call
  (`StepPrompts.StepPromptPaired`, `StepLoop.PromptsPaired`,
  `StepPrompts.OverwriteOutlivesStep`).
- In the non-streaming loop a tool that breaks leaves the calls of the last
  step unanswered, and the error is not reported; client results that a
  response brings along break pairing too. What a run returns is well paired
  exactly when every step answered its calls
  (`GenerateLoop.GenerateResultPaired`, `GenerateLoop.StepPairedIff`,
  `GenerateLoop.BrokenToolUnanswered`, `GenerateLoop.StrayResultUnpaired`).
- Schema normalisation drops an `anyOf` that stands beside a list of types
  (`SchemaPreserved.SchemaMeans`, `SchemaPreserved.AnyOfCanBeLost`); it rewrites
  data, so that a constant keeps its meaning exactly when nothing in it looks
  like a schema to rewrite (`SchemaPreserved.ConstantKeptIff`,
  `SchemaPreserved.DataCanChange`); the `items` it adds take the elements away
  from an `unevaluatedItems` at the same node or further up. It is sufficient
  that no `items` are added to a node whose evaluated elements are asked
  about, as in every document without bare array types and without "array" in a
  list of types (`SchemaPreserved.MeaningKept`, `SchemaPreserved.CleanEitherWay`);
  for the keyword beside a bare array type the condition is exact value by value
  (`SchemaPreserved.LeftoverKeptIff`), and two schemas show the loss
  (`SchemaPreserved.LeftoverCanBeLost`, `SchemaPreserved.LeftoverCanBeLostBeside`).
  The rewriting is idempotent exactly when no list of types holds a list
  (`SchemaNormalize.NormalizeTwice`, `SchemaNormalize.SecondPassCanChange`).
- Sanitised call ids collide exactly when the ids are as long and differ only in
  characters that become underscores (`ToolIds.SafeIdsCollideIff`,
  `ToolIds.SafeIdsCanCollide`); pairing survives it. Pointers name one location
  exactly when they take the same steps, and an index has several spellings
  (`Pointers.PointersCoincideIff`, `Pointers.PointersCanCoincide`).
- Queued calls that a running turn puts back come back in reverse; distinct ones
  keep their order exactly when at most one is put back
  (`JoinRun.RequeueReverses`, `JoinRun.OrderKeptIff`, `JoinRun.OrderCanBeLost`).

## Model

| member | source | states |
|---|---|---|
| `AcpSafety.ReachableInv` | internal/acp/server.go:149-192 | every state any schedule of producers, writer and closers can reach satisfies the joint invariant: books, order, wake-ups, verdicts, acks, priority |
| `AcpSafety.StepKeepsInv` | internal/acp/server.go:275-433 | one atomic step of any producer, of the writer, of a closer or of the environment keeps that invariant |
| `AcpSafety.BytesConserved` | internal/acp/server.go:611-632 | in every reachable state a class counter equals the bytes queued, reserved by producers and just taken by the writer, and stays within 8 MiB |
| `AcpSafety.BudgetReturned` | internal/acp/server.go:626-632 | with an empty channel and nobody in mid-step the whole budget is free again |
| `AcpSafety.DecidedOnce` | internal/acp/server.go:265-273 | the writer decides each request at most once |
| `AcpSafety.AckIsTruthful` | internal/acp/server.go:149-192 | a synchronous write returns success only if the writer wrote exactly that frame, once |
| `AcpSafety.DecidedInOrder` | internal/acp/server.go:227-263 | the requests of a class are decided in the order they were enqueued |
| `AcpSafety.FlushCovers` | internal/acp/server.go:382-412 | when a flush returns success, every critical request enqueued before it was written, was itself a flush, or was skipped because its own context was cancelled |
| `AcpSafety.AsyncYields` | internal/acp/server.go:227-263 | a best-effort frame is taken only if both priority queues were empty when the search began |
| `AcpSafety.SyncYields` | internal/acp/server.go:227-263 | a reliable frame is taken only if the critical queue was empty when the search began |
| `AcpOutcomes.SearchRecorded` | internal/acp/server.go:227-263 | the queue lengths these two speak of are read by the step that begins the search, and no later step changes them |
| `AcpOutcomes.VerdictIsTrue` | internal/acp/server.go:363-380 | a non-blocking write reports success exactly when its frame has entered its queue, whatever the schedule; a refused one never did |
| `AcpOutcomes.ReasonIsTrue` | internal/acp/server.go:275-361 | a blocking write or flush gives a true reason: too large, cancelled, a failure of the transport on this frame, or a close or discard |
| `AcpOutcomes.AloneItEnqueues` | internal/acp/server.go:275-433 | run alone, a call that has room for its size, its bytes and a slot gets its frame in, with these limits as numbers; a non-blocking one without is refused and leaves bytes and queue as they were |
| `AcpOutcomes.ClosedIsClosed` | internal/acp/server.go:579-595 | nothing enters a queue of a closed connection, whatever anybody does |
| `AcpOutcomes.CancelledIsSkipped` | internal/acp/server.go:149-192 | a request cancelled before the transport got it is never written, in any continuation of any run |
| `AcpOutcomes.NobodyForgotten` | internal/acp/server.go:194-225 | after a close the writer stops only when every request that ever entered a queue is decided, and whoever still waits has an answer ready |
| `AcpOutcomes.AckComes` | internal/acp/server.go:265-273 | whoever waits for an answer has it, or the request is queued, in the hand of the writer or just being answered |
| `AcpOutcomes.NobodyStuck` | internal/acp/server.go:275-412 | a producer that has not returned can step, waits for space with no token posted, or waits for such an answer; a cancel or a close always lets it leave |
| `AcpOutcomes.WriterNotStuck` | internal/acp/server.go:227-263 | a writer that has not stopped can step unless there is nothing to send on an open connection or it waits for a lock to close; a search of a closed or unserved connection can give way to the drain |
| `AcpOutcomes.DrainShrinks` | internal/acp/server.go:194-225 | every step of the final drain leaves less to do, until it stops |
| `AcpOutcomes.CloseTakesEffect` | internal/acp/server.go:583-595 | a close is delayed by nothing but an enqueue that holds the lock |
| `AcpSafety.NeverLosesWakeup` | internal/acp/server.go:275-316 | a producer waiting for space on an open connection has a token, a queued request, or somebody who will post one ahead of it; after the close it can return at once |
| `AcpProgress.FairWakeup` | internal/acp/server.go:275-308 | while a producer waits without a token on an open connection somebody who helps can step, and once the writer and the producers of its lane have taken more steps than the budget of the state, under whatever schedule, a token has been posted |
| `AcpProgress.HelpersBounded` | internal/acp/server.go:275-316 | along any run in which no token is posted on a lane, its producers and the writer take at most that many steps |
| `AcpProgress.WakeupReached` | internal/acp/server.go:286-308 | from every such state a finite run of the others alone posts the token and leaves the producer waiting for it |
| `AcpDispatch.AdmissionConserved` | internal/acp/server.go:522-540 | under every schedule the dispatch counters are those of the running dispatches, within 16 MiB and 128 slots, and return to zero |
| `AcpDispatch.AdmittedIff` | internal/acp/server.go:522-540 | admitted alone, a request is served exactly when its bytes fit what is left of 16 MiB and one of 128 slots is free; a refused one holds nothing |
| `Utf8.ToValid` | internal/agent/agent_session_events.go:96-116 | replacing malformed bytes yields valid UTF-8 |
| `Utf8.BoundaryNear` | internal/agent/agent_session_events.go:96-116 | within three bytes before any place of a valid text there is a character boundary |
| `Utf8.ValidSuffix` | internal/agent/agent_session_events.go:96-116 | what remains after a valid prefix of a valid text is valid |
| `Utf8.EncodedIsRune` | internal/agent/agent_session_events.go:96-116 | every encoded scalar value of RFC 3629, section 3, is recognised with its length |
| `Utf8.RuneIsEncoded` | internal/agent/agent_session_events.go:96-116 | whatever is recognised as a character is the encoding of a scalar value |
| `Utf8.RepairReplacesRuns` | internal/agent/agent_session_events.go:67-116 | repairing keeps characters and replaces each run of bytes in which none begins by one replacement character |
| `Framing.LineReader.ReadSlice` | internal/acp/transport.go:97-137 | the buffered read: up to a newline, a full buffer, or the end |
| `Framing.LineReader.DrainFrame` | internal/acp/transport.go:208-220 | draining consumes exactly the rest of the line |
| `Framing.LineReader.ReadFrame` | internal/acp/transport.go:97-137 | one read consumes exactly one line, however long, and gives its one outcome; an unready connection consumes nothing |
| `Framing.OneOutcomePerLine` | internal/acp/transport.go:97-137 | in any stream each line gives exactly its own outcome, so an oversized or badly encoded line neither swallows nor splits its neighbours |
| `Framing.LineFate` | internal/acp/transport.go:97-137 | a complete line is a frame exactly when it is within the limit and valid UTF-8, and is given without its line ending; otherwise it is too large or badly encoded, and which of the two |
| `Framing.TailFate` | internal/acp/transport.go:97-137 | what stands behind the last newline is a frame under the same conditions if the stream ended in good order, and an error otherwise |
| `Framing.FrameWriter.WriteFrame` | internal/acp/transport.go:139-180 | which frames are refused and why, what reaches the output when, and that success means the frame and its newline |
| `Framing.PartialWritesDoNotMatter` | internal/acp/transport.go:155-180 | any pattern of partial writes leaves the same bytes |
| `Framing.PushFate` | internal/acp/transport.go:155-180 | the first answer of the output that fails or takes nothing while bytes are left decides the result and how much is on the output |
| `Framing.PushSucceeds` | internal/acp/transport.go:155-180 | with no such answer the whole payload is written |
| `Framing.WrittenFramesReadBack` | internal/acp/transport.go:97-180 | accepted frames read back one by one as themselves or, when not UTF-8, as an encoding error |
| `Framing.RoundTripIffValidUtf8` | internal/acp/transport.go:97-180 | the round trip holds exactly for frames that are valid UTF-8 |
| `Framing.RoundTripCanFail` | internal/acp/transport.go:139-153 | a frame the write side accepts and the read side refuses |
| `LiveText.BackOff` | internal/agent/agent_session_events.go:103-113 | backing off finds the longest valid prefix within the limit, at most three bytes short of it |
| `LiveText.SplitLiveText` | internal/agent/agent_session_events.go:96-116 | terminates; chunks are non-empty, valid, at most 64 KiB, all but the last nearly full, and concatenate to the text |
| `LiveText.BoundedLiveToolText` | internal/agent/agent_session_events.go:67-79 | the bounded text is valid and within its limit, and ends in an ellipsis exactly when something was cut |
| `Transcript.WellPairedIsContract` | internal/agent/agent.go:4120-4199 | the neighbour-by-neighbour definition is the contract: every turn with calls is answered by the very next tool turn with the same ids, and there is no other tool turn |
| `CanceledBranches.TrimCanceledPromptBranches` | internal/agent/agent.go:3954-4019 | the backward loops compute the declarative trimming: a message goes exactly when it lies in the run of agent turns that ends in a superseded unfinished turn |
| `CanceledBranches.DropRun` | internal/agent/agent.go:3988-3997 | one inner loop drops exactly the run before an unfinished turn |
| `CanceledBranches.UsersSurvive` | internal/agent/agent.go:3954-4019 | every user message survives, in order, and none appears |
| `CanceledBranches.NoDeadTurnLeft` | internal/agent/agent.go:3954-4019 | no superseded unfinished turn is left |
| `CanceledBranches.TrimIdempotent` | internal/agent/agent.go:3954-4019 | trimming again changes nothing |
| `CanceledBranches.TrimUnchangedIff` | internal/agent/agent.go:4001-4003 | a history is returned as it is exactly when it has no superseded unfinished turn |
| `CanceledBranches.NotesPrecedeUsers` | internal/agent/agent.go:4004-4013 | in a trimmed history every boundary note is followed directly by a user message |
| `PromptContent.UnfinishedIff` | internal/agent/agent.go:3954-4019 | a turn counts as unfinished exactly when it has no finish part, or its first one gives no reason or a cancellation |
| `Prompt.IndexResults` | internal/agent/agent.go:4120-4199 | the lookup table built by the loops is the results by id in persisted order |
| `Prompt.AnswerCalls` | internal/agent/agent.go:4211-4275 | each call takes the next result with its id, or a synthetic error |
| `Prompt.AppendToolResultsForAssistant` | internal/agent/agent.go:4211-4275 | one tool turn, real answers first, directly after the assistant turn, and the counters after it |
| `Prompt.PreparePrompt` | internal/agent/agent.go:4120-4199 | the loops assemble the prompt the specification defines for the trimmed history |
| `PromptContent.ReadsFirst` | internal/message/content.go:267-350 | text, reasoning and finish reason of a message are those of its first part of that kind, and empty without one |
| `PromptContent.ReadsAll` | internal/message/content.go:295-325 | calls, results and files of a message are read part by part, each once and in order |
| `PromptContent.MessageShown` | internal/message/content.go:666-816 | which messages are sent, and that what is sent says what the message says: role, trimmed text with its attachments, files, reasoning, calls with name and input |
| `PromptContent.PromptSaysHistory` | internal/agent/agent.go:4120-4199 | for every history: apart from tool turns the prompt is one message for every surviving message that is sent, in the same order, each saying what the persisted one says |
| `PromptContent.EveryRequestReachesModel` | internal/agent/agent.go:4120-4199 | the user turns of the prompt are, in order and once each, the user messages of the whole history that have any content |
| `PromptContent.FilterSplits` | internal/message/content.go:684-712 | text files go into the text and the others stay files, each in order |
| `PromptPairing.LookupIsResultsFor` | internal/agent/agent.go:4120-4199 | the lookup table holds for each id exactly its persisted results, in order |
| `PromptPairing.EachCallAnswered` | internal/agent/agent.go:4211-4275 | the ids answered in one turn are, as a multiset, the ids called |
| `PromptPairing.AssistantCallIds` | internal/message/content.go:666-760 | an assistant turn that is sent carries exactly the persisted calls |
| `PromptPairing.StepKeepsPairing` | internal/agent/agent.go:4120-4199 | one more message keeps the transcript well paired unless it hides its calls |
| `PromptPairing.MismatchBreaksPairing` | internal/agent/agent.go:4120-4199 | a turn that hides its calls leaves a tool turn with nothing to answer; where only client calls count, a provider-executed call is answered once too often |
| `PromptPairing.PairedIffNoHiddenCalls` | internal/agent/agent.go:4120-4199 | for every persisted history: the prompt is well paired if and only if no surviving turn both makes calls and begins with the retry notice |
| `PromptPairing.PairedIffMatched` | internal/agent/agent.go:4120-4199 | the same for both readings of the contract: counting the client's calls only, a surviving turn must not carry a call the provider executed either |
| `PromptPairing.ProviderCallAnswered` | internal/agent/agent.go:4211-4275 | a history whose prompt pairs all calls but answers a provider-executed call that is not the client's to answer |
| `PromptPairing.PairingCanFail` | internal/agent/agent.go:4120-4199 | a history whose prompt is not well paired |
| `PromptDelivery.ResultsDeliveredInOrder` | internal/agent/agent.go:4211-4275 | for every id: the model is told its first persisted results in order, once each, as many as there are calls, then synthetic errors; orphans are told to nobody |
| `PromptContent.AnswersConveyResults` | internal/message/content.go:787-816 | every answer told for an id conveys its persisted result, as error, media or text, or says that the execution was interrupted; and there is one for every call |
| `PromptDelivery.TurnView` | internal/agent/agent.go:4211-4275 | one turn's share of an id is that many steps of its own queue, whatever the other ids do |
| `Merge.ConcatenateParts` | internal/agent/agent_fantasy.go:32-37 | parts are appended with adjacent repeated texts left out |
| `Merge.MergeConsecutiveSameRole` | internal/agent/agent_fantasy.go:12-46 | the loop computes the merge, options taken from the latest message that has them |
| `Merge.MergeIdempotent` | internal/agent/agent_fantasy.go:12-46 | a second merge changes nothing, and exactly the transcripts without two neighbours of one non-system role are left alone |
| `Merge.MergeSeparates` | internal/agent/agent_fantasy.go:12-46 | no two neighbours share a role, system messages aside |
| `Merge.MergedRoles` | internal/agent/agent_fantasy.go:12-46 | one message per run of one role comes out, in order |
| `Merge.MergeKeepsNonTexts` | internal/agent/agent_fantasy.go:48-62 | everything that is not text survives, in order |
| `Merge.MergeKeepsTexts` | internal/agent/agent_fantasy.go:48-62 | every role still says every text it said, and nothing else |
| `Merge.RunMerged` | internal/agent/agent_fantasy.go:12-62 | one run becomes one message: the parts of its first message, then the others without the texts that repeat the part before them, and the latest options |
| `Merge.MergedApart` | internal/agent/agent_fantasy.go:12-46 | where the role changes, or at a system message, both sides are merged on their own |
| `Merge.MergeKeepsPairing` | internal/agent/agent_fantasy.go:12-46 | a well-paired transcript stays well paired |
| `ToolIds.SanitizeToolCallId` | internal/agent/agent_anthropic.go:31-50 | character by character, unsafe ones become underscores |
| `ToolIds.SanitizeParts` | internal/agent/agent_anthropic.go:58-122 | the parts of one message, copied at the first change, and how many changed |
| `ToolIds.SanitizeToolCallIdsInMessages` | internal/agent/agent_anthropic.go:52-129 | the loops sanitise every call and result id, report the number of changes, and return the input when there is none |
| `ToolIds.SafeIdIsSafe` | internal/agent/agent_anthropic.go:31-50 | only safe characters remain, exactly the safe ids are left alone, and twice is once |
| `ToolIds.SafeIdsCollideIff` | internal/agent/agent_anthropic.go:31-50 | two ids become one exactly when they are as long and differ only where both have a character that becomes an underscore |
| `ToolIds.SafeIdsCanCollide` | internal/agent/agent_anthropic.go:31-50 | two different ids that become one |
| `ToolIds.SafeMessagesKeepPairing` | internal/agent/agent_anthropic.go:52-129 | a well-paired transcript stays well paired even where ids collide |
| `ToolIds.SafeMessagesSettled` | internal/agent/agent_anthropic.go:52-129 | a second pass finds nothing to change |
| `ToolIds.OnlyIdsChange` | internal/agent/agent_anthropic.go:52-129 | nothing but ids is touched: names, inputs, outputs, order, roles and options stay |
| `Redacted.StripRedactedThinkingParts` | internal/agent/agent_anthropic.go:138-167 | the in-place loop leaves exactly the stripped messages and reports whether there was anything to strip |
| `Redacted.FilterParts` | internal/agent/agent_anthropic.go:149-160 | the parts kept, and whether one was left out |
| `Redacted.StrippedIsClean` | internal/agent/agent_anthropic.go:138-167 | no assistant turn keeps a redacted block, and exactly the clean transcripts are left alone |
| `Redacted.StrippedPairing` | internal/agent/agent_anthropic.go:138-167 | a transcript is well paired after stripping if and only if it was before |
| `Redacted.KeptReads` | internal/agent/agent_anthropic.go:149-160 | part by part: a redacted block goes, anything else stays where it is |
| `Media.SplitToolTurn` | internal/agent/agent_tool_result.go:242-277 | the text parts and the files one tool turn is split into |
| `Media.WorkaroundProviderMediaLimitations` | internal/agent/agent_tool_result.go:226-292 | the loop moves decodable media of tool turns into user turns directly after them, unless the provider takes media |
| `Media.ConvertedKeepsPairing` | internal/agent/agent_tool_result.go:226-292 | moving media keeps the pairing contract |
| `Media.ConvertedShowsTheSame` | internal/agent/agent_tool_result.go:226-292 | each media content is shown to the model as often as before |
| `Media.ConvertedIsMoved` | internal/agent/agent_tool_result.go:226-292 | no tool turn keeps media that could be moved |
| `Media.MovedTurn` | internal/agent/agent_tool_result.go:226-292 | a tool turn keeps its results in their places with a notice for moved media, one user turn with the files stands directly behind it if there are any, and everything else stays |
| `Media.MovedReads` | internal/agent/agent_tool_result.go:242-277 | the moved files are those of the results with media that can be decoded, in order, with name, type and content |
| `Media.DescribeUserFiles` | internal/agent/agent_fantasy.go:121-150 | files of one user message become placeholders, images numbered |
| `Media.DropToolMedia` | internal/agent/agent_fantasy.go:91-106 | media results of one tool turn become text |
| `Media.StripImageParts` | internal/agent/agent_fantasy.go:71-111 | the loop strips images from user and tool messages and drops empty user messages |
| `Media.ImagesStrippedKeepsPairing` | internal/agent/agent_fantasy.go:71-111 | stripping images keeps the pairing contract |
| `Media.StrippedIsImageFree` | internal/agent/agent_fantasy.go:71-111 | no file in a user message, no media in a tool turn, no empty user message |
| `Media.StripIdempotent` | internal/agent/agent_fantasy.go:71-111 | stripping twice is stripping once |
| `Media.StrippedTurn` | internal/agent/agent_fantasy.go:71-150 | a user message keeps its parts in their places with each file replaced by its placeholder, a tool turn its results with media replaced by a notice, everything else stays |
| `Media.PlaceholderRefers` | internal/agent/agent_fantasy.go:118-150 | where images can be described, the placeholder of one refers to it by its number in the message |
| `PrepareStep.PrepareMessages` | internal/agent/agent.go:1408-1481 | the passes in the order a step applies them |
| `PrepareStep.PreparedKeepsPairing` | internal/agent/agent.go:1408-1481 | for every provider and model the passes turn a well-paired transcript, with any messages joining it, into a well-paired one |
| `PrepareStep.PreparedIsAcceptable` | internal/agent/agent.go:1450-1481 | safe ids and absence of images hold of the final prompt, although later passes still rewrite and add messages |
| `PrepareStep.MovedThenDescribed` | internal/agent/agent.go:1408-1450 | the passes work on each other's results: media moved out of a tool turn is described in the user turn it was moved to |
| `PrepareStep.FramedApart` | internal/agent/agent.go:1450-1481 | the prefix comes first and the suffix last, around the messages as they are |
| `StepContent.ToResponseMessages` | fantasy/agent.go:696-783 | one assistant turn and one tool turn, provider-executed results in the former |
| `StepContent.ResponseCarries` | fantasy/agent.go:696-783 | the assistant turn carries, in order and once each, every text, reasoning block, call, file and provider result of the step, and the tool turn every client result with its output |
| `StepContent.StepPaired` | fantasy/agent.go:696-783 | one step keeps the transcript well paired exactly when its client results answer its client calls |
| `StepStream.ReadStream` | fantasy/agent.go:1610-1841 | every emitted text or reasoning block is the concatenation of the deltas for its id since its latest start, blocks of different ids interleaved as they may; the calls, the finish reason, and failure |
| `StepStream.ValidateAndRepair` | fantasy/agent.go:1301-1346 | a call that passes its check comes out with the checked input; a repair is used only after a failed check, the caller's first; a call nothing repairs comes out as made and invalid |
| `StepFeedback.EmittedIs` | fantasy/agent.go:1610-1841 | what each event adds to the content, told from the events: a block what was said since its latest start, with the latest metadata; calls, sources and provider results as they come; nothing else |
| `StepFeedback.TextReads` | fantasy/agent.go:1629-1663 | the text of a block is its deltas, each once and in order |
| `StepFeedback.MetaIsLatest` | fantasy/agent.go:1664-1710 | the metadata of a reasoning block is the latest a delta brought, or what its start carried |
| `StepStream.EmittedResults` | fantasy/agent.go:1769-1788 | the stream itself contributes no client result |
| `StepStream.EmittedCalls` | fantasy/agent.go:1724-1767 | the client calls in the content are exactly the calls dispatched, in order |
| `ToolExecutor.ExecuteSingleTool` | fantasy/agent.go:818-907 | the result carries the call's id and name, says by kind what became of the call, ends the turn exactly as the tool asked, and is critical exactly when a valid call of a known tool broke |
| `ToolExecutor.ReachableInv` | fantasy/agent.go:1843-1902 | every state any schedule can reach satisfies the executor's invariant |
| `ToolExecutor.Concurrency` | fantasy/agent.go:1853-1892 | at most five parallel calls run at once, beside at most one other, which is answered before any later call is taken; sequential results are recorded in call order |
| `ToolExecutor.NotStuck` | fantasy/agent.go:1855-1902 | an unfinished run has a next step, whatever the tools answer |
| `ToolExecutor.ExecutorTerminates` | fantasy/agent.go:1855-1902 | every schedule ends within four steps per call |
| `ToolExecutor.AllAnswered` | fantasy/agent.go:1855-1902 | a finished run has recorded, id for id, exactly the calls dispatched |
| `ToolExecutor.EarliestErrorReported` | fantasy/agent.go:1866-1888 | the reported error is that of the earliest recorded critical result, and there is one exactly when some tool broke |
| `StepPrompts.CreatePromptPaired` | fantasy/agent.go:1411-1451 | the first prompt is well paired exactly when the given messages are, under any system prompt |
| `StepFeedback.CreatePromptSays` | fantasy/agent.go:1411-1451 | which calls are accepted, and what the first prompt says: the system turn, the given messages, then the user's text and files |
| `StepPrompts.AppendTo` | fantasy/agent.go:1012 | the responses go into the memory behind the first prompt while there is room, and into new memory otherwise |
| `StepPrompts.PrepareInput` | fantasy/agent.go:1011-1074 | what a step sends, and what it leaves in the memory of the first prompt: its first message is overwritten there exactly when the step sets its own system prompt, preparation replaces nothing and the responses fit |
| `StepPrompts.InitialStands` | fantasy/agent.go:1064-1074 | at every step the first prompt is the original one with the first message that belongs to the system prompt last written through |
| `StepPrompts.SwapFirstPaired` | fantasy/agent.go:1064-1074 | overwriting the first message keeps a prompt well paired exactly when both leave the same calls open |
| `StepPrompts.StepPromptPaired` | fantasy/agent.go:1011-1074 | what a step is given is well paired exactly when the system prompt last written through fits the call; what it sends, where preparation replaces nothing, exactly when its own system prompt does or, without one, the one last written through |
| `StepPrompts.ConfiguredRestoresNothing` | fantasy/agent.go:1046-1074 | a step that asks for the configured system prompt restores nothing an earlier step wrote through |
| `StepPrompts.ReplacedPromptPaired` | fantasy/agent.go:1030-1074 | where preparation replaces the messages and keeps the contract, the prompt is well paired exactly when the step's own system prompt displaces no other calls |
| `StepPrompts.OverwriteOutlivesStep` | fantasy/agent.go:1064-1074 | a call and a system prompt of the first step alone after which the second prompt is still unpaired |
| `StepLoop.RunStep` | fantasy/agent.go:1610-1922 | the messages of one step, whether it failed, and whether the loop goes on |
| `StepLoop.Stream` | fantasy/agent.go:975-1223 | for every call, preparation and spare memory: which prompts are sent, when the loop goes on, and how it ends |
| `StepFeedback.ContinuesIff` | fantasy/agent.go:1904-1922 | a step goes on exactly when the model made a client call and last finished for tool calls, no recorded result ends the turn, and the caller does not stop the run |
| `StepFeedback.FailsIff` | fantasy/agent.go:1843-1902 | a step fails exactly when its stream does or a recorded result came from a tool that broke |
| `StepFeedback.StepFeedsBack` | fantasy/agent.go:1843-1922 | the tool turn carries every recorded result once, in order of recording, each saying what became of its own call; the assistant turn carries what the stream said |
| `StepLoop.ContentAnswered` | fantasy/agent.go:1843-1922 | the calls of a step are exactly the calls it answers |
| `StepLoop.TranscriptPaired` | fantasy/agent.go:1011-1223 | over any number of steps, every model, every schedule and every tool outcome, the call's messages and what the steps added stay well paired |
| `StepLoop.PromptsPaired` | fantasy/agent.go:1011-1110 | every prompt is well paired exactly when the system prompt that stands in it fits the call: the step's own or else the one an earlier step last wrote through; and, where preparation replaces the messages, the step's own |
| `StepLoop.NothingWrittenThrough` | fantasy/agent.go:1064-1074 | without system prompts of their own no step disturbs a later one |
| `GenerateLoop.ExecuteTools` | fantasy/agent.go:785-816 | results of all calls in order, or none and an error when one breaks |
| `GenerateLoop.CollectCalls` | fantasy/agent.go:566-584 | the validated client calls of a response |
| `GenerateLoop.ReplaceCalls` | fantasy/agent.go:592-611 | each validated call is put back in the place of its original |
| `GenerateLoop.RunStep` | fantasy/agent.go:566-634 | the messages of one response and its calls, and whether the loop goes on; a critical error only ends it |
| `GenerateLoop.Generate` | fantasy/agent.go:455-634 | for every call, preparation and spare memory: which prompts are sent and when the loop ends; a critical error ends it silently |
| `StepFeedback.GenerateContinuesIff` | fantasy/agent.go:566-634 | exactly when a step without streaming goes on |
| `StepFeedback.GenerateFeedsBack` | fantasy/agent.go:586-616 | the response is kept, and unless a tool broke the result of every call follows in call order, each saying how its own tool ended |
| `StepFeedback.ResponseKept` | fantasy/agent.go:592-611 | a response is kept item by item; only a client call is checked, in its place |
| `GenerateLoop.StepPairedIff` | fantasy/agent.go:586-616 | a step keeps the transcript well paired exactly when it answers its calls: the response brings no client result or, when a tool breaks, brings results that happen to be the answers |
| `GenerateLoop.GeneratePromptsPaired` | fantasy/agent.go:463-634 | where responses bring no client results, every prompt is well paired exactly when the system prompt that stands in it fits the call, or the step's own where preparation replaces the messages |
| `GenerateLoop.GenerateResultPaired` | fantasy/agent.go:586-634 | the transcript a run has gathered is well paired exactly when every step answered its calls |
| `GenerateLoop.BrokenToolUnanswered` | fantasy/agent.go:797-806 | a run whose tool breaks and whose call stays unanswered |
| `GenerateLoop.StrayResultUnpaired` | fantasy/agent.go:592-616 | a run whose response brings a client result nobody asked for |
| `AgentTurn.FirstPromptPaired` | internal/agent/agent.go:4120-4199 | for every persisted history the first prompt is well paired, counting the client's calls, exactly when no surviving turn hides its calls or carries one the provider executed |
| `AgentTurn.TurnPromptsPaired` | internal/agent/agent.go:1408-1481 | from every persisted history that meets this condition, through assembly, passes and loop, every prompt of every step is well paired |
| `JsonText.Hex4Value` | fantasy/jsonrepair/jsonrepair.go:1644-1648 | four hexadecimal digits read back as the number they were written for |
| `JsonText.Escape` | fantasy/jsonrepair/jsonrepair.go:1604-1642 | a character is printed as itself exactly where that is allowed in the mode, else with its short escape if it has one, else with one or two four-digit escapes |
| `JsonText.WriteEscapedChar` | fantasy/jsonrepair/jsonrepair.go:1606-1640 | the buffer grows by the escape of the character; every number given to the hex form fits it |
| `JsonText.WriteEscapedString` | fantasy/jsonrepair/jsonrepair.go:1604-1642 | the buffer grows by the escaped string |
| `JsonText.WriteValue` | fantasy/jsonrepair/jsonrepair.go:1536-1602 | the buffer grows by the printed value |
| `JsonText.WriteItems` | fantasy/jsonrepair/jsonrepair.go:1555-1562 | the loop prints the elements, separated |
| `JsonText.WriteMembers` | fantasy/jsonrepair/jsonrepair.go:1564-1575 | the loop prints the members in their order |
| `JsonText.ItemsApart` | fantasy/jsonrepair/jsonrepair.go:1555-1562 | elements are set apart by a comma and one blank, and nothing else is put around them |
| `JsonText.MembersApart` | fantasy/jsonrepair/jsonrepair.go:1564-1575 | members likewise, and a key is followed by a colon and one blank |
| `JsonText.Serialize` | fantasy/jsonrepair/jsonrepair.go:1530-1534 | the whole text |
| `JsonReader.CharReads` | fantasy/jsonrepair/jsonrepair.go:1604-1642 | every character reads back as itself in both modes, surrogate pairs included |
| `JsonReader.PrintedDecodes` | fantasy/jsonrepair/jsonrepair.go:1530-1648 | print, then read by RFC 8259: every tree with valid number tokens comes back, in both character modes |
| `JsonReader.PrintedIsInjective` | fantasy/jsonrepair/jsonrepair.go:1530-1648 | different trees never print alike |
| `JsonReader.PrintedAscii` | fantasy/jsonrepair/jsonrepair.go:1604-1642 | in ASCII mode nothing but ASCII is printed |
| `OrderedObject.Ordered.constructor` | fantasy/jsonrepair/jsonrepair.go:45-47 | an empty, consistent object |
| `OrderedObject.Ordered.Set` | fantasy/jsonrepair/jsonrepair.go:49-56 | a present key keeps its place and takes the value, a new one goes to the end; list and index stay consistent |
| `OrderedObject.Ordered.Get` | fantasy/jsonrepair/jsonrepair.go:58-64 | the indexed lookup finds what a search finds |
| `OrderedObject.Ordered.LastKey` | fantasy/jsonrepair/jsonrepair.go:66-71 | the key returned is present, stands nowhere but at the end, and is missing only when there is no key |
| `OrderedObject.InsertionOrder` | fantasy/jsonrepair/jsonrepair.go:49-71 | over any run of sets the keys stand in the order of their first sets, so the last key is the one that was new last |
| `OrderedObject.Ordered.Contains` | fantasy/jsonrepair/jsonrepair.go:73-76 | the index knows exactly the keys present |
| `OrderedObject.Ordered.Merge` | fantasy/jsonrepair/jsonrepair.go:78-82 | the members of another object, even of itself, are set in turn |
| `OrderedObject.WithMemberReads` | fantasy/jsonrepair/jsonrepair.go:49-64 | a set member reads back, others read as before, old keys keep their places |
| `OrderedObject.WithMemberDistinct` | fantasy/jsonrepair/jsonrepair.go:49-56 | setting keeps keys distinct |
| `OrderedObject.MergeReads` | fantasy/jsonrepair/jsonrepair.go:78-82 | merging keeps keys distinct and the other object's members win |
| `Pointers.SplitJoins` | fantasy/tool_validation.go:890-896 | splitting a pointer loses nothing and leaves no separator in a segment |
| `Pointers.PointerSpells` | fantasy/tool_validation.go:890-896 | a pointer spelled with a leading slash leads through exactly its segments |
| `Pointers.AtoiDigits` | fantasy/tool_validation.go:747-752 | an index is read as it is usually spelled, with or without a sign, and not beyond 64 bits |
| `Pointers.EditStep` | fantasy/tool_validation.go:760-888 | an edit of the last container is the same edit made step by step from the root |
| `Pointers.SetReads` | fantasy/tool_validation.go:760-820 | after a set the pointer reads the value |
| `Pointers.SetElsewhere` | fantasy/tool_validation.go:760-820 | a set leaves every location off its path alone |
| `Pointers.DeleteSucceeds` | fantasy/tool_validation.go:822-888 | a deletion succeeds exactly when the pointer leads to something below the root |
| `Pointers.DeletedParent` | fantasy/tool_validation.go:822-888 | the container that held the value holds the rest: an object every other key, an array the other elements with the later ones moved up by one |
| `Pointers.DeleteElsewhere` | fantasy/tool_validation.go:822-888 | a deletion leaves every location alone that leaves the path above the changed container |
| `Pointers.PointersCoincideIff` | fantasy/tool_validation.go:737-820 | two pointers name one location, so that setting either is setting the other, exactly when they take the same steps |
| `Pointers.PointersCanCoincide` | fantasy/tool_validation.go:747-751 | two spellings of one index |
| `Pointers.GetValueAtPointer` | fantasy/tool_validation.go:737-758 | the loop over memory returns the value at the path, or null |
| `PointerEdits.Descend` | fantasy/tool_validation.go:776-813 | one step down clones the child and links the clone, and keeps every clone above intact |
| `PointerEdits.CloneAlong` | fantasy/tool_validation.go:766-815 | the descent clones exactly the containers on the path, all of them new |
| `PointerEdits.SetValueAtPointer` | fantasy/tool_validation.go:760-820 | nothing that existed before is written, even where subtrees are shared; the result is the edited value, or a copy when the edit fails |
| `PointerEdits.ReplacePointerParent` | fantasy/tool_validation.go:904-937 | walking down again stores the value in the last cloned container |
| `PointerEdits.ExchangeLast` | fantasy/tool_validation.go:854-858 | the array a deletion leaves takes the place of the old clone |
| `PointerEdits.DeleteValueAtPointer` | fantasy/tool_validation.go:822-888 | nothing that existed before is written; the result is the value without the member, or a copy |
| `NullEdits.NormalizeValue` | fantasy/tool_validation.go:504-652 | the walk over a value in memory, visiting members in any order: the original still is what it was, shared parts included; the result is the key-by-key specification's, and the same reference exactly when nothing changed |
| `NullEdits.ChangeMember` | fantasy/tool_validation.go:586-619 | what becomes of one member: it goes, takes a copy of the default, or is normalised |
| `NullEdits.WriteMember` | fantasy/tool_validation.go:594-619 | a change is written to a clone, which is made at the first change |
| `NullEdits.VisitMembers` | fantasy/tool_validation.go:581-619 | the member loop, in whatever order the map gives, changes each member as the specification says |
| `NullEdits.SweepExtras` | fantasy/tool_validation.go:621-641 | the second loop removes exactly the undeclared nulls, cloning only if nothing was changed before |
| `NullEdits.NormalizeObject` | fantasy/tool_validation.go:561-652 | both loops together are the key-by-key change, on a new object, or the given one unchanged |
| `NullEdits.NormalizeItems` | fantasy/tool_validation.go:541-559 | arrays, element by element, on a copy |
| `NullEdits.NormalizeAnyOfLike` | fantasy/tool_validation.go:654-675 | of several alternatives the last one that changes the value decides |
| `NullEdits.NormalizeAllOf` | fantasy/tool_validation.go:515-531 | all branches in turn |
| `NullEdits.Decode` | fantasy/tool_validation.go:725-735 | a default is copied into memory of its own |
| `NullNormalization.NothingInvented` | fantasy/tool_validation.go:504-652 | whatever the schema, at every depth no key and no element is invented, and only nulls and texts give way to other values |
| `NullNormalization.NoNullMade` | fantasy/tool_validation.go:504-652 | no value normalises to a null |
| `NullNormalization.ObjectAfterwards` | fantasy/tool_validation.go:561-652 | no optional declared member is null, nested objects that forbid extras have no undeclared null, and undeclared members are otherwise untouched |
| `NullEffects.MembersAfterwards` | fantasy/tool_validation.go:561-652 | member by member: exactly the nulls that are optional, or that a nested object forbids, are missing afterwards; a required null has its default; every other declared member is what its own schema makes of it; the rest is untouched |
| `NullEffects.ElementsAfterwards` | fantasy/tool_validation.go:547-566 | every element of an array is what the schema of its items makes of it, in its place |
| `NullEffects.AlternativesAfterwards` | fantasy/tool_validation.go:654-676 | of several alternatives, each tried on the value as it is, the last one that changes it decides; if none does nothing changes |
| `NullEffects.CombinationAfterwards` | fantasy/tool_validation.go:515-532 | under `allOf` the branches are applied in turn, each to what the ones before it left |
| `NullEffects.ScalarsAfterwards` | fantasy/tool_validation.go:534-545 | a text under a number type becomes the number it holds; anything else under a type that is not an object stays |
| `ToolArguments.CoerceArgs` | fantasy/tool_validation.go:307-337 | one issue: a member deleted or a string read as the expected type, on clones |
| `ToolArguments.CoerceArgsFromIssues` | fantasy/tool_validation.go:298-339 | the loop applies the issues one after another and writes nothing that existed before |
| `ToolArguments.IssueAnswered` | fantasy/tool_validation.go:307-337 | exactly when an issue is answered, that the value at its pointer is then what the text was read as or gone, and that other places stay |
| `ToolArguments.IssuesInTurn` | fantasy/tool_validation.go:298-342 | the issues are answered one after another, each on what the ones before it left |
| `ToolArguments.CoerceAllKeepsRoot` | fantasy/tool_validation.go:298-342 | coercion adds no root key, whatever the issues |
| `ToolArguments.NormalizedArgsKeepRoot` | fantasy/tool_validation.go:491-502 | normalised arguments are again an object without a new root key |
| `ToolArguments.NormalizeOptionalNulls` | fantasy/tool_validation.go:491-502 | the normalised arguments if there are any, and the same object otherwise |
| `ToolArguments.PreserveUnknownRootFields` | fantasy/tool_validation.go:685-694 | a new object in which undeclared root members have their original values, shared and not copied |
| `ToolArguments.CoercionPass` | fantasy/tool_validation.go:193-208 | one pass of coercion and normalisation keeps the arguments an object without a new root key |
| `ToolArguments.ValidateAndNormalize` | fantasy/tool_validation.go:172-214 | for any validator: arguments are accepted exactly when those after at most five passes are valid, and which they then are; they agree with the original on every undeclared root key, add no root key, and the original memory is not written |
| `ToolArguments.RoundsTrail` | fantasy/tool_validation.go:187-214 | the final arguments are the first valid ones within five passes if there are any, else those where no issue could be answered or the passes ran out |
| `ToolArguments.StartMembers` | fantasy/tool_validation.go:172-186 | at the root an optional null is gone, a required one has its default, and every undeclared member is as it was sent |
| `SchemaNormalize.NormalizeNode` | fantasy/schema/schema.go:408-442 | the recursion over children in any order computes the rewriting |
| `SchemaNormalize.NormalizeChildren` | fantasy/schema/schema.go:409-420 | the loop over the children of one node |
| `SchemaNormalize.ListedMembers` | fantasy/schema/schema.go:432-441 | a node with a list of types loses it, gains the alternatives, and keeps every other keyword, rewritten |
| `SchemaNormalize.PlainMembers` | fantasy/schema/schema.go:422-430 | any other node keeps every keyword, rewritten, and gains at most an empty schema |
| `SchemaPreserved.SchemaMeans` | fantasy/schema/schema.go:408-442 | for every clean document and every schema in it, however deep and through whatever references: a value validates afterwards exactly when it did before with each `anyOf` beside a list of types left out, and the same members, and elements where they are asked about, count as evaluated |
| `SchemaPreserved.DocumentMeans` | fantasy/schema/schema.go:408-442 | so the whole document admits the same values, references followed as far as it takes |
| `SchemaPreserved.MeaningKept` | fantasy/schema/schema.go:408-442 | without a node that carries both, the document admits exactly the values it admitted |
| `SchemaPreserved.CleanEitherWay` | fantasy/schema/schema.go:422-442 | an otherwise clean document meets the conditions when no bare array type and no "array" in a list of types makes the rewriting add `items`, whatever `unevaluatedItems` it has, and when it has no `unevaluatedItems`, whatever is added |
| `SchemaPreserved.LocateRewritten` | fantasy/schema/schema.go:408-442 | a reference leads to the rewritten form of what it led to |
| `SchemaPreserved.RestAgrees` | fantasy/schema/schema.go:408-442 | nodes whose subschemas judge alike judge alike, keyword by keyword |
| `SchemaPreserved.ShadowFree` | fantasy/schema/schema.go:432-441 | leaving out the `anyOf` beside a list of types makes no difference where there is none |
| `SchemaPreserved.AnyOfCanBeLost` | fantasy/schema/schema.go:432-441 | a schema that admitted nothing and that admits every string afterwards |
| `SchemaPreserved.ConstantKeptIff` | fantasy/schema/schema.go:409-420 | a constant keeps its meaning exactly when nothing in it looks like a schema to rewrite |
| `SchemaPreserved.DataCanChange` | fantasy/schema/schema.go:409-420 | a constant that admitted a value and no longer does |
| `SchemaPreserved.LeftoverKeptIff` | fantasy/schema/schema.go:422-430 | `unevaluatedItems` beside a bare array type: a value keeps its verdict exactly when it is no array or its elements were all allowed anyway |
| `SchemaPreserved.LeftoverCanBeLost` | fantasy/schema/schema.go:422-430 | an array refused for its element and admitted afterwards |
| `SchemaPreserved.LeftoverCanBeLostBeside` | fantasy/schema/schema.go:409-430 | the same through an `allOf` branch that is a bare array type |
| `SchemaNormalize.SettledIffUnchanged` | fantasy/schema/schema.go:408-442 | exactly the schemas without lists of types and bare arrays are left alone |
| `SchemaNormalize.SettledIffFlat` | fantasy/schema/schema.go:408-442 | afterwards no visited node has a list of types and every array type has items, exactly when no list of types holds a list |
| `SchemaNormalize.NormalizeTwice` | fantasy/schema/schema.go:408-442 | a second pass changes nothing exactly when no list of types holds a list |
| `SchemaNormalize.SecondPassCanChange` | fantasy/schema/schema.go:432-441 | a list of types that holds a list, which the second pass rewrites |
| `Prune.ScanParts` | internal/agent/compact_builtin.go:103-134 | the inner loop over the results of one message |
| `Prune.PruneToolResults` | internal/agent/compact_builtin.go:64-168 | the backward walk and the clearing compute the pruned history, which the rows below characterise |
| `PruneBudget.PrunesExactly` | internal/agent/compact_builtin.go:64-168 | for every history, from positions and token counts: of the old results met before the first notice, those beyond the first 40,000 tokens are all cleared if they come to more than 20,000, and nothing changes otherwise |
| `PruneBudget.MetFromAre` | internal/agent/compact_builtin.go:78-134 | the list used there holds exactly those results, each once, from the last message to the first and in part order within each |
| `PruneBudget.WalksExactly` | internal/agent/compact_builtin.go:78-134 | the counters and targets of the walk are what that list says, and the walk stops exactly at a summary or a notice |
| `PruneBudget.EstimateIsQuarter` | internal/agent/agent_estimate.go:143-175 | one token for each character outside ASCII and a quarter, rounded up, for the others |
| `Prune.ApplyPruning` | internal/agent/compact_builtin.go:141-161 | each target is cleared once, from its original content |
| `Prune.OnlyOldResultsChange` | internal/agent/compact_builtin.go:64-168 | only the content of eligible results behind two user turns and before no summary ever changes |
| `Prune.ClearingIsWorthIt` | internal/agent/compact_builtin.go:117-139 | if anything is cleared, more than 20,000 estimated tokens are, and at least 40,000 of eligible ones met before stay |
| `Prune.PruneIdempotent` | internal/agent/compact_builtin.go:64-168 | pruning twice is pruning once when protection does not depend on the content |
| `Queue.AgentQueues.SetQueuedCalls` | internal/agent/agent_queue.go:356-362 | a session's message queue is replaced, empty ones have no entry |
| `Queue.AgentQueues.EnqueueQueuedCall` | internal/agent/agent_queue.go:259-266 | the call goes to the end; other sessions are untouched |
| `Queue.AgentQueues.EnqueueSteeringCall` | internal/agent/agent_queue.go:369-376 | the call goes to the end of the steering queue, marked as steering |
| `Queue.AgentQueues.TakeJoinActiveRunCalls` | internal/agent/agent_queue.go:268-288 | a stable partition: joining calls out in order, the rest stay in order |
| `Queue.JoiningReads` | internal/agent/agent_queue.go:268-288 | taking joining calls out reads the calls one by one and keeps the order of both kinds |
| `Queue.AgentQueues.PopNextQueuedCall` | internal/agent/agent_queue.go:290-302 | the first call leaves and is handed out, the others stay in order |
| `Queue.AgentQueues.RemoveQueuedCall` | internal/agent/agent_queue.go:304-316 | exactly the call at a valid index leaves, the others stay in order |
| `Queue.AgentQueues.RemoveQueuedTurn` | internal/agent/agent_queue.go:98-125 | the first call of the turn leaves each queue that has one, the others stay in order |
| `Queue.AgentQueues.PrioritizeQueuedCall` | internal/agent/agent_queue.go:318-336 | the call comes first and may join, the others keep their order |
| `Queue.AgentQueues.ClearQueuedCalls` | internal/agent/agent_queue.go:338-343 | the message queue is emptied |
| `Queue.AgentQueues.ClearSteeringQueue` | internal/agent/agent_queue.go:395-400 | the steering queue is emptied |
| `Queue.AgentQueues.ClearQueue` | internal/agent/agent_queue.go:139-149 | the check and the two clears, with anything others do in between |
| `Queue.ClearForgets` | internal/agent/agent_queue.go:139-149 | clearing always empties the steering queue; what arrives in the message queue after a check that found it empty stays |
| `Queue.AgentQueues.PopSteeringCalls` | internal/agent/agent_queue.go:382-392 | all steering calls leave, first in first out |
| `Queue.AgentQueues.FlushStrandedSteeringMessages` | internal/agent/agent_queue.go:438-450 | the two locked sections, with anything others do in between |
| `Queue.FlushGoesFirst` | internal/agent/agent_queue.go:438-450 | whatever others do in between, the flushed calls go first in their order, and steering calls that arrive meanwhile stay |
| `Queue.FlushKeepsOrder` | internal/agent/agent_queue.go:438-450 | the same in any interleaved run of several flushers and everything else |
| `Queue.PrioritizePermutes` | internal/agent/agent_queue.go:318-336 | prioritising permutes |
| `Queue.ApplyConserves` | internal/agent/agent_queue.go:259-450 | one operation loses no call and doubles none |
| `Queue.NextConserves` | internal/agent/agent_queue.go:259-450 | one step, halves of flushes included, loses no call and doubles none |
| `Queue.RunConserves` | internal/agent/agent_queue.go:259-450 | over any interleaving every call is in the message queue, in the steering queue, in the hands of a flusher, delivered or removed, exactly as often as it entered |
| `JoinRun.SelectJoining` | internal/agent/agent.go:1311-1373 | the backward loop injects, puts back or drops each taken call as the specification says, injected ones in queue order |
| `JoinRun.WithinBudget` | internal/agent/agent.go:1311-1373 | at most two prompts and 1,600 characters are injected |
| `JoinRun.DroppedIsRepeat` | internal/agent/agent.go:1346-1353 | a call is dropped only as an exact repeat of the main prompt or of an injected one |
| `JoinRun.FateIff` | internal/agent/agent.go:1335-1365 | exactly what becomes of each call: while there is room a repeat is dropped and any other prompt is injected, whole or cut to what is left; everything else is put back |
| `JoinRun.InjectedIsTrimmed` | internal/agent/agent.go:1354-1364 | an injected prompt is the trimmed one, cut only where it would exceed what is left |
| `JoinRun.EachHasOneFate` | internal/agent/agent.go:1335-1365 | each taken call is injected, put back unchanged, or dropped, exactly one of the three |
| `JoinRun.RequeueReverses` | internal/agent/agent.go:1335-1365 | whatever is taken, the calls put back come back in the reverse of their queue order |
| `JoinRun.OrderKeptIff` | internal/agent/agent.go:1335-1365 | their order is kept exactly when they read the same from both ends; for distinct calls, exactly when at most one is put back |
| `JoinRun.OrderCanBeLost` | internal/agent/agent.go:1335-1365 | two blank prompts that come back in reverse |

## Left out

- The recovery half of `fantasy/jsonrepair/jsonrepair.go`: heuristic parsing without a specification to hold it to.
- The validator itself, the error strings it produces and `flattenValidationIssues`: the model takes any predicate and any list of issues.
- The rest of `sessionAgent.Run` and `Summarize`: provider errors, persistence, retries, plugins, hooks and memory are input or unseen services.
- Wall-clock time, deadlines, metrics, logging and hashing: they do not appear, or are free choices of a step.
- The ACP request handlers, the dispatcher's JSON decoding and `rejectOverloaded`: field mapping and replies.
- AcpSafety.ReachableInv: a lock with waiting writers is modelled as one that is free or held, and the closing of the transport itself is not modelled.
- Framing.LineReader.ReadSlice: stands for the buffered reader's own contract; its internal buffering and read errors other than a broken stream are not modelled.
- Framing.FrameWriter.WriteFrame: the lock that serialises whole frame writes is not modelled, frames are written one after another.
- Prompt.PreparePrompt: file attachments handed over beside the messages, the restored tool protocol state, message metadata and the id of the inserted boundary note are not modelled; `ToAIMessage` is modelled as far as calls, results, texts, reasoning, files and the retry notice go.
- Prompt.AppendToolResultsForAssistant: the text filters it applies to contents are free functions of the model.
- Merge.MergeConsecutiveSameRole: sharing of a backing array by two slices after an append is not modelled.
- Media.WorkaroundProviderMediaLimitations: base64 decoding is any partial function.
- PrepareStep.PrepareMessages: cache breakpoints, pruning within a step and the transformation by plugins, which assemble the prompt anew, are not part of this model.
- StepStream.ReadStream: usage, warnings, provider metadata of texts and the callbacks' own effects are not modelled; a callback that returns an error is a failed event.
- ToolExecutor.ReachableInv: a panic inside a tool is recovered into an error response, so it is one of the ways a tool can answer; cancellation of the context while tools run is the tools' own affair.
- StepPrompts.PrepareInput: a preparation that returns the slice it was given counts as one that replaces nothing; one that returns a part of it, or writes messages into it, is not modelled.
- StepLoop.Stream: retries of one step and the replay after a lost server-side conversation are one stream each; the choice of model and tools per step is in the streams and the executor's runs.
- GenerateLoop.Generate: retries of one request are one response each; the choice of model and tools per step is in the responses and answers.
- JsonText.WriteValue: machine numbers are printed as their tokens, Go strings that are not valid UTF-8 are not modelled, and an unordered map is an object in some order.
- OrderedObject.Ordered.Merge: values are trees, so an object nested in itself is not modelled.
- PointerEdits.SetValueAtPointer: the memory given must represent a finite value; sharing is modelled, cycles are not.
- NullEdits.NormalizeValue: the memory given must represent a finite value; sharing is modelled, cycles are not, and schemas are values.
- SchemaNormalize.NormalizeNode: modelled on values instead of in place; two nodes that share one map are not modelled.
- SchemaPreserved.SchemaMeans: `$dynamicRef`, whose target depends on the way a validator came, is excluded; `$id` and anchors only enter through how the validator reads a reference as a path; a reference must lead along a path the rewriting leaves in place. Where `items` are added and elements are asked about, it makes no promise: meaning can be lost there, and can also survive.
- Prune.PruneToolResults: archiving is a function that names a path; the wording after the notice's prefix is free.
- JoinRun.SelectJoining: creating the user message of an injected call can fail, which ends the turn; that is not modelled.
- Pausing of queues, cancellation of sessions, and steering signals: flags and goroutines without a law of their own.
