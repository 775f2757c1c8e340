# BigBrother core, verified in Dafny

This project models the parts of the repository whose correctness is hardest to see from the code, and proves what they
promise. There are four groups.

* **Streaming JSON and proxy reconstruction** (`crates/pa-agent/src/proxy.rs`). A tolerant string repairer, a state
  machine that closes truncated JSON, an accumulator that reparses only after enough growth, a reducer that rebuilds a
  message from deltas, and a newline framer over arbitrary chunks. Modules `JsonText`, `JsonRepair`, `JsonGrammar`,
  `PartialJson`, `PartialJsonShape`, `PartialJsonBrackets`, `StreamingParse`, `FlatFields`, `FlatCuts`,
  `FlatCutsExact`, `NestedCuts`, `NumberCuts`, `Documents`, `DocumentCuts`, `DocumentCompletion`, `DocumentPreviews`,
  `DocumentStreaming`, `DocumentGrowth`, `DocumentRepair`, `FlatDocuments`, `Accumulator`, `Reconstruction`,
  `ReconstructionFold`, `ReconstructionHistory`, `ProxyRun`.
* **Agent runs, queues and the event stream** (`crates/pa-agent/src/agent.rs`, `crates/pa-ai/src/event_stream.rs`). Each
  critical section is one atomic step; any number of callers interleave; invariants hold in every reachable state.
  Modules `AgentTypes`, `PendingQueue`, `AgentState`, `AgentRun`, `AgentTrace`, `EventStream`.
* **The CI coverage gate** (`scripts/ci_pr_crates.py`, `scripts/ci_test_shard.py`, `scripts/ci_test_shard_summary.py`).
  Crate selection, sharding and audit, with the end-to-end claim that green means covered. The dependency graph is
  arbitrary and both hash functions are parameters. Modules `PyText`, `PyValue`, `CrateSelection`, `TestShard`,
  `ShardAudit`, `CoverageGate`, `GateCompleteness`.
* **Schema validation and argv parsing** (`crates/pa-agent/src/validation.rs`, `crates/pa-cli/src/args.rs`). Modules
  `Validation`, `SchemaMeaning`, `ValidationLaws`, `CliFlags`, `CliArgs`, `CliFields`.

Code that updates state in place is a class or a loop, proved against a function of the old state; the laws are lemmas
about those functions. `dafny verify dfyconfig.toml` checks everything.

## Where code and documentation differ

* The comment on `complete_partial_json` promises results equal to those of the TypeScript `partial-json` library. A cut
  right after an object comma, inside a container that is a member value, or in a bare word that is one, previews the
  empty object instead (`CompletionReadsExactly`, `NestedCutFallsBack`, `WordMemberFallsBack`). A cut inside a
  `\uXXXX` previews the spelled-out escape (`EscapeCutIsSpelled`, `StreamedEverywhere`).
* The completed text is a balanced bracket word only if the input had no surplus or mismatched closer
  (`CompletedTextIsBalanced`).
* A list such as `["number", "string"]` makes coercion oscillate (`IdempotentExactlyUnmixed`,
  `CoerceIdempotentExactly`).
* The `--` separator is swallowed by a trailing `--export` after the internal marker (`SeparatorLawExactly`).
* Without a model override, the model recorded for a run and the model of its request come from two reads
  (`SessionModelReadTwice`, `SessionModelDrifts`).

## Model

| member | source | states |
|---|---|---|
| `JsonRepair.RepairPreservesMeaning` | crates/pa-agent/src/proxy.rs:606-680 | For every text, the strict decoding of the repaired text (RFC 8259 section 7, as UTF-16 code units) equals the lenient decoding of the original, in which a stray backslash and a raw control character stand for themselves; characters outside strings and the delimiting quotes are unchanged and in order, also for an unterminated string |
| `JsonRepair.RepairIsCleaning` | crates/pa-agent/src/proxy.rs:604-680 | The repaired text is always escape-clean; a text is its own repair exactly when it is escape-clean; so repairing is idempotent |
| `JsonRepair.CleanIsStrictlyReadable` | crates/pa-agent/src/proxy.rs:606-680 | Escape-clean, as defined independently of the repairer, is exactly what the strict decoder accepts, and there strict and lenient decoding agree |
| `JsonRepair.RepairJsonLoop` | crates/pa-agent/src/proxy.rs:624-680 | The index-and-flag loop computes the recursive repair that the laws above are about |
| `JsonRepair.RepairEscape` | crates/pa-agent/src/proxy.rs:645-671 | The backslash arm consumes a four-digit `\u` escape, a two-character escape, or doubles the backslash, and resumes right after what it consumed |
| `PartialJsonShape.CompletedTextIsSettled` | crates/pa-agent/src/proxy.rs:712-860 | For every input the completed text rescans to "outside any string, no open container", and completing it again changes nothing |
| `PartialJsonBrackets.CompletedTextIsBalanced` | crates/pa-agent/src/proxy.rs:738-857 | For every input the completed text is a word of the balanced bracket grammar exactly when the input has no surplus or mismatched closer outside strings |
| `PartialJsonShape.SpaceInArray` | crates/pa-agent/src/proxy.rs:838-857 | For any text cut inside an array: a comma and the whitespace after it are dropped before the array is closed, and other whitespace is kept |
| `PartialJson.ScanLoop` | crates/pa-agent/src/proxy.rs:713-805 | The character loop reaches the scanner state that the completion laws are about |
| `PartialJson.CompletePartialJson` | crates/pa-agent/src/proxy.rs:712-860 | Scanning, finishing the cut token and popping every container computes the completion that the laws are about |
| `StreamingParse.AcceptedTextIsComplete` | crates/pa-agent/src/proxy.rs:712-860 | A text accepted by the strict grammar of RFC 8259 leaves the scanner outside strings with no container open, and its completion is itself |
| `StreamingParse.RepairKeepsContainers` | crates/pa-agent/src/proxy.rs:624-680 | Repair opens and closes the same strings and containers as the original, seen by the completing scanner |
| `StreamingParse.OpenTextIsRejected` | crates/pa-agent/src/proxy.rs:682-691 | Neither a text with a string or container still open nor its repair is accepted by the strict grammar |
| `StreamingParse.CompleteDocumentIsItself` | crates/pa-agent/src/proxy.rs:865-880 | A complete document is read as itself: the tolerant stages never alter it |
| `FlatCuts.CompletedCut` | crates/pa-agent/src/proxy.rs:712-860 | For every flat object of string members and every cut of its compact text, the completion parses to the preview exactly when the cut is neither right after a member comma nor inside a `\uXXXX`; otherwise the grammar rejects it |
| `FlatCuts.StreamedPreview` | crates/pa-agent/src/proxy.rs:865-880 | At every such readable cut the streaming parse shows exactly that preview |
| `FlatCutsExact.StreamedPreviewExactly` | crates/pa-agent/src/proxy.rs:865-880 | Over all four stages the streaming parse shows the preview if and only if the cut is readable |
| `FlatCutsExact.CommaCutFallsBack` | crates/pa-agent/src/proxy.rs:865-880 | Counterexample family: right after any member comma the streaming parse is the empty object |
| `FlatCutsExact.EscapeCutIsSpelled` | crates/pa-agent/src/proxy.rs:865-880 | At every cut of a flat object inside a `\uXXXX` the streaming parse shows the complete members and the cut member with the escape spelled out as the characters it is made of |
| `FlatCuts.PreviewShape` | crates/pa-agent/src/proxy.rs:712-880 | A preview is the members already complete, in order, then at most one cut member whose value is null or a prefix of its final string |
| `FlatCuts.PreviewGrows` | crates/pa-agent/src/proxy.rs:712-880 | From one cut to a later one no shown member is lost or reordered, and the value shown for the cut member only grows |
| `FlatCuts.WholeObjectReads` | crates/pa-agent/src/proxy.rs:865-880 | The uncut object parses to all its members, by the strict grammar and by the streaming parse, and its completion is itself |
| `NestedCuts.NestedCutFallsBack` | crates/pa-agent/src/proxy.rs:748-765 | For every input, well-formed or not: while a container is open as the value of an object member, the streaming parse is the empty object, since the opener does not mark the member value as seen and closing the object appends a stray `null` |
| `NestedCuts.StrayIsRejected` | crates/pa-agent/src/proxy.rs:838-857 | The strict grammar rejects every text in which a closer is directly followed by `null` and no quotation mark comes after |
| `DocumentRepair.StreamedEverywhere` | crates/pa-agent/src/proxy.rs:865-880 | For every JSON document and every cut of its compact text, without exception, the value shown: the preview when the cut reads, the preview with the cut escape spelled out when it is torn and that one reads, the empty object otherwise |
| `DocumentPreviews.CompletionReadsExactly` | crates/pa-agent/src/proxy.rs:712-860 | For every document and every cut: the completion is accepted exactly when the cut reads, and then it is the preview. A cut reads unless it is empty, inside a container that is a member value, right after an object comma, inside a `\uXXXX`, in a word that is cut or that is a member value, or right after a minus that is not the first item of an array |
| `DocumentStreaming.StreamedCut` | crates/pa-agent/src/proxy.rs:865-880 | At every cut that reads, the first stage to accept shows the preview |
| `DocumentGrowth.PreviewGrowsOn` | crates/pa-agent/src/proxy.rs:712-860 | For every document, from a cut that reads to any later cut the preview only grows: numbers and strings are continued, containers keep every entry but the last, which grows; a member shown with null may still complete its key and get its value |
| `DocumentGrowth.StreamedGrows` | crates/pa-agent/src/proxy.rs:865-880 | Between any two cuts that read, the streaming parse shown to the client only grows in that sense |
| `FlatDocuments.SameCut` | crates/pa-agent/src/proxy.rs:712-860 | For objects of string members the flat and the document definitions of text, readable cuts and previews agree at every cut |
| `DocumentStreaming.OpenMemberIsBuried` | crates/pa-agent/src/proxy.rs:748-757 | For every key, a container just opened as its value leaves the object waiting for a value around an open container, and previews nothing |
| `DocumentStreaming.WordMemberFallsBack` | crates/pa-agent/src/proxy.rs:838-857 | For every key, `true`, `false` and `null` as its value, cut or whole, preview nothing until a comma or brace follows |
| `DocumentCompletion.CompleteDoc` | crates/pa-agent/src/proxy.rs:807-857 | In any surrounding text, completing a cut document completes the cut itself, then closes the containers around it as they stood |
| `DocumentCuts.CutDoc` | crates/pa-agent/src/proxy.rs:720-805 | After any cut of a document all containers open before are still open, all but the innermost untouched; a cut inside a member value leaves that object waiting for a value |
| `DocumentRepair.MendDoc` | crates/pa-agent/src/proxy.rs:624-680 | Repairing a cut inside a `\uXXXX` gives a cut of the document whose string spells the escape out |
| `Documents.ReadDoc` | crates/pa-agent/src/proxy.rs:865-880 | Round trip: the compact text of a document is read back as the document, whatever delimiter follows |
| `NumberCuts.TrimmedNumber` | crates/pa-agent/src/proxy.rs:826-836 | Trimming any cut of a number stops right after a digit, and nothing is left exactly of a lone minus |
| `NumberCuts.PrefixIsNumber` | crates/pa-agent/src/proxy.rs:826-836 | Every prefix of a number that ends with a digit is a number of the grammar |
| `Accumulator.AppendKeepsPreview` | crates/pa-agent/src/proxy.rs:910-919 | After every append the shown preview is the parse of a prefix of the text. A new parse, of all of it, is made unless the text is over 8192 UTF-16 units and grew by less than 1/16 of the parsed length |
| `Accumulator.FlushMakesCurrent` | crates/pa-agent/src/proxy.rs:923-925 | After a flush the preview is the parse of the whole text |
| `Accumulator.TotalParsedIsLinear` | crates/pa-agent/src/proxy.rs:910-919 | Over any append sequence the lengths parsed beyond 8192 units sum to at most 17 times the final length |
| `Accumulator.ParsesAreLogarithmic` | crates/pa-agent/src/proxy.rs:910-919 | k such parses force 8192*17^(k-1) < L*16^(k-1) for the final length L |
| `Accumulator.StreamingJsonAccumulator.Append` | crates/pa-agent/src/proxy.rs:910-921 | The in-place update is the modelled append, and keeps the cached UTF-16 length equal to that of the text |
| `Accumulator.StreamingJsonAccumulator.Flush` | crates/pa-agent/src/proxy.rs:923-925 | The in-place update is the modelled flush: it parses only when the parsed length is behind |
| `ReconstructionHistory.EventIsShown` | crates/pa-agent/src/proxy.rs:387-583 | Every event is rejected exactly when it is for a block of another kind or for none, dropped exactly when it ends a tool call where there is none, and otherwise passed on with the block it finishes and the message as they stand after it |
| `ReconstructionHistory.StreamEntry` | crates/pa-agent/src/proxy.rs:387-583 | Over every accepted sequence the consumer sees the events in order, each with the message after the events up to it |
| `ReconstructionHistory.MessageEndsAs` | crates/pa-agent/src/proxy.rs:551-583 | Over every accepted sequence stop reason and usage are those of the last done or error event, reason by reason, and the error text that of the last error; without one they are the initial ones |
| `ReconstructionHistory.BlockIsItsHistory` | crates/pa-agent/src/proxy.rs:387-550 | Over every accepted sequence there is a block for every index up to the largest started, of the kind last started there, with its id and name, or the deltas and the signature received since |
| `ReconstructionFold.RunRefines` | crates/pa-agent/src/proxy.rs:387-583 | Over every event sequence the reducer accepts exactly what a plain fold of deltas accepts; then every block agrees, and each tool call with an open accumulator shows the parse of a prefix of its accumulated text |
| `ReconstructionFold.BlocksAreTheirDeltas` | crates/pa-agent/src/proxy.rs:406-549 | Over every accepted sequence a text or thinking block is the concatenation of its deltas since its last start, and an open tool call that of its deltas since its last start or end |
| `ReconstructionFold.EndedCallIsItsDeltas` | crates/pa-agent/src/proxy.rs:529-549 | From its `toolcall_end` on, until it is started again or added to, a tool call shows the parse of all its deltas since its last start or end |
| `ReconstructionFold.TerminalEventsAreCurrent` | crates/pa-agent/src/proxy.rs:529-583 | After `toolcall_end` that call, and after an error event every call with an open accumulator, shows the parse of all of its text |
| `ReconstructionFold.FailurePathIsCurrent` | crates/pa-agent/src/proxy.rs:588-602 | Settling after any accepted sequence makes every open tool call show the parse of all of its text |
| `Reconstruction.ProxyReconstruction.ProcessEvent` | crates/pa-agent/src/proxy.rs:387-583 | Processing an event in place, over a heap of accumulators that are never shared between blocks, is one step of the reducer; a rejected event leaves the state as it was |
| `Reconstruction.ProxyReconstruction.SettlePartialToolCalls` | crates/pa-agent/src/proxy.rs:588-602 | Visiting the accumulators in any order settles exactly the tool calls that own one |
| `ProxyRun.SplitIsUnique` | crates/pa-agent/src/proxy.rs:343-363 | Splitting is the inverse of joining: any lines without LF, each ended by LF, and any tail without LF are recovered exactly |
| `ProxyRun.SplitRebuilds` | crates/pa-agent/src/proxy.rs:343-363 | The lines and the tail rebuild the bytes, and contain no LF |
| `ProxyRun.SplitResumes` | crates/pa-agent/src/proxy.rs:343-363 | Splitting a concatenation is splitting the first part and going on with its unterminated tail |
| `ProxyRun.ProxyClient.ReceiveChunk` | crates/pa-agent/src/proxy.rs:343-363 | Draining one chunk handles the lines of the buffer and the chunk, in order, and keeps the unterminated tail |
| `ProxyRun.ProxyClient.ReceiveAll` | crates/pa-agent/src/proxy.rs:332-363 | For every way to cut the bytes into chunks the loop handles the lines of the concatenation up to the first failure, and never the unterminated tail |
| `ProxyRun.ProxyClient.Conclude` | crates/pa-agent/src/proxy.rs:196-228 | A failed request settles the partial tool calls and pushes one terminal error event with the message as it then stands: stop reason aborted exactly when the signal was and error otherwise, the given error text, and the usage as it was |
| `ProxyRun.PayloadIs` | crates/pa-agent/src/proxy.rs:348-353 | A line counts exactly when it starts with the six bytes of `data: `, and its payload is what follows them |
| `ProxyRun.RunIsItsEvents` | crates/pa-agent/src/proxy.rs:332-363 | From any state, over any list of lines: the run accepts some first part of the events of its lines; the reducer ends where those lead, and what the consumer was sent is what it was, followed by what those events show, in order. It fails exactly when the next event is rejected or a line is no event |
| `ProxyRun.SuccessfulRun` | crates/pa-agent/src/proxy.rs:332-363 | A run that does not fail leaves the reducer where the accepted events of the lines, alone, lead |
| `EventStream.EveryInterleaving` | crates/pa-ai/src/event_stream.rs:112-268 | For every interleaving of pushes, ends, polls and result waiters: events received followed by the queue equal the accepted pushes in order; at most one accepted event is terminal, it is last and its message is the resolved result; a stored waker implies an empty queue and not done, a parked consumer that was not woken has its waker stored; a resolved stream has no pending waiter, no waiter is lost, and only the resolved message is ever returned |
| `EventStream.TerminationIsFinal` | crates/pa-ai/src/event_stream.rs:132-159 | Once done, no further run changes the accepted events; once resolved, none changes the result; a future that returned keeps its message |
| `EventStream.EndOfStreamMeansAllReceived` | crates/pa-ai/src/event_stream.rs:221-234 | When a poll reports the end, every accepted event was received, and nothing is accepted or received later |
| `EventStream.WaitersAreAnswered` | crates/pa-ai/src/event_stream.rs:244-264 | Once resolved, every future that waits gets the resolved message at its next poll |
| `EventStream.SharedState.PushEvent` | crates/pa-ai/src/event_stream.rs:132-147 | Keeps that a stored waker has nothing to wait for and a resolved stream owes nobody a message; nothing is accepted after the end; before it the event is queued, a stored waker is called, and a terminal event ends the stream and answers everyone who waits |
| `EventStream.SharedState.EndStream` | crates/pa-ai/src/event_stream.rs:149-158 | Keeps the same invariant; the stream is done with its queue unchanged, a stored waker is called, the first result wins and answers everyone who waits |
| `EventStream.SharedState.ResolveWith` | crates/pa-ai/src/event_stream.rs:114-124 | Only the first message resolves, and every waiter then registered gets it |
| `EventStream.SharedState.PollNext` | crates/pa-ai/src/event_stream.rs:221-234 | Keeps the same invariant; pending means empty, not done and the waker stored; the end is reported only when done and empty; otherwise the front of the queue is returned |
| `EventStream.SharedState.RegisterWaiter` | crates/pa-ai/src/event_stream.rs:244-257 | Keeps the same invariant; the waiter gets the result, or without one is now owed it |
| `PendingQueue.QueueConservesMessages` | crates/pa-agent/src/agent.rs:135-192 | Over any sequence of enqueue, drain, remove, clear and mode change: every enqueued batch is exactly one of drained, removed, cleared or still queued; what drains returned is the drained batches, whole and in FIFO order; what removals returned is the removed batches, whole; no queued batch is empty |
| `PendingQueue.DrainIsPrefix` | crates/pa-agent/src/agent.rs:163-173 | A drain returns the flattened front of the queue and leaves the rest, in both modes |
| `PendingQueue.EmptyDrainMeansEmptyQueue` | crates/pa-agent/src/agent.rs:163-173 | With no empty batch queued, a drain is empty exactly when the queue is |
| `PendingQueue.PendingMessageQueue.EnqueueBatch` | crates/pa-agent/src/agent.rs:148-157 | Keeps that no batch is empty; the queued messages are those before followed by the new ones |
| `PendingQueue.PendingMessageQueue.DrainBatches` | crates/pa-agent/src/agent.rs:163-173 | The drained messages followed by those left are those before, in either mode, and nothing drained means nothing was queued |
| `PendingQueue.PendingMessageQueue.RemoveWhere` | crates/pa-agent/src/agent.rs:179-191 | No batch with a match is left, none is empty, and what left and what stayed are together the messages before; the removed batches are whole and in order |
| `PendingQueue.TakeQueued` | crates/pa-agent/src/agent.rs:693-705 | Steering messages go first and leave the follow-ups untouched; nothing is taken exactly when both queues were empty; nothing is lost |
| `PendingQueue.RemoveQueued` | crates/pa-agent/src/agent.rs:1011-1025 | Over both queues no batch with a match is left, and what left and what stayed are together the messages before |
| `AgentState.TranscriptOfEvents` | crates/pa-agent/src/agent.rs:352-386 | Over every event sequence the transcript is the initial messages plus the ended messages in order, and the pending tool calls are exactly those started and not ended |
| `AgentState.RunShows` | crates/pa-agent/src/agent.rs:581-600 | At every point of a run, whatever was emitted so far, the state says that it streams, shows the message last started or updated unless one ended since, and has the error of this run alone |
| `AgentState.MutableAgentState.ObserveRun` | crates/pa-agent/src/agent.rs:352-601 | From start to release of a run, for whatever the loop emits: the transcript is extended by the ended messages in order, no streaming message and no pending call remains, and the error is that of the last failed turn |
| `AgentRun.AtMostOneRun` | crates/pa-agent/src/agent.rs:551-609 | In every reachable state at most one run holds the slot, `is_streaming` implies it is held, and while it is free no streaming message and no pending call remains |
| `AgentRun.WaiterReturnsAfterRelease` | crates/pa-agent/src/agent.rs:1062-1080 | `wait_for_idle` has returned only if the run it subscribed to was registered and has left the slot |
| `AgentRun.WaiterReturnsExactly` | crates/pa-agent/src/agent.rs:1062-1080 | In every reachable state a waiting call returns at its next look exactly when its run has left the slot |
| `AgentRun.AcceptedExactlyWhenRegistered` | crates/pa-agent/src/agent.rs:1124-1153 | `prompt_until_accepted` never reaches its `expect`, returns Ok only for a registered run, and a refusal only for one that was not |
| `AgentRun.RegisteredIsAccepted` | crates/pa-agent/src/agent.rs:1124-1153 | The converse: for a registered run the start signal is never dropped, so its caller is still waiting or has returned Ok |
| `AgentRun.OverrideIsOneSnapshot` | crates/pa-agent/src/agent.rs:403-593 | A run with a model override has one snapshot: slot model, request model, reasoning level and failure row all come from it |
| `AgentRun.SnapshotIsStable` | crates/pa-agent/src/agent.rs:551-593 | No later action, in particular `set_model` and `set_model_override`, changes the snapshot of a registered run |
| `AgentTrace.SessionModelReadTwice` | crates/pa-agent/src/agent.rs:494-593 | Over every trace, for a run without override: the model of its slot and that of its request are read at one step each, and they agree exactly when no model was set in between or the last one set is the one read first; the request carries the session model and reasoning level of the second read |
| `AgentTrace.SessionModelDrifts` | crates/pa-agent/src/agent.rs:494-593 | For any two models, a trace in which the request goes to the second while the slot records the first |
| `AgentRun.TranscriptGrows` | crates/pa-agent/src/agent.rs:352-484 | Over every run without an explicit edit, the transcript is what it was plus the messages ended and the failure rows, in order, whichever listeners fail |
| `AgentTrace.OneRowPerFailure` | crates/pa-agent/src/agent.rs:403-609 | Over every trace: a finished run that failed appended exactly one row to the transcript, at a known place in it, and one that succeeded none; the row carries the error its executor threw, the model of its slot, and its own abort signal as read after the failure |
| `AgentRun.ContinueRoute` | crates/pa-agent/src/agent.rs:1167-1206 | A continuation goes on at once exactly after a user message or a tool result; with no message, after an assistant message and after a custom one it drains the queues first, and only after a custom one does it go on when both are empty |
| `AgentRun.FailureIsShown` | crates/pa-agent/src/agent.rs:403-483 | A failed run first shows its error, then its row as the message being streamed, then the row at the end of the transcript with nothing streaming |
| `AgentRun.FailureOrder` | crates/pa-agent/src/agent.rs:403-483 | It does so in that order, with the same row throughout, and then releases the run as failed |
| `AgentRun.DrainsItsQueue` | crates/pa-agent/src/agent.rs:493-523 | A continuation and the loop of a run take from the front of the queue they name, keep its mode, and leave the other queue alone |
| `AgentRun.NothingToContinueMeansEmpty` | crates/pa-agent/src/agent.rs:693-705 | The continuation moves past a queue, and reports nothing to do, only if that queue was empty when drained, and always then |
| `CrateSelection.Closure` | scripts/ci_pr_crates.py:110-117 | The fixpoint loop ends with exactly the crates that reach a touched crate through the graph; the result is closed |
| `CrateSelection.LeastClosedSuperset` | scripts/ci_pr_crates.py:110-117 | That set is contained in every closed superset of the touched crates |
| `CrateSelection.CrateOfLiesIn` | scripts/ci_pr_crates.py:94-105 | The second path segment names a crate exactly when the path is `crates/<name>` or starts with `crates/<name>/` |
| `CrateSelection.SelectCrates` | scripts/ci_pr_crates.py:72-117 | It narrows exactly when the list is neither empty nor at the 3000-file ceiling and every path of every row, old or new, lies in a known crate; then the sorted result is exactly the crates the wave must test, among them the crate of every such path |
| `CrateSelection.SelectionSurvives` | scripts/ci_pr_crates.py:120-127 | What the second script decodes from the comma list is what the first selected; a narrowed selection never reads back as the full one |
| `CrateSelection.WorkspaceNamesArePlain` | scripts/ci_pr_crates.py:44-55 | Every crate name of the workspace graph can be carried by the comma list |
| `CrateSelection.ParseCrates` | scripts/ci_test_shard.py:248-253 | The decoded list is the sorted non-blank names, and no name at all means the full selection |
| `TestShard.UnitIdKeepsPackage` | scripts/ci_test_shard.py:90-101 | The package is recovered from the unit id it was put into |
| `TestShard.PickMine` | scripts/ci_test_shard.py:263-304 | A shard picks, in order, the selected units whose hash names it |
| `TestShard.RunShard` | scripts/ci_test_shard.py:302-344 | The manifest it writes lists every unit it owns once, with its exit code, and the selection |
| `ShardAudit.Audit` | scripts/ci_test_shard_summary.py:124-234 | The audit reports no problem exactly on a clean wave (defined declaratively over the manifests), and then its failed set is exactly the units with nonzero exit code |
| `ShardAudit.CleanIdentity` | scripts/ci_test_shard_summary.py:158-167 | In a clean wave no part of any identity is missing, empty, zero, a list or an object, and each agrees with what the environment knows |
| `ShardAudit.NoScopeIsFull` | scripts/ci_test_shard_summary.py:148-156 | A manifest without a scope claims the full selection |
| `ShardAudit.CheckShape` | scripts/ci_test_shard_summary.py:137-156 | A manifest passes the shape checks exactly when it is well-shaped |
| `ShardAudit.CheckEnumeration` | scripts/ci_test_shard_summary.py:169-182 | No problem exactly when every shard enumerated the same distinct ids with the digest they hash to |
| `ShardAudit.CheckSelection` | scripts/ci_test_shard_summary.py:184-199 | No problem exactly when every shard recorded the same scope and the selection it implies |
| `ShardAudit.AuditUnits` | scripts/ci_test_shard_summary.py:201-216 | The unit loop finds no problem exactly when every run so far was enumerated, in the shard its hash names, and not run before |
| `CoverageGate.LoadManifests` | scripts/ci_test_shard_summary.py:51-95 | Every shard gets its newest accepted attempt, independently, and no problem means every file was accepted and none repeats another |
| `CoverageGate.SummaryIsGreen` | scripts/ci_test_shard_summary.py:291-319 | Green exactly when loading had nothing to report, the wave is clean and nothing failed; the manifests audited are the newest accepted attempt of every shard that has one |
| `CoverageGate.CleanAndGreenIsCovered` | scripts/ci_test_shard_summary.py:124-234 | In a clean wave with nothing failed every selected unit ran exactly once, in the one shard its hash names, with exit code 0 |
| `CoverageGate.GreenGateIsSound` | scripts/ci_test_shard_summary.py:124-234 | End to end, for any dependency graph and any hashes: if the gate is green then for every changed path, old or new, every unit of the crate it lies in and of every crate that depends on that one, directly or not, ran exactly once, in its own shard, and passed; every unit of the workspace for `pa-types`; every unit when no narrowing was possible |
| `GateCompleteness.HonestWaveIsClean` | scripts/ci_test_shard_summary.py:98-234 | Completeness: when all shards write manifests after running exactly their assigned units, with the same distinct ids, scope and identity, the wave is clean exactly when neither part of the identity is empty and the environment agrees, and the failed set is exactly the units with nonzero exit code |
| `GateCompleteness.HonestFilesDecide` | scripts/ci_test_shard_summary.py:51-234 | Completeness from the files up: honest files of distinct attempts, at least one of every shard, load without a problem into a clean wave, and nothing failed exactly when every selected unit returned 0 in the newest attempt of its shard |
| `GateCompleteness.SummarizeHonest` | scripts/ci_test_shard_summary.py:291-319 | On such files the summary job is green exactly when every selected unit returned 0 in the newest attempt of its shard |
| `GateCompleteness.ManifestReadsBack` | scripts/ci_test_shard.py:195-224 | Everything the auditor extracts from a written manifest is what was written |
| `Validation.FaultlessIsConforming` | crates/pa-agent/src/validation.rs:165-283 | Checking finds no fault exactly on values that conform to the schema, by a declarative definition |
| `SchemaMeaning.ConformsMeans` | crates/pa-agent/src/validation.rs:165-313 | Conformance, keyword by keyword of the schema as JSON: type names, enum, const, required, properties, additionalProperties, items, minimum and maximum |
| `SchemaMeaning.CoercedAt` | crates/pa-agent/src/validation.rs:100-139 | At every path into the value, coercion changes exactly what a schema governs, and coerces it by that schema; nothing appears, disappears or moves |
| `SchemaMeaning.ScalarIsConverted` | crates/pa-agent/src/validation.rs:55-98 | What becomes of every scalar at every path: the first type its schema lists that asks for a conversion decides. A text becomes the boolean it spells in any case with space around it, or the number it parses to, an integer exactly when whole and below 2^53; a boolean or number becomes its text |
| `SchemaMeaning.ConvertedHasType` | crates/pa-agent/src/validation.rs:55-98 | A converted value has the type that asked for it, except that a text parsing to no finite number becomes null |
| `SchemaMeaning.BooleansReadBack` | crates/pa-agent/src/validation.rs:77-95 | A boolean asked for as text is its JSON text, and converts back |
| `SchemaMeaning.NumbersReadBack` | crates/pa-agent/src/validation.rs:62-93 | A number whose text parses to its value converts to text and back to itself exactly when it is in the form parsing gives |
| `SchemaMeaning.TypesInOrder` | crates/pa-agent/src/validation.rs:44-50 | The types of a list are its strings, in order |
| `ValidationLaws.IdempotentExactlyUnmixed` | crates/pa-agent/src/validation.rs:55-98 | Converting a value for a type list twice is converting it once, for every value, exactly when the list does not mix `string` with a type strings convert to |
| `ValidationLaws.UnchangedExactlyPlain` | crates/pa-agent/src/validation.rs:55-98 | Conversion leaves every value of an allowed type alone exactly when the list, besides, has no open type next to a converting one |
| `ValidationLaws.SingleTypedIsEnough` | crates/pa-agent/src/validation.rs:55-139 | Schemas with at most one type per node meet the condition for idempotence, and without object-valued `additionalProperties` also the one for leaving conforming values alone |
| `ValidationLaws.CoerceIsIdempotent` | crates/pa-agent/src/validation.rs:55-139 | Over every JSON value, coercion is idempotent on schemas whose every reachable node is unmixed, whatever the number library |
| `ValidationLaws.CoerceIdempotentExactly` | crates/pa-agent/src/validation.rs:55-139 | Coercion by a schema is idempotent over every JSON value exactly when every node coercion can reach is unmixed |
| `ValidationLaws.CoerceKeepsShape` | crates/pa-agent/src/validation.rs:55-139 | Coercion keeps all object key sets and array lengths, at every depth, for every schema |
| `ValidationLaws.ValidatedArgumentsAreStable` | crates/pa-agent/src/validation.rs:15-42 | Arguments returned by validation conform, and validate again to themselves |
| `ValidationLaws.ConformingIsUnchanged` | crates/pa-agent/src/validation.rs:55-139 | Where every type list is plain and every schema of additional properties, which checking skips, is inert, a conforming value is returned unchanged |
| `ValidationLaws.ConformingUnchangedExactly` | crates/pa-agent/src/validation.rs:55-139 | In schemas where only `type`, `properties` and `items` reject, every conforming value is returned unchanged exactly under that condition |
| `ValidationLaws.IdentityExactlyInert` | crates/pa-agent/src/validation.rs:55-139 | Coercion by a schema is the identity on every value exactly when no type list it can reach asks for a conversion |
| `Validation.Check` | crates/pa-agent/src/validation.rs:165-283 | The accumulating recursion adds exactly the located faults of the value to those found before |
| `Validation.ValidateToolArguments` | crates/pa-agent/src/validation.rs:15-42 | Valid exactly when the coerced arguments conform to the schema; a valid outcome holds those, an invalid one at least one fault |
| `Validation.CoerceValue` | crates/pa-agent/src/validation.rs:55-139 | The recursion that converts a value, then overwrites its members and items one by one, computes the coercion the laws are about |
| `Validation.ConvertFirst` | crates/pa-agent/src/validation.rs:55-98 | The loop over the type list applies the first conversion that succeeds, and none after it |
| `CliArgs.SeparatorLaw` | crates/pa-cli/src/args.rs:220-506 | For every prefix without `--` and without the internal marker and every tail, parsing the prefix, `--` and the tail equals parsing the prefix, with the tail appended verbatim to the messages and all other fields and diagnostics the same |
| `CliArgs.SeparatorLawExactly` | crates/pa-cli/src/args.rs:220-506 | With the marker allowed, the law holds for every tail exactly when, walking the tokens after the marker, the last one visited is not `--export` |
| `CliArgs.TurnConsumes` | crates/pa-cli/src/args.rs:220-506 | Whether a token takes the next one depends on the two tokens and the marker alone, not on what was parsed before |
| `CliArgs.ExportLosesDiagnostic` | crates/pa-cli/src/args.rs:330-348 | The failing family: a trailing internal `--export` takes `--` as its file, so its missing-value diagnostic is lost |
| `CliArgs.ExportTakesSeparator` | crates/pa-cli/src/args.rs:330-348 | At the argv of the marker and `--export`: alone it reports the missing value, and followed by `--` it exports to a file of that name |
| `CliArgs.SeparatorIsNoValue` | crates/pa-cli/src/args.rs:486-506 | No other flag, whatever it looks ahead for, treats a following `--` as its value |
| `CliFlags.Named` | crates/pa-cli/src/args.rs:220-506 | The match over tokens finds exactly the flag a token names, and no two flags share a name |
| `CliFields.TextsEnd` | crates/pa-cli/src/args.rs:220-506 | For every argv, walking its tokens: provider, model, key, directory, prompt, socket, fork and session directory each hold the last value their flag took, and nothing without one |
| `CliFields.ListsEnd` | crates/pa-cli/src/args.rs:220-506 | Appended prompts, skills, templates, themes and gates are the values their flag took, in order |
| `CliFields.NumbersEnd` | crates/pa-cli/src/args.rs:192-218 | Every number field is the last value its flag took if that is positive and below 2^32 or 2^64, and nothing otherwise |
| `CliFields.ChoicesEnd` | crates/pa-cli/src/args.rs:220-506 | Mode and thinking level are the last valid name their flag took, the goal its last non-blank text, and the models the trimmed items of the last comma list |
| `CliFields.SwitchesEnd` | crates/pa-cli/src/args.rs:220-506 | Every switch is on exactly when one of its names was visited |
| `CliFields.AutonomousEnds` | crates/pa-cli/src/args.rs:365-413 | Autonomous mode is on exactly when one of its eight flags was visited, with or without a value |
| `CliFields.RestEnds` | crates/pa-cli/src/args.rs:274-482 | Resume selectors, print mode, export file, model search, prompts and files come, in order, from the tokens that name them; prompts are followed by what comes after the separator |
| `CliFields.ReportsEnd` | crates/pa-cli/src/args.rs:220-506 | The diagnostics are those of the visited tokens, in order, and at the end the one about a budget without a goal |
| `CliArgs.ParseArgs` | crates/pa-cli/src/args.rs:220-482 | The indexed loop with its end-of-options flag computes the parse the laws are about |

## Left out

- HTTP, TLS, request building and abort racing of the proxy client: input and output over libraries outside the repository; a payload decoder is a parameter.
- `crates/pa-agent/src/agent_loop.rs`, providers, the daemon and the observer: the agent loop is an arbitrary source of events during a run.
- `Agent::event_sink`: it can feed events outside a run, so it is not part of the run model.
- Panics and cancelled futures inside a run: a run always reaches its release step.
- No loss of queued messages when another caller takes the run slot between the busy check and registration: conservation is stated up to the drain.
- Liveness of `crates/pa-agent/src/stream.rs`: it rests on notification semantics outside the repository.
- Texts of error messages, timestamps and rounding of 64-bit floats; number parsing and printing are parameters, with the one assumption, where an if-and-only-if needs it, that a printed 1 parses back as a number.
- The recursion limit of the strict parser, numbers it rejects as out of range and its rejection of lone surrogates: `JsonGrammar` is the grammar of RFC 8259 without them.
- Byte positions of the completing scanner: positions are character indices, which select the same text.
- The scanner's two stacks, of kinds and of expectations, are one stack of pairs; the unused `last_comma` is dropped.
- The flat field list of `Args`: its fields are grouped in records by how flags fill them, and the tokens the parser matches are a datatype (`CliFlags`).
- Reading the change list: its rows are given as pairs of paths, so the tab-separated file is not modelled.
- Coercion in place: `coerce` and `coerce_children` return the new value instead of overwriting the old one, so aliasing within one JSON tree, which it cannot have, is not modelled.
- ValidationLaws.ConformingUnchangedExactly: the converse needs schemas in which only `type`, `properties` and `items` reject; with `enum`, `const`, bounds or `required`, whether a conforming value reaches a converting node depends on those values.
- Validation.Check: states the set of located faults, not their order or the formatting of their paths; objects are maps, so the order in which members are visited is not expressible.
- ShardAudit.Audit: Python values are compared by structure, so the equality of 1, 1.0 and True is not modelled; and problem texts are constructors.
- CoverageGate.LoadManifests: the shard and attempt numbers in a file name are given, so the regular expression that extracts them is not modelled.
- CrateSelection.SelectionSurvives: needs names without commas or surrounding space, which every crate of the workspace has (`WorkspaceNamesArePlain`).
- Documents cut after whitespace: the laws over all cuts are about compact text; `NestedCutFallsBack`, `CompletedTextIsSettled` and `CompletedTextIsBalanced` hold for every input.
- Test enumeration through Cargo, the run of one unit and the merged report: subprocess and text plumbing.
- `models_generated.rs`, `command_registry.rs`, `config.rs`, `registry.rs`, `client_*.rs`, login, daemon mode, pricing and budget arithmetic, release and packaging scripts: tables, lookups, thin wrappers and one-step arithmetic would only add easy members.
