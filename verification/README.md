# Oxydra: a verified model

Oxydra is an agent orchestrator written in Rust. This project models the parts of it whose
correctness does not show in any one function, and proves what those parts promise. The models
follow the code: where its comments say something else, the code is followed and the difference
is listed at the end of this section.

- **Turn protocol** (`TurnProtocol`, `TurnInvariants`, `TurnTheorems`, `TurnRuns`,
  `TurnLatest`, `TurnOutcomes`). Many tasks share a session's `active_turn` slot, a per-user queue counter, a
  semaphore and cancellation tokens. The protocol is a state machine with one step for each lock section, atomic operation
  or await, the load and the compare-exchange of the queue counter being separate steps. The
  theorems hold in every state that any interleaving of submits, cancels and turn tasks reaches,
  with client-chosen (possibly repeated) turn ids.
- **Event streams** (`Utf8`, `Utf8Scalars`, `Sse`, `SseTheorems`, `SseBytes`). Two byte-at-a-time
  parsers as classes, proved against a specification by lines and blocks, with a writer for round
  trips and what the standard says of comments, fields and line ends, on the bytes themselves.
- **Tool-call accumulators** (`ToolCalls`).
- **Memory store** (`EventRows`, `Memory`, `MemoryRuns`, `ChunkIndex`, `IndexClashes`,
  `RuntimeMemory`, `StoredFields`). One session's tables as fields of a class, each transaction one atomic
  operation that rolls back on an error. Runs are arbitrary serial orders of transactions.
- **Hybrid ranking** (`HybridRank`, `HybridQuery`, `HybridAnswers`), over real numbers.
- **Delivery routes** (`ContextId`, `DeliveryRoute`): the streak and remap statements, run from
  concurrent senders.
- **Kernels**: `CivilDate`, `Markdown` and `MarkdownTheorems`, `SplitMessage`, `TextChunks`,
  `ShellOutput`.

Seven properties one might expect turned out to hold only in part. Each comes with the inputs or
runs on which it fails and the exact condition under which it holds:

- `split_message` does not terminate on every text: `SplitMessage.HaltsExactlyWithoutTrap` gives
  the exact condition on single-byte texts, `SplitMessage.LongWordAfterSpace` a short text that
  fails it.
- `split_message` panics when a limit falls inside a character, before it looks for a break:
  `SplitMessage.AccentAtTheLimit` is such a text, and of the valid texts exactly the single-byte
  ones are safe at every limit (`SplitMessage.NeverPanicsExactlyWhenAscii`).
- `markdown_to_telegram_html` does not escape double quotes, so a link can leave its attribute: a
  reader whose addresses end at the first quote refuses every `[x](a"b)`
  (`MarkdownTheorems.QuotedAddressIsRefused`) and accepts an output exactly when no link in it has a
  quote in its address (`MarkdownTheorems.OutputIsWellFormed`).
- `latest_terminal_frame` may belong to an older turn although a newer one has reset it
  (`TurnLatest.StaleTerminalFrame`). This can follow an admission if and only if, at that moment,
  some turn has emptied the slot and not yet stored its frame (`TurnLatest.GoesStaleExactlyInGap`),
  so never for a client that waits for the terminal frame before it submits again
  (`TurnLatest.WaitingClientIsSafe`).
- Turns of one session id can overlap, as exclusion is per session object:
  `TurnRuns.SameIdOverlapsExactly` says exactly when.
- A route can be remapped right after a successful delivery to it, as the increment and the remap
  are two statements (`DeliveryRoute.RemapAfterRecovery`). A remap finds its route failing exactly
  when no success was reported since its own increment, or the threshold was met again since
  (`DeliveryRoute.StreakAtRemap`). The code's comment calls the gap benign and speaks of an edited
  route only.
- Deleting a note also deletes a tool result whose call has the note's name, but not its chunks;
  a later note that gets the freed sequence can then fail (`IndexClashes.ReusedSequenceClashes`).
  `IndexClashes.IndexingFailsExactlyOnClash` and `IndexClashes.StoredExactly` say exactly when,
  `IndexClashes.ReservedRunsNeverClash` and `IndexClashes.MessagesNeverClash` where it cannot. The
  shipped memory tools keep notes in a session of their own (crates/tools/src/memory_tools.rs:23-26),
  so the clash needs another caller of the store, one that puts messages and notes in one session.

Where code and comments differ: the comment on `append_json` (crates/provider/src/anthropic.rs:754-760)
says that the delta carries the full accumulated arguments, while the code emits the new fragment
only; the model emits the fragment.

## Model

| member | source | states |
|---|---|---|
| TurnTheorems.ActiveTurnHasOneOwner | crates/gateway/src/lib.rs:1009-1045 | In every reachable state a session object's `active_turn` is set exactly while one unique task owns it (admitted, not yet cleared or rolled back), and it carries that task's turn id and token. |
| TurnTheorems.RunTurnIsExclusive | crates/gateway/src/lib.rs:1142-1198 | Two `run_turn` calls on one session object never overlap, even when turn ids repeat. |
| TurnTheorems.OnlyTheOwnerClears | crates/gateway/src/lib.rs:1317-1325 | A slot that is set changes only by a step of the task it belongs to, which clears it or rolls it back, and then it is empty. |
| TurnTheorems.ClearingFindsItsOwnTurn | crates/gateway/src/lib.rs:1079-1087 | The turn-id comparison before clearing always succeeds and never empties another turn's slot. |
| TurnTheorems.QueueAndPermitsAreAccounted | crates/gateway/src/session.rs:40-68 | `queued_turns` is the number of enqueued tasks not past permit acquisition and at most the limit; free and held permits add up to the concurrency limit; running turns hold permits, so no more run than allowed. |
| TurnTheorems.FetchSubNeverUnderflows | crates/gateway/src/session.rs:66-66 | The decrement after permit acquisition never meets zero. |
| TurnTheorems.FramesFollowTheProtocol | crates/gateway/src/lib.rs:1055-1327 | A turn's published frames always begin a complete trace (a lone terminal frame, or TurnStarted, streamed frames and one terminal frame) and are complete when it has finished; a rejected or rolled-back submit publishes nothing; a turn ends without a permit only when it was cancelled. |
| TurnTheorems.TerminalFrameIsLast | crates/gateway/src/lib.rs:1202-1327 | A complete trace has its terminal frame at its end and nowhere else, and TurnStarted at most at its start. |
| TurnTheorems.CancelledInTimeNeverStarts | crates/gateway/src/lib.rs:1094-1115 | A token cancelled before the check after the permit means, in every continuation, no TurnStarted and no `run_turn`; the turn publishes at most TurnCancelled, and exactly that once finished. |
| TurnTheorems.CancelSparesLaterTurns | crates/gateway/src/lib.rs:1362-1370 | A cancel call changes no turn admitted after it read the slot (which turn it cancels is `TurnOutcomes.CancelReachesTheOwner`). |
| TurnTheorems.CancelledByAnEarlierRead | crates/gateway/src/lib.rs:422-446 | Every cancelled turn was the one that some fired cancel call found in its own session's slot, after it was admitted. |
| TurnOutcomes.CancelReachesTheOwner | crates/gateway/src/lib.rs:1362-1370 | A cancel call that reads the slot while a turn owns it cancels that turn's token when it fires, whatever happens in between and whatever the turn is doing, and the token stays cancelled in every continuation. |
| TurnOutcomes.CancelledWaiterCanLeave | crates/gateway/src/session.rs:56-68 | A cancelled turn that waits for a permit can end by its own steps alone, taking no permit, although none may be free. |
| TurnOutcomes.StreamPublishes | crates/gateway/src/lib.rs:1156-1192 | Text, progress and media each publish their own frame under the turn and nothing else does; a policy stop, and only it, notes its stop reason. |
| TurnOutcomes.OutcomeIsTold | crates/gateway/src/lib.rs:1202-1327 | When `run_turn` has ended, then in every continuation the finished turn's last frame is TurnCompleted exactly for success, TurnCancelled exactly for a cancellation and an error frame exactly otherwise, and so is the stored terminal frame if it is this turn's. |
| TurnOutcomes.StopReasonIsTheOutcomes | crates/gateway/src/lib.rs:1202-1315 | When the turn goes on to empty its slot, the session's stop reason is the one of its outcome, whatever other turns did in between. |
| TurnTheorems.EveryRunCanDrain | crates/gateway/src/lib.rs:1055-1327 | From every reachable state all turns can still end, leaving empty slots, empty queues and all permits free: no deadlock and nothing leaked. |
| TurnInvariants.ReachableInv | crates/gateway/src/lib.rs:994-1343 | The invariant of slots, counters, permits, traces and cancellations holds after every run. |
| TurnInvariants.StepKeepsInv | crates/gateway/src/lib.rs:994-1343 | Every single step of a turn task keeps that invariant. |
| TurnRuns.LatestFrameIsGenuine | crates/gateway/src/lib.rs:1326-1327 | The stored terminal frame is always the one a turn of that same session object is publishing or published last. |
| TurnRuns.SameIdOverlapsExactly | crates/gateway/src/lib.rs:231-248 | From every reachable state, turns on two given objects of one session id can come to run at the same time if and only if the objects differ, the queue has a place, and there are permits for both (two when they are one user's). |
| TurnRuns.SameSessionIdMayOverlap | crates/gateway/src/lib.rs:231-248 | For every configuration with two permits and a queue place, and every id and user, a reachable state whose two session objects carry the id and can come to run turns side by side. |
| TurnLatest.GoesStaleExactlyInGap | crates/gateway/src/lib.rs:1009-1028 | For every admission in a reachable state: some continuation stores an older turn's frame after the admitted turn's reset if and only if, at the admission, some turn of the object has emptied the slot and not yet stored its frame. |
| TurnLatest.GapFreeRunsAreCurrent | crates/gateway/src/lib.rs:1317-1327 | In every run without such admissions on an object, the frame stored there is never one of a turn admitted before a turn that has reset it. |
| TurnLatest.WaitingClientIsSafe | crates/gateway/src/lib.rs:1326-1327 | The same for every run in which turns are submitted to the object only after all earlier ones were refused or published their terminal frame. |
| TurnLatest.StaleTerminalFrame | crates/gateway/src/lib.rs:1317-1327 | From every reachable state, on every session object, some continuation stores an older turn's frame after a newer turn has reset it (given a permit and a queue place). |
| Sse.SseEventParser.PushChunk | crates/provider/src/openai.rs:917-928 | Feeding a chunk does to buffer, type and data what the byte machine does, and returns its events, or an error without the events met before it. |
| Sse.SseEventParser.Finish | crates/provider/src/openai.rs:930-938 | The end of input processes the unfinished line and flushes the pending event. |
| Sse.SseEventParser.ProcessLine | crates/provider/src/openai.rs:940-976 | One line's effect, agreeing with the line specification, errors included. |
| Sse.SseDataParser.PushChunk | crates/provider/src/openai.rs:833-844 | The same for the data parser; an error drops the payloads of that chunk. |
| Sse.SseDataParser.Finish | crates/provider/src/openai.rs:846-854 | The end of input for the data parser. |
| Sse.SseDataParser.ProcessLine | crates/provider/src/openai.rs:856-882 | One line's effect for the data parser. |
| SseTheorems.CutsDoNotMatter | crates/provider/src/openai.rs:917-938 | Every way of cutting a stream into chunks gives the events, or the failure, of the uncut stream, from any parser state. |
| SseTheorems.ParserComputesMeaning | crates/provider/src/openai.rs:940-989 | Any cut of any stream yields what the stream means by lines and blank-line-separated blocks, defined without the byte machine; it fails exactly when some line does not decode. |
| SseTheorems.CallerGetsAPrefix | crates/provider/src/openai.rs:833-854 | For every stream, failing or not, and every cut: the events that the calls before the error returned, followed by those that the failing call dropped, are the events of the blocks closed before the first bad line (all of the stream's without one); so the caller has a prefix of them, and all of them exactly when the chunk with the bad line completes no event before it. |
| SseBytes.CommentsMeanNothing | crates/provider/src/openai.rs:952-954 | A line that begins with a colon may stand before any line and changes nothing of what the stream means. |
| SseBytes.SilentLinesMeanNothing | crates/provider/src/openai.rs:956-975 | So may any other non-blank line that begins neither with the bytes of `data:` nor, where types are read, with those of `event:`. |
| SseBytes.CrLfEndsALine | crates/provider/src/openai.rs:941-945 | CRLF ends any line as LF does. |
| SseBytes.SpaceIsOptional | crates/provider/src/openai.rs:956-973 | One space behind the colon of a field may be left out, anywhere in a stream. |
| SseBytes.FailsExactlyOnBadField | crates/provider/src/openai.rs:940-976 | Parsing fails, over every cut, exactly when some line is a data field, or where types are read an event field, whose value is not UTF-8. |
| SseBytes.LastTypeCounts | crates/provider/src/openai.rs:956-965 | Of two types of one event the last counts. |
| SseBytes.TypeWithoutDataIsDropped | crates/provider/src/openai.rs:985-988 | A type without data is discarded at the blank line. |
| SseBytes.EndCompletesTheEvent | crates/provider/src/openai.rs:930-938 | Every stream means the same with a line end and a blank line added: its end completes the last line and the last event. |
| Utf8Scalars.ValidExactlyWhenEncoded | crates/provider/src/openai.rs:961-962 | A byte string decodes exactly when it is the encoding of some Unicode scalar values. |
| SseTheorems.TypedAgainstUntyped | crates/provider/src/openai.rs:891-903 | The event parser accepts exactly what the data parser accepts and in which no `event:` line has a value that is not UTF-8, and without the types its events are the data parser's payloads. |
| SseTheorems.WrittenEventsComeBack | crates/provider/src/openai.rs:940-989 | For both parsers: written events, cut anywhere, come back with a carriage return dropped at each line end, and with their types from the event parser. |
| SseTheorems.RoundTrip | crates/provider/src/openai.rs:940-989 | The round trip is the identity exactly for events without a carriage return before a line end. |
| SseTheorems.DataRoundTrip | crates/provider/src/openai.rs:856-889 | The data parser accepts any written events, whatever their types, and returns exactly their payloads (empty and multi-line ones included) if and only if no payload line ends in a carriage return. |
| ToolCalls.AnthropicToolCallAccumulator.StartTool | crates/provider/src/anthropic.rs:726-751 | Starting a block takes the next ordinal and resets the block's entry. |
| ToolCalls.AnthropicToolCallAccumulator.AppendJson | crates/provider/src/anthropic.rs:762-787 | A fragment is appended and emitted under the block's ordinal, which is assigned on the fly if it has none. |
| ToolCalls.AnthropicOrdinals | crates/provider/src/anthropic.rs:726-787 | Over every event sequence current ordinals are distinct and below the next one, the fragments emitted under a block's current ordinal join to its arguments even after a restart, and the ordinals have no gap exactly when no start names a block that an earlier event has named. |
| ToolCalls.AnthropicDelta | crates/provider/src/anthropic.rs:726-787 | Every event emits one delta under its block's ordinal: a start its own id and name without arguments, a fragment the id and name its block was last started with and the fragment, if not empty. |
| ToolCalls.ResponsesToolCallAccumulator.RegisterOutputItem | crates/provider/src/responses.rs:824-850 | Registration numbers a new item and fills in id and name when given. |
| ToolCalls.ResponsesToolCallAccumulator.AppendArguments | crates/provider/src/responses.rs:852-884 | A fragment is appended and emitted under the item's ordinal. |
| ToolCalls.ResponsesOrdinals | crates/provider/src/responses.rs:824-884 | Over every event sequence the ordinals are exactly 0 to next - 1, one item each, and the fragments emitted under one join to its item's arguments. |
| ToolCalls.ResponsesDelta | crates/provider/src/responses.rs:842-884 | A registration emits nothing; a fragment emits its item's ordinal, the last id and the last name that registrations gave, and the fragment, if not empty. |
| Memory.LibsqlMemory.StoreMessage | crates/memory/src/lib.rs:505-583 | A store either commits event, last sequence and index together or leaves every table as it was, and keeps one row per key. |
| Memory.LibsqlMemory.StoreNoteAt | crates/memory/src/lib.rs:810-900 | The same for a note at the sequence determined before the transaction. |
| Memory.LibsqlMemory.DeleteNoteById | crates/memory/src/lib.rs:902-949 | A deletion removes the note's chunks, their vectors and every event with that tool call id, and reports whether anything changed. |
| StoredFields.StoredMessage | crates/memory/src/lib.rs:505-583 | After a store the event is the message itself, other events, summary and scratchpad are unchanged, and each of the message's chunks has a row and vector at that sequence or later, with the message's role and tool call if the row is new. |
| StoredFields.StoredNote | crates/memory/src/lib.rs:835-899 | After a note is stored its event is a user's message with the note's text, its id for a tool call and no attachments, all else is unchanged, and each of its chunks has a row under the note with role, id and the note's extras. |
| StoredFields.DeletedNote | crates/memory/src/lib.rs:902-937 | After a deletion exactly the events with that tool call id and exactly the note's rows with their vectors are gone, and all else is unchanged. |
| StoredFields.RunsMatchVectors | crates/memory/src/indexing.rs:457-470 | After every run each row's vector carries the row's hash. |
| StoredFields.BlankIsTrimmedAway | crates/memory/src/lib.rs:818-826 | A note's field is blank exactly when trimming leaves nothing of it. |
| Memory.LibsqlMemory.IndexPreparedDocument | crates/memory/src/indexing.rs:410-474 | The loop over a document's chunks touches known ones and inserts new ones, or fails on a taken row id. |
| Memory.LibsqlMemory.FindExistingChunkId | crates/memory/src/indexing.rs:519-549 | The lookup finds the key's one row, so the order of rows does not matter. |
| Memory.LibsqlMemory.Recall | crates/memory/src/lib.rs:585-645 | Recall returns the events in ascending order or the newest ones of that list, and an error for an empty result or a limit beyond the integer range. |
| Memory.LibsqlMemory.WriteSummaryState | crates/memory/src/lib.rs:716-808 | The compare-and-swap write: refused, answered as stale, or applied, with the epoch reported. |
| ChunkIndex.IndexIsTheReplay | crates/memory/src/indexing.rs:410-474 | After every run of transactions the chunk table agrees with a naive replay: exactly one row for each text and note seen since the note's last deletion and none else, one vector per row, first and largest sequence right; a note's row has the metadata of its newest sighting, a message's row that of its first. |
| ChunkIndex.DeletionRemovesTheNotesKeys | crates/memory/src/lib.rs:902-937 | Deleting a note removes exactly that note's keys from the index. |
| ChunkIndex.TouchedTells | crates/memory/src/indexing.rs:551-571 | Touching a row keeps its first sequence and makes the largest sequence and a note's metadata current. |
| IndexClashes.IndexingFailsExactlyOnClash | crates/memory/src/indexing.rs:437-455 | Indexing fails exactly when a chunk new to the index and to the document finds its row id taken. |
| IndexClashes.StoredExactly | crates/memory/src/lib.rs:1359-1387 | From any tables, a message is stored if and only if its sequence is in range and above all stored ones and its document meets no taken row id; a note if and only if id and text are not blank, its sequence is in range and unused, and its document meets none. |
| IndexClashes.ReservedRunsNeverClash | crates/memory/src/lib.rs:902-937 | In every run whose deleted note names are never tool call ids of stored messages, a message is rejected for its sequence alone and a note for a blank field or a used sequence alone. |
| IndexClashes.MessagesNeverClash | crates/memory/src/lib.rs:505-583 | In every state that any run leaves, a message is rejected for its sequence alone, given that row-id prefixes tell hashes apart. |
| IndexClashes.RunsAreSettled | crates/memory/src/indexing.rs:239-253 | After every run each row id shows its row's hash, and a note's row has the note's event behind it. |
| IndexClashes.ReusedSequenceClashes | crates/memory/src/lib.rs:925-937 | For every tool result and every note with the same one-chunk text: after the result is stored and a note of its call's name deleted, the store is empty of events and takes a message at sequence 1, but not the note. |
| MemoryRuns.SummaryWritesAreSerialized | crates/memory/src/lib.rs:728-795 | Over every run the applied summary writes have strictly increasing epochs, at most one per expected epoch, never a smaller upper sequence, and the summary in the table is the last of them. |
| StoredFields.SummaryIsTheLastWrite | crates/memory/src/lib.rs:770-778 | After every run the summary has epoch, upper sequence and text of the write applied last. |
| MemoryRuns.WriteAppliesExactlyAtTheHead | crates/memory/src/lib.rs:716-795 | After any run a write applies if and only if it moves forward, names the last applied epoch and does not take the bound back; other forward writes are answered as stale and change nothing. |
| MemoryRuns.OtherTransactionsKeepTheSummary | crates/memory/src/lib.rs:545-560 | Stores, notes, deletions and scratchpad operations leave the summary unchanged, failed or not. |
| EventRows.AscendingLists | crates/memory/src/lib.rs:601-609 | The ascending listing has every event of the table exactly once, in order of sequence. |
| RuntimeMemory.RecallReturnsTheLast | crates/memory/src/lib.rs:585-645 | Recall with a limit is the last records of unlimited recall, which lists every event once; nothing to return is not-found either way. |
| RuntimeMemory.NextMemorySequence | crates/runtime/src/memory.rs:4-27 | The next sequence is one past the largest stored sequence, and 1 without events, store or session. |
| RuntimeMemory.NextSequenceIsPastNewest | crates/runtime/src/memory.rs:12-25 | Recalling one record and adding one gives one past the largest stored sequence, for every event table, and never fails. |
| RuntimeMemory.PersistMessageIfNeeded | crates/runtime/src/memory.rs:51-77 | One message is stored with its attachments' bytes cleared and the sequence advanced, or nothing happens. |
| RuntimeMemory.PersistContextTailIfNeeded | crates/runtime/src/memory.rs:29-49 | The tail is stored message by message and stops at the first failure, with the sequence where it stopped. |
| RuntimeMemory.ClearAttachments | crates/runtime/src/memory.rs:61-64 | Clearing keeps role, text, tool call and every attachment's kind, and leaves no attachment bytes. |
| RuntimeMemory.TailIsPersisted | crates/runtime/src/memory.rs:29-49 | With the first k messages stored under 1..k and otherwise any state a run may leave, persisting the tail is never refused and leaves all n under 1..n in order, each with its role, text, tool call and attachment kinds and without attachment bytes; a second call stores nothing; the next sequence computed from the store is the runtime's own, before and after. |
| HybridRank.NormalizeScores | crates/memory/src/lib.rs:1554-1580 | Exactly the listed chunks get a score, that of their last row scaled between the list's extremes. |
| HybridRank.NormalizedInUnit | crates/memory/src/lib.rs:1554-1580 | Normalized scores lie in [0, 1]. |
| HybridRank.ScalingKeepsOrder | crates/memory/src/lib.rs:1570-1577 | Scaling keeps the strict order of raw scores unless their range is within epsilon, when all become 1. |
| HybridRank.MergeVector | crates/memory/src/lib.rs:291-304 | The first pass makes one entry per chunk of the vector list, with its first row and its score. |
| HybridRank.MergeFts | crates/memory/src/lib.rs:305-316 | The second pass leaves one entry per chunk of both lists, its row from the vector list if it is there, both scores set and 0 where a list lacks it. |
| HybridQuery.BetterIsStrictTotalOrder | crates/memory/src/lib.rs:323-329 | Score, recency and chunk id form a strict total order on candidates with different chunk ids. |
| HybridQuery.ValidateHybridWeights | crates/memory/src/lib.rs:1520-1538 | Weights are accepted exactly when both lie in [0, 1] and their sum is within epsilon of 1. |
| HybridQuery.IntoValues | crates/memory/src/lib.rs:318-318 | Whatever order the hash map gives, each candidate is collected once. |
| HybridQuery.SortAndCut | crates/memory/src/lib.rs:323-346 | Sorting and cutting yields the best min(k, n) candidates, best first, each better than every omitted one. |
| HybridQuery.ExecuteHybridQuery | crates/memory/src/lib.rs:232-347 | The query fails exactly on a blank query, a zero or too large k, or bad weights, and otherwise returns the answer to its rows. |
| HybridAnswers.EntriesAreExplained | crates/memory/src/lib.rs:289-322 | Every entry of an answer is a listed chunk with the row its lists have for it, its own score in each list (0 where it is missing), and the vector weight times the vector score plus the text weight times the text score. |
| HybridAnswers.AnswerIsOrdered | crates/memory/src/lib.rs:323-329 | Earlier entries have a higher score, else a more recent chunk, else a smaller id. |
| HybridAnswers.OmittedRanksBehind | crates/memory/src/lib.rs:323-332 | A listed chunk is left out only of a full answer, and all entries rank ahead of its weighted score, recency and id. |
| HybridAnswers.GreaterWeightRanksFirst | crates/memory/src/lib.rs:319-329 | With the greater weight on vectors, a chunk that only they found, at score 1, comes before one that only text found at 1. |
| HybridAnswers.RowIsTheFirst | crates/memory/src/lib.rs:293-316 | A chunk has the row of its first candidate, vector candidates first. |
| HybridAnswers.BestIsOne | crates/memory/src/lib.rs:1570-1577 | The best candidate of a list has score 1. |
| HybridAnswers.WorstIsZero | crates/memory/src/lib.rs:1570-1577 | The worst has score 0, unless all raw scores lie within epsilon, when all have 1. |
| HybridAnswers.LexLessAtFirstDifference | crates/memory/src/lib.rs:328-328 | Ids compare at their first difference, a prefix being smaller. |
| HybridQuery.AnswerIsUnique | crates/memory/src/lib.rs:289-346 | There is only one answer to given rows, so no hash map's order shows in it. |
| HybridQuery.AnswerScoresAreBounded | crates/memory/src/lib.rs:319-322 | Scores of an answer lie in [0, 1], totals in [0, 1 + epsilon]. |
| ContextId.ParseDerive | crates/channels/src/telegram.rs:1824-1848 | Parsing a derived context id gives back its chat and thread, for all of them. |
| ContextId.RoutesAsWritten | crates/channels/src/telegram.rs:1843-1848 | A route is its chat in decimal, with a minus sign if negative, and a colon before its thread. |
| ContextId.DigitsAsRead | crates/channels/src/telegram.rs:1824-1833 | Digits parse to their decimal value if it is in range; so they do behind a plus or, negated, a minus sign, and nothing else parses (`PlusAsRead`, `MinusAsRead`, `OthersAreNoNumbers`). |
| DeliveryRoute.SendTextBatch | crates/channels/src/telegram.rs:1556-1600 | The batch moves to the main chat exactly when its first chunk meets a missing thread of a threaded route; then every chunk goes there, and the outcome tells whether either retry of that chunk went through. |
| DeliveryRoute.SchedulerStore.ReportOutcome | crates/memory/src/scheduler_store.rs:550-657 | One undisturbed report's effect on the schedule's row. |
| DeliveryRoute.SchedulerStore.IncrementStreak | crates/memory/src/scheduler_store.rs:581-606 | The guarded increment, and that it returns the new streak exactly when the route still matched. |
| DeliveryRoute.SchedulerStore.RemapRoute | crates/memory/src/scheduler_store.rs:611-626 | The guarded remap and its count of affected rows. |
| DeliveryRoute.RemapsAtMostOnce | crates/memory/src/scheduler_store.rs:550-657 | In every interleaving of reports, increment and remap being separate steps, a route is remapped at most once, only from a threaded route, only to the same chat without a thread, only after an increment that saw the threshold; the streak counts the increments since the last reset. |
| DeliveryRoute.DeliveryEffects | crates/channels/src/telegram.rs:1753-1770 | A success resets the streak, a dead thread adds one whether or not the fallback went through, and only one that did, at a streak of three or more, leaves a remap pending, to the same chat without a thread. |
| DeliveryRoute.ThreeFailuresRemap | crates/memory/src/scheduler_store.rs:575-637 | For every chat and thread, three dead-thread deliveries in a row with working fallbacks remap a fresh row to the chat, with a streak of zero. |
| DeliveryRoute.StreakAtRemap | crates/memory/src/scheduler_store.rs:575-637 | When a pending remap comes, its own increment had seen the threshold; the streak is what that saw plus later increments unless a success came between, and then counts from that success; so the route is found failing if and only if no success came between or the threshold was met again. |
| DeliveryRoute.RemapAfterRecovery | crates/memory/src/scheduler_store.rs:575-580 | For every threaded route, a run that remaps it directly after a successful delivery. |
| CivilDate.CountingUndoesConversion | crates/channels/src/audit.rs:138-151 | Every day count that does not overflow becomes a valid Gregorian date, which plain counting of years, leap days and months takes back to the count. |
| CivilDate.ConversionUndoesCounting | crates/channels/src/audit.rs:138-151 | Every valid date from the epoch on is the conversion of its own day count. |
| CivilDate.ConversionFollowsCalendar | crates/channels/src/audit.rs:138-151 | Day n + 1 becomes the calendar successor of day n's date. |
| CivilDate.ConversionStartsAtEpoch | crates/channels/src/audit.rs:137-138 | Day 0 is 1 January 1970. |
| CivilDate.EveryClockReadingConverts | crates/channels/src/audit.rs:114-135 | No clock reading in seconds overflows, and the formatted fields are in range and determine the reading. |
| Markdown.EscapeIsOnePass | crates/channels/src/telegram.rs:1299-1303 | The three chained replacements are one pass over the characters. |
| Markdown.UnescapeEscape | crates/channels/src/telegram.rs:1299-1303 | A strict reader of escaped text gives back the text. |
| Markdown.MarkdownToTelegramHtml | crates/channels/src/telegram.rs:1135-1297 | The scanner ends within bounds on every input and its output is the rendering of the input's segments. |
| Markdown.ConvertFence | crates/channels/src/telegram.rs:1142-1164 | The fenced-block branch, unterminated fences included. |
| Markdown.ConvertLink | crates/channels/src/telegram.rs:1234-1259 | The link branch and its fallback. |
| Markdown.ConvertHeader | crates/channels/src/telegram.rs:1261-1284 | The header branch. |
| MarkdownTheorems.ReadSegments | crates/channels/src/telegram.rs:1135-1303 | A reader that knows only escaped text and non-nested, closed elements reads a rendering back segment by segment; one that also ends addresses at the first double quote does so exactly when no link has a quote in its address, and refuses it otherwise. |
| MarkdownTheorems.OutputIsWellFormed | crates/channels/src/telegram.rs:1135-1303 | For every input the output is accepted and read back segment by segment by the first of these readers, by the second exactly when no link has a quote in its address, and the text it shows is the input with characters deleted. |
| MarkdownTheorems.QuotedAddressIsRefused | crates/channels/src/telegram.rs:1234-1259 | Every message that is one link with a double quote in its address gives an output that the second reader refuses. |
| MarkdownTheorems.FenceConstruct | crates/channels/src/telegram.rs:1142-1164 | Anywhere in a text, a fenced block around text without back-quotes becomes one pre element with that text, its language tag dropped. |
| MarkdownTheorems.DoubleMarks | crates/channels/src/telegram.rs:1183-1215 | Anywhere in a text, bold and strikethrough become one element with their text. |
| MarkdownTheorems.SingleMarks | crates/channels/src/telegram.rs:1166-1231 | Anywhere in a text, code and italic become one element with their text. |
| MarkdownTheorems.LinkConstruct | crates/channels/src/telegram.rs:1234-1259 | Anywhere in a text, a link becomes one anchor with its address and text. |
| MarkdownTheorems.HeaderConstruct | crates/channels/src/telegram.rs:1261-1284 | At the start of any line, a header line becomes one bold element with its text. |
| MarkdownTheorems.PlainTextIsKept | crates/channels/src/telegram.rs:1286-1294 | Text without marks is passed on unchanged but for the escapes. |
| MarkdownTheorems.AddressIsKept | crates/channels/src/telegram.rs:1248-1256 | The address that an attribute reader sees is the written one exactly when it has no double quote. |
| MarkdownTheorems.RenderedElements | crates/channels/src/telegram.rs:1142-1284 | Each element is Telegram's own tag pair around escaped text. |
| MarkdownTheorems.EscapedCharacters | crates/channels/src/telegram.rs:1299-1303 | The three special characters go out as their entities and all others as they are. |
| MarkdownTheorems.BoldMessage | crates/channels/src/telegram.rs:1183-1197 | A bold message goes out between b tags, its text escaped; likewise `StrikeMessage`, `ItalicMessage`, `CodeMessage`, `FenceMessage`, `LinkMessage` and `HeaderMessage` for the other constructs. |
| MarkdownTheorems.UnclosedDouble | crates/channels/src/telegram.rs:1183-1215 | An unclosed double mark takes the rest of the text but its last character, which stays outside the element. |
| MarkdownTheorems.UnclosedFence | crates/channels/src/telegram.rs:1142-1164 | An unclosed fence takes the rest but its last two characters. |
| MarkdownTheorems.UnclosedSingle | crates/channels/src/telegram.rs:1217-1231 | An unclosed asterisk takes the rest of the text. |
| MarkdownTheorems.BracketWithoutAddress | crates/channels/src/telegram.rs:1234-1259 | A bracket that begins no whole link is text (`BracketUnclosed` for one that is not closed). |
| SplitMessage.HaltsExactlyWithoutTrap | crates/channels/src/telegram.rs:1852-1878 | A single-byte text is split in finitely many iterations if and only if it fits, or has no space that ends up first in a window without another break. |
| SplitMessage.TrapForever | crates/channels/src/telegram.rs:1861-1870 | With such a space the loop never finishes, whatever the bytes. |
| SplitMessage.NoTrapHalts | crates/channels/src/telegram.rs:1860-1871 | Without one it ends, or panics on a cut inside a character, after finitely many iterations. |
| SplitMessage.NeverPanicsExactlyWhenAscii | crates/channels/src/telegram.rs:1860-1861 | A valid text panics at no limit and in no iteration if and only if it is single-byte. |
| SplitMessage.CutInsideCharacterPanics | crates/channels/src/telegram.rs:1861-1861 | Every text longer than a limit that falls inside one of its characters panics in the first iteration. |
| SplitMessage.AccentAtTheLimit | crates/channels/src/telegram.rs:1861-1861 | A valid text of three bytes that panics at a limit of two. |
| SplitMessage.LongWordAfterSpace | crates/channels/src/telegram.rs:1862-1870 | A text of eight bytes that is never split at a limit of four. |
| SplitMessage.Split | crates/channels/src/telegram.rs:1852-1878 | The loop itself, where it ends: every chunk fits, only the first can be empty, and the chunks with runs of line feeds between them are the text; single-byte texts never panic. |
| SplitMessage.CutsAtTheBestBreak | crates/channels/src/telegram.rs:1861-1866 | A window is cut at its last blank line, else its last line feed, else its last space, else at the limit. |
| SplitMessage.IterationCuts | crates/channels/src/telegram.rs:1868-1870 | An iteration takes the text before the cut for a chunk and drops exactly the line feeds at the cut. |
| TextChunks.SplitTextIntoChunks | crates/memory/src/indexing.rs:326-351 | The loop ends on every text and returns the normalized windows that are not blank. |
| TextChunks.WindowsRebuildText | crates/memory/src/indexing.rs:332-349 | The first window and what each later one adds after its overlap are the text. |
| TextChunks.WindowsOverlap | crates/memory/src/indexing.rs:335-345 | Windows have at most 640 characters, all but the last exactly that, and neighbours share exactly 96. |
| TextChunks.ShortPassageInsideWindow | crates/memory/src/indexing.rs:335-345 | Every passage of up to 97 characters lies inside one window. |
| TextChunks.LongerPassageCanBeCut | crates/memory/src/indexing.rs:335-345 | In every text longer than a window some passage of 98 characters lies in none. |
| TextChunks.NormalizeIsNormal | crates/memory/src/indexing.rs:322-324 | Normalized text has single spaces between words and none at its ends. |
| TextChunks.NormalizeNormal | crates/memory/src/indexing.rs:322-324 | Normalizing such text changes nothing. |
| TextChunks.NormalizeKeepsWords | crates/memory/src/indexing.rs:322-324 | Normalizing any text keeps its words, the maximal runs without white space, in order, with single spaces between them and nothing else. |
| TextChunks.PassagesSurvive | crates/memory/src/indexing.rs:322-351 | On normalized text, every passage of up to 97 characters that begins and ends in a non-space occurs whole in an indexed chunk. |
| TextChunks.ChunksAreNormal | crates/memory/src/indexing.rs:335-341 | Every chunk of every text is normalized, not empty and at most 640 characters long. |
| TextChunks.OuterSpaceIsIgnored | crates/memory/src/indexing.rs:327-330 | White space around a text changes none of its chunks. |
| ShellOutput.StoredIsBoundedPrefix | crates/oxydra-shelld/src/lib.rs:364-404 | What is queued is the first bytes of stdout followed by stderr, up to the limit, with the right labels and no empty chunk. |
| ShellOutput.PushBoundedChunk | crates/oxydra-shelld/src/lib.rs:386-404 | One push and what it leaves of the limit. |
| ShellOutput.SessionManager.StoreCommandOutput | crates/oxydra-shelld/src/lib.rs:311-325 | Storing replaces the session's queue and no other, or fails on an unknown session. |
| ShellOutput.SessionManager.NextStreamChunk | crates/oxydra-shelld/src/lib.rs:327-357 | One request pops a bounded piece from its session's queue and no other, or fails on an unknown session. |
| ShellOutput.ServeConserves | crates/oxydra-shelld/src/lib.rs:327-357 | For every sequence of requests, the replies and the rest of the queue are the stored bytes with their labels. |
| ShellOutput.RepliesAnswerRequests | crates/oxydra-shelld/src/lib.rs:338-355 | There is one reply per request; each is within its own request's bound, is empty exactly when the queue was, and reports eof exactly when it leaves the queue empty. |
| ShellOutput.RepliesAreFull | crates/oxydra-shelld/src/lib.rs:338-355 | A reply has its front chunk's label and as many of its bytes as the request may get: its own limit, or the maximum without one, at least one byte and at most the maximum. |
| ShellOutput.EnoughRequestsEmptyTheQueue | crates/oxydra-shelld/src/lib.rs:343-355 | As many requests as bytes always empty the queue. |
| ShellOutput.DrainedOutputIsTheOutput | crates/oxydra-shelld/src/lib.rs:311-404 | After a command's output is stored, the last reply reports eof exactly when the replies together are the bounded prefix, and enough requests get there. |

## Left out

- The turn protocol is modelled on values (a state and its steps), not as classes: its point is the interleaving of tasks, which a method body cannot show. A submit and a turn task run all their steps in order and are not aborted between two awaits; the permit semaphore is never closed, so "failed to acquire turn permit" without a cancellation is proved not to occur.
- Session creation limits, idle eviction timing, attachment checks on submit, `budget_remaining`, `turn_count`, `mark_active` and `touch_session`: they do not touch the slot, the counters or the frames. A resumed or evicted session is a second session object.
- HTTP, WebSocket and Telegram transport, container back ends, and `AgentRuntime` itself: effects outside the program. `run_turn` is any computation that emits items and then ends in one of its results.
- SQL text, migrations, full-text and vector search: candidates and rows are given. The memory model covers one session, so chunk ids of different sessions never meet, and leaves out the `files` table, `forget` and reading the scratchpad.
- Content hashes are given keys; embeddings and floating-point rounding are not modelled, scores and weights are real numbers, so NaN and infinities do not occur.
- Memory.LibsqlMemory.StoreNoteAt: takes any sequence, because the original reads it before its transaction starts; the text a note is indexed under is given as hashes; the note's source, tags and times are one `extra` string.
- Memory.LibsqlMemory.IndexPreparedDocument: a chunk's metadata holds role, tool call id and a note's extras; its position and the number of chunks are left out.
- Memory.LibsqlMemory.WriteScratchpad: takes normalized items; the limits on their number and length, and whether the write changed anything, are not modelled.
- IndexClashes.MessagesNeverClash: assumes that the 16 hash digits in a row id tell the hashes in use apart; without it two texts could collide.
- HybridQuery.ExecuteHybridQuery: takes the rows of both searches as given and leaves out tag filters and the checks on the query embedding.
- DeliveryRoute.RemapsAtMostOnce: senders are the only writers of the row; an edit of the schedule by its user is not modelled. Failed statements and media delivery, which reports nothing, are left out.
- SplitMessage.Split: requires that the text fits or has no trap, since the loop does not end otherwise; a cut inside a character, which panics, is the result None.
- ToolCalls.AnthropicOrdinals: ordinals are unbounded, so the overflow of a machine counter is not modelled.
- CivilDate.CountingUndoesConversion: requires that adding 719468 does not overflow 64 bits, which every clock reading meets.
- The accumulator of the chat-completions API, retry backoff, schema sanitizers, cadence evaluation, sender authorization, configuration migration and version comparison: simpler than what is here, or the work of other libraries.
- Live message editing and throttling in the Telegram channel, and the lossy decoding of shell output at a chunk boundary: presentation only.
