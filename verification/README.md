# catpaw, modelled and proved

catpaw is a monitoring agent. This project models the parts of it that keep state over
unbounded runs, in the form the source has them (classes and loops where it mutates,
functions where it computes), and proves what those parts promise. Each object or loop is
proved against a specification function or step machine; the promises are lemmas about
that specification, for all inputs, all runs and all interleavings.

| module | models |
|---|---|
| `LogTail`, `LogLines`, `ContextMerge` | the log tailer: rotation, bounded reads, complete lines; the bytes those lines hold; merged context display |
| `ChatHistory`, `ChatStream`, `ChatForm`, `ChatAnswer`, `ChatRollback`, `ChatPromise` | the chat store: trimming, compaction, tool rounds on Go slices; what the rounds keep; what an answer stores; what a rollback leaves behind; what a caller can rely on |
| `Resp`, `RespInput` | the Redis wire protocol: command printer and recursive reply reader; the reader on arbitrary bytes |
| `AlertEngine`, `AlertCache` | the alert state machine and the objects that implement it |
| `SessionSlots`, `SessionReuse`, `SessionSteps`, `SessionDrain`, `SessionRun` | remote sessions and local diagnoses on one semaphore; reused IDs; one session, step by step; no slot is lost; its control flow |
| `Aggregator`, `RingBuffer`, `RestartWindow`, `DiagnoseState` | the alert window, the event buffer, the restart counter, cooldowns and token budget |
| `ToolRegistry` | tool index, categories, what is offered and what is executed |
| `Backoff`, `Report`, `RuneCodes` | the reconnect schedule; UTF-8 safe report budgets; the encoding they are measured by |

Every file is verified together with the others: `dafny verify dfyconfig.toml`. Nothing of
the original program was executed.

## Where the code does less than its documentation says

- `trimHistory` is documented never to split a tool-call sequence
  (digcore/diagnose/streaming.go:328-331). When the kept window holds nothing but tool
  traffic and the history has more than 80 messages, the cut is forced and can start at a
  tool answer. `ChatHistory.TrimSplitsOnlyWhenForced` gives the exact condition and
  `ChatHistory.TrimCanSplit` histories that meet it; right after a user turn, the only
  place it is called, it cannot happen (`ChatHistory.TrimAfterUserTurn`).
- `HandleMessage` says an error rolls the user message back
  (digcore/diagnose/streaming.go:71-86). It re-slices to a length counted before the
  rounds, over a store that compaction and tool rounds may have replaced or overwritten.
  The result can be a panic (`ChatRollback.RollbackCanPanic`), a history with the turn still
  in it (`ChatRollback.RollbackKeepsTurn`), a tool answer without its call
  (`ChatRollback.RollbackLeavesOrphan`), a call without its answer
  (`ChatRollback.RollbackCutsCall`) or zero messages from spare capacity
  (`ChatRollback.RollbackBringsZeros`). What a caller can know before the call is exact:
  `ChatPromise.ExactForAllIff` for the rollback and `ChatPromise.FormForAllIff` for the form
  of the history. `ChatRollback.RollbackExactIff`, `ChatRollback.MessageFormIff` and
  `ChatRollback.ConversationFormIff` are the finer statements about one run.
- A line longer than one read is delivered in pieces (`LogTail.OverlongLineIsCut`);
  `LogTail.LinesExactlyOnce` is the exact condition on a run and
  `LogTail.EveryRunDeliversIff` the one on the file.
- A finishing session unregisters by ID and can cancel a later session that reuses the ID
  (`SessionReuse.FinishingHitsSuccessor`, `SessionReuse.ReuseIsReachable`); a server that
  never reuses an ID on a connection is safe (`SessionReuse.FreshIdsAreSafe`).
- Window keys collide when one plugin name is another one followed by a separator
  (`Aggregator.KeysCollideIff`).
- A tool registered under a meta-tool name is offered but not run when it is called by that
  name; call_tool still reaches it (`ToolRegistry.MetaNamedTool`).
- The reconnect strategy documents at most 300 seconds for normal disconnects
  (digcore/server/conn.go:200-202); an ordinary failure after authentication failures can
  wait longer (`Backoff.OrdinaryWaitExceedsIff`, `Backoff.LongOrdinaryWait`).

## Model

| member | source | states |
|---|---|---|
| `LogTail.HexTake` | plugins/logfile/logfile.go:586-602 | the hex fingerprint of a prefix is the prefix of the hex fingerprint |
| `LogTail.HexInjective` | plugins/logfile/logfile.go:586-602 | equal hex fingerprints come from equal bytes |
| `LogTail.FingerprintsMatchIsPrefix` | plugins/logfile/logfile.go:611-619 | the directional comparison of hex strings holds if and only if the stored bytes are a prefix of the current ones (and an empty fingerprint matches only an empty one) |
| `LogTail.LastNewline` | plugins/logfile/logfile.go:394 | the last newline: everything after it is newline-free |
| `LogTail.Block` | plugins/logfile/logfile.go:353-407 | the consumed bytes are a contiguous piece at the offset, never longer than the read limit |
| `LogTail.BlockShape` | plugins/logfile/logfile.go:392-407 | a poll ends on a line boundary, or else its window is full and has no newline |
| `LogTail.RotationOnlyBeforeFirstByte` | plugins/logfile/logfile.go:327-351 | on the tracked inode and content, "rotation" fires if and only if the stored fingerprint is empty and the file is not, and then the offset is still 0 |
| `LogTail.ReplacedFileStartsOver` | plugins/logfile/logfile.go:327-351 | a new inode, a changed head or a shorter file makes the next poll read from byte 0 with the new identity |
| `LogTail.FreshStateTracks` | plugins/logfile/logfile.go:311-326 | first sight of a file yields a state that tracks it; reading from the end consumes nothing |
| `LogTail.PollOfTracked` | plugins/logfile/logfile.go:298-410 | one poll of a tracked file consumes exactly content[old offset..new offset] and keeps tracking it |
| `LogTail.ExactlyOnce` | plugins/logfile/logfile.go:298-410 | over every run of polls on an append-only file the consumed blocks concatenate to content[start..offset], with the offset monotone and within the file |
| `LogTail.RunRemembersHead` | plugins/logfile/logfile.go:327-351 | after every run the stored fingerprint is that of the file as last seen, however short the file was at first |
| `LogTail.LinesOfConcat` | plugins/logfile/logfile.go:428-431 | splitting distributes over concatenation at a line boundary |
| `LogTail.LinesOfCut` | plugins/logfile/logfile.go:428-431 | cutting inside a line produces exactly one line too many |
| `LogTail.LinesBlockByBlock` | plugins/logfile/logfile.go:428-431 | splitting block by block equals splitting once if and only if no nonempty block starts inside a line |
| `LogTail.LinesStep` | plugins/logfile/logfile.go:353-410 | one poll preserves: delivery unbroken so far if and only if no overlong line was passed |
| `LogTail.RunLines` | plugins/logfile/logfile.go:353-431 | the same equivalence over every run of polls |
| `LogTail.LinesExactlyOnce` | plugins/logfile/logfile.go:298-431 | over every run, the lines delivered poll by poll equal one split of the consumed region if and only if no line in it outgrew one read |
| `LogTail.OverlongLineIsCut` | plugins/logfile/logfile.go:395-405 | a concrete line longer than the read limit that is delivered as two lines |
| `LogTail.BlockProgress` | plugins/logfile/logfile.go:353-405 | a poll consumes nothing if and only if the unread remainder is shorter than the limit and newline-free |
| `LogTail.PollProgress` | plugins/logfile/logfile.go:353-410 | a poll of a tracked file moves the offset forward, or the tail is caught up and nothing changes |
| `LogTail.CatchUp` | plugins/logfile/logfile.go:353-410 | repeated polls of an unchanged file reach the caught-up state within one poll per unread byte and stay there |
| `LogTail.BrokenRunHasTooLong` | plugins/logfile/logfile.go:298-431 | any run that breaks a line has read a line that fills one read and is followed by its end or by enough for another read |
| `LogTail.TooLongIsBroken` | plugins/logfile/logfile.go:353-431 | polling an unchanged file with such a line to the end breaks it |
| `LogTail.EveryRunDeliversIff` | plugins/logfile/logfile.go:298-431 | a condition on the file alone, both ways: every sequence of polls that leads to this file delivers exactly the lines of what it consumed if and only if the file has no such line |
| `LogTail.LogTailer.constructor` | plugins/logfile/logfile.go:133-135 | the read limit is positive: nonpositive settings become 1 MiB |
| `LogTail.LogTailer.ProcessFile` | plugins/logfile/logfile.go:298-448 | the new state, the dirty flag (set exactly when the state changed), the cleaned lines of the consumed bytes (LogLines.LinesAreText) and the strictly increasing matched indices of one poll |
| `LogTail.LogTailer.Advance` | plugins/logfile/logfile.go:307-410 | state and consumed bytes are those of the poll function |
| `LogTail.LogTailer.SyncState` | plugins/logfile/logfile.go:311-351 | first sight, rotation and fingerprint growth give the synced state |
| `LogTail.LogTailer.MatchLines` | plugins/logfile/logfile.go:433-448 | every line is trimmed and sanitised in order; an index is matched if and only if its line is included and not excluded |
| `LogTail.ReadBlock` | plugins/logfile/logfile.go:353-407 | the bounded read and the cut after the last newline compute the block |
| `LogTail.LastIndexOfNewline` | plugins/logfile/logfile.go:394 | the backward scan finds the last newline |
| `LogTail.SplitLoop` | plugins/logfile/logfile.go:428 | the splitting loop computes the split at every newline, whose pieces LogLines.SplitJoined and LogLines.JoinedSplit determine |
| `LogLines.SplitJoined` | plugins/logfile/logfile.go:428 | joining the pieces of a split text with newlines gives back the text |
| `LogLines.JoinedSplit` | plugins/logfile/logfile.go:428 | splitting joined newline-free pieces gives back the pieces, so the split is the only such list |
| `LogLines.LinesAreText` | plugins/logfile/logfile.go:428-431 | the lines of a text are newline-free, and each with its newline they are the text, up to a last unterminated piece |
| `LogLines.DeliveredBytes` | plugins/logfile/logfile.go:298-431 | over every run the delivered lines, each with its newline, concatenate to the bytes of content[start..offset], up to a last unterminated piece, if and only if no line outgrew a read; they never contain a newline |
| `LogLines.BlockIsLongest` | plugins/logfile/logfile.go:392-407 | one poll takes the longest piece within the read limit that ends on a newline, and a whole full window only when that has no newline |
| `LogLines.FirstSight` | plugins/logfile/logfile.go:311-326 | a file seen for the first time is read from offset 0, or from its end when configured so |
| `LogLines.TrimmedCRs` | plugins/logfile/logfile.go:435 | trimming removes all carriage returns at the end of a line and nothing else |
| `ContextMerge.ClipWindows` | plugins/logfile/logfile.go:486-498 | window k holds exactly the existing lines within the context distance of match k; starts are sorted |
| `ContextMerge.MergeRanges` | plugins/logfile/logfile.go:500-511 | the merged ranges are sorted, disjoint, non-adjacent and cover exactly what the ranges cover |
| `ContextMerge.MergeStep` | plugins/logfile/logfile.go:502-511 | absorbing or appending one range adds exactly its lines |
| `ContextMerge.PrintRange` | plugins/logfile/logfile.go:522-530 | every line of a range, in order, marked if and only if it is a shown match |
| `ContextMerge.PrintMerged` | plugins/logfile/logfile.go:518-531 | prints exactly the covered lines, with a gap row exactly where lines are skipped |
| `ContextMerge.BuildContext` | plugins/logfile/logfile.go:475-542 | a line is printed if and only if it lies in the clipped window of a shown match; marks and the count of hidden matches are right |
| `ContextMerge.PrintedInOrder` | plugins/logfile/logfile.go:518-531 | printed lines strictly increase, so none is printed twice |
| `ChatHistory.TurnsConcat` | digcore/diagnose/streaming.go:332-364 | well-formed stretches of history concatenate |
| `ChatHistory.TurnsSplit` | digcore/diagnose/streaming.go:339-350 | a history may be cut in front of any message that is not a tool answer, and both parts stay complete |
| `ChatHistory.SafeCut` | digcore/diagnose/streaming.go:337-350 | the safe cut is the first message at or after the cut that is neither a tool answer nor a tool call |
| `ChatHistory.FindSafeCut` | digcore/diagnose/streaming.go:338-350 | the scanning loop computes the safe cut |
| `ChatHistory.TrimHistory` | digcore/diagnose/streaming.go:332-364 | the method computes the trim function |
| `ChatHistory.CutKeepsForm` | digcore/diagnose/streaming.go:360-363 | system prompt plus a suffix that does not start with a tool answer is well formed |
| `ChatHistory.TrimAfterUserTurn` | digcore/diagnose/streaming.go:332-364 | trimming a well-formed history that just received a user turn: well formed, 2 to 41 messages, same system prompt, a suffix ending in that turn |
| `ChatHistory.TrimSplitsOnlyWhenForced` | digcore/diagnose/streaming.go:328-364 | the documented "never splits a tool-call sequence" holds if and only if the cut is not forced in front of a tool answer |
| `ChatHistory.TrimCanSplit` | digcore/diagnose/streaming.go:328-364 | every well-formed history that is one round of 79 or more calls is trimmed to an ill-formed one |
| `ChatHistory.CutKeepsFormIff` | digcore/diagnose/streaming.go:352-363 | a cut keeps the form if and only if the first kept message is not a tool answer |
| `ChatHistory.PrefixKeepsFormIff` | digcore/diagnose/streaming.go:83-86 | cutting a well-formed history off behind n messages keeps the form if and only if no tool answer follows |
| `ChatHistory.JoinKeepsFormIff` | digcore/diagnose/streaming.go:75-78 | what is appended to a well-formed history keeps the form if and only if it is complete by itself |
| `ChatHistory.TrimKeeps` | digcore/diagnose/streaming.go:332-364 | a history of more than 41 messages is trimmed to its first message and everything from the first of the last 40 messages that is no tool traffic |
| `ChatHistory.TrimOtherwise` | digcore/diagnose/streaming.go:332-364 | a history of up to 41 messages, or of up to 80 with nothing but tool traffic in its last 40, stays; a longer one of that kind is cut to its first message and the last 40 |
| `ChatHistory.EstimateIsTight` | digcore/diagnose/aiclient/compact.go:62-86 | the token estimate is half the characters of all texts plus four tokens a message and ten a call, up to the rounding of each text |
| `ChatHistory.GroupTokensAreTokens` | digcore/diagnose/aiclient/compact.go:62-112 | groups weigh exactly what their messages weigh |
| `ChatHistory.SkipToolsIsGroup` | digcore/diagnose/aiclient/compact.go:89-112 | in a well-formed history a parsed group is a plain message or a call with all its answers |
| `ChatHistory.GroupsAligned` | digcore/diagnose/aiclient/compact.go:89-112 | every parsed group starts at a complete turn |
| `ChatHistory.ParseMessageGroups` | digcore/diagnose/aiclient/compact.go:89-112 | the parsing loop computes the groups |
| `ChatHistory.ScanGroup` | digcore/diagnose/aiclient/compact.go:96-108 | one group: where it ends and what it weighs |
| `ChatHistory.KeepFromFits` | digcore/diagnose/aiclient/compact.go:37-45 | the kept suffix of groups fits the budget and one more group would not |
| `ChatHistory.KeepFromUnique` | digcore/diagnose/aiclient/compact.go:37-45 | that suffix is the only maximal one |
| `ChatHistory.SelectGroups` | digcore/diagnose/aiclient/compact.go:37-45 | the backward loop finds the maximal suffix of groups that fits |
| `ChatHistory.KeepNewest` | digcore/diagnose/aiclient/compact.go:31-57 | same slice, sticky prefix only, or a new slice, by which groups fit |
| `ChatHistory.CompactMessages` | digcore/diagnose/aiclient/compact.go:12-58 | the method computes the compaction, including which of the three slices it returns |
| `ChatHistory.CutFits` | digcore/diagnose/aiclient/compact.go:31-57 | what is kept behind the sticky prefix fits, and everything is kept if and only if everything fits |
| `ChatHistory.CompactionKeepsForm` | digcore/diagnose/aiclient/compact.go:12-58 | compaction of a well-formed history is well formed, for every budget |
| `ChatHistory.CompactionFits` | digcore/diagnose/aiclient/compact.go:12-58 | compaction changes the history if and only if it is over budget, then shortens it, and the result fits whenever the sticky prefix does |
| `ChatHistory.CutIsMaximal` | digcore/diagnose/aiclient/compact.go:31-57 | one more group in front of the kept ones would not fit |
| `ChatHistory.CompactionKeepsNewest` | digcore/diagnose/aiclient/compact.go:12-58 | a history over budget becomes its system prompt, the plain user turn right behind it if there is one, and the longest recent part that starts with no tool answer and fits into the rest of the budget |
| `ChatStream.Append` | digcore/diagnose/streaming.go:75-78 | append adds one message at the end whether or not it grows the backing store |
| `ChatStream.CompactSliceView` | digcore/diagnose/streaming.go:99-101 | the slice compaction hands back shows the compacted history |
| `ChatStream.CompactorKeepsForm` | digcore/diagnose/streaming.go:99-101 | compacting at the start of a round keeps the form for every limit |
| `ChatForm.AnswersView` | digcore/diagnose/streaming.go:155-192 | a tool round appends one answer per call, in call order, with the call IDs |
| `ChatForm.ToolRoundKeepsForm` | digcore/diagnose/streaming.go:148-192 | a round of tool calls keeps the history well formed |
| `ChatForm.ConverseKeepsForm` | digcore/diagnose/streaming.go:91-196 | whatever the AI and the tools answer, the rounds of one message keep the history well formed and make at most 20 AI calls |
| `ChatForm.StartedWellFormed` | digcore/diagnose/streaming.go:73-81 | a message starts from a well-formed history of 2 to 41 messages that ends in a user message with the input |
| `ChatForm.QuietExtends` | digcore/diagnose/streaming.go:91-196 | rounds without compaction only append |
| `ChatForm.NoLimitIsQuiet` | digcore/diagnose/streaming.go:99-101 | without a context limit no round compacts |
| `ChatForm.ErrorRollsBack` | digcore/diagnose/streaming.go:73-88 | without a limit, on any AI reply, tool result, cancellation or error: an error leaves exactly the trimmed history without the new turn, an answer extends it, both well formed |
| `ChatForm.UsageIsReported` | digcore/diagnose/streaming.go:91-196 | the usage returned is, counter by counter, the sum of what the AI calls of this message reported |
| `ChatStream.ChatStream.constructor` | digcore/diagnose/streaming.go:54-69 | a new stream holds the system prompt and is well formed |
| `ChatStream.ChatStream.HandleMessage` | digcore/diagnose/streaming.go:73-88 | outcome and new history are those of the message function, which ChatAnswer.AnsweredWhen and ChatRollback.HandleFails determine |
| `ChatStream.ChatStream.ConversationLoop` | digcore/diagnose/streaming.go:91-196 | the round loop computes the rounds, the answer, the usage and the number of AI calls (ChatAnswer.AnswerIsStored) |
| `ChatStream.ChatStream.AnswerCalls` | digcore/diagnose/streaming.go:148-192 | the assistant message and one answer per call are appended |
| `ChatAnswer.EveryMessageEnds` | digcore/diagnose/streaming.go:91-196 | every message ends in one of three ways: some round answers without tool calls, some round fails, or 20 rounds call tools |
| `ChatAnswer.SliceIsHistory` | digcore/diagnose/streaming.go:91-192 | for every limit, the store a round starts from shows the history of that round, written out from replies and tool results alone |
| `ChatAnswer.AnswerIsStored` | digcore/diagnose/streaming.go:128-133 | for every limit and environment: when round k is the first without tool calls, its first choice is the reply, and the new history is the compacted history of that round and one assistant message with that content and no calls |
| `ChatAnswer.ExhaustedIsReported` | digcore/diagnose/streaming.go:195 | after 20 rounds of tool calls the reply is the incomplete text, nothing is added and all 20 calls are charged |
| `ChatAnswer.AnsweredWhen` | digcore/diagnose/streaming.go:73-88 | a message that is answered was answered in some round it reached, or ran out of its 20 rounds, so the two cases above are all there are |
| `ChatAnswer.UnlimitedAnswer` | digcore/diagnose/streaming.go:91-196 | without a limit the whole history is the trimmed one with the user message, then each round's call message and its results in order, then the answer |
| `ChatRollback.FailingRound` | digcore/diagnose/streaming.go:91-122 | every failed message fails in a round it reaches, by cancellation, a failed AI call or an empty reply |
| `ChatRollback.HandleFails` | digcore/diagnose/streaming.go:81-86 | a message that fails in round k re-slices the store of that round: a new length over it, or a panic |
| `ChatRollback.RollbackExactIff` | digcore/diagnose/streaming.go:71-86 | for every limit and every run that fails in round k, when the first message behind the sticky part is recognizable: the rollback restores exactly the trimmed history without the new turn if and only if that history is all sticky, or no earlier round compacted and the failing round built no new slice |
| `ChatRollback.QuietFailureIsExact` | digcore/diagnose/streaming.go:71-86 | no earlier compaction and no new slice in the failing round: exact rollback, for every history |
| `ChatRollback.ShortHistoryRollsBack` | digcore/diagnose/streaming.go:71-86 | a history that is all sticky is rolled back exactly for every limit, whatever is compacted when |
| `ChatRollback.FreshFailureCutsKept` | digcore/diagnose/streaming.go:83-86 | a new slice built in the failing round: the rollback is its front, well formed if and only if no tool answer follows, or a panic when it is too short |
| `ChatRollback.FailureAfterPrefix` | digcore/diagnose/streaming.go:99-192 | no round shortened the history until the one before the failing one cut it in place: the result is the kept front, the new call and answers, and the old messages behind them; well formed if and only if the new ones end at the cut or in front of a message that is no tool answer |
| `ChatRollback.FailureAfterFresh` | digcore/diagnose/streaming.go:99-192 | the round before the failing one built a new slice: the result is the front of it and of the tool round, beyond that zero messages or a panic, with the exact condition for its form |
| `ChatRollback.MessageFormIff` | digcore/diagnose/streaming.go:73-88 | for every limit and outcome a message keeps the history well formed if and only if a rollback, if any, leaves a tidy store: the cut is not in front of a tool answer, or the stale messages it brings back are complete by themselves |
| `ChatRollback.ConversationFormIff` | digcore/diagnose/streaming.go:73-88 | over every conversation and for every limit the history is well formed all along if and only if every rollback leaves a tidy store |
| `ChatRollback.SystemPromptStays` | digcore/diagnose/streaming.go:73-88 | over every conversation and for every limit no trim, compaction, rollback, panic or reset loses the system prompt |
| `ChatRollback.ResetLeavesPrompt` | digcore/diagnose/streaming.go:371-379 | after any conversation a reset leaves the system prompt and nothing else |
| `ChatRollback.RollbackCanPanic` | digcore/diagnose/streaming.go:81-86 | a concrete history, limit and failure for which re-slicing panics |
| `ChatRollback.RollbackKeepsTurn` | digcore/diagnose/streaming.go:81-86 | a concrete history and limit after which the rolled-back history still ends in the new turn |
| `ChatRollback.RollbackLeavesOrphan` | digcore/diagnose/streaming.go:81-86 | a concrete history and limit: one tool round after compaction, then a failure, leave a tool answer without its call |
| `ChatRollback.RollbackCutsCall` | digcore/diagnose/streaming.go:81-86 | a concrete history and limit: a new slice, one tool round and a cancellation leave a call without its answer |
| `ChatRollback.RollbackBringsZeros` | digcore/diagnose/streaming.go:81-86 | a concrete history, limit and spare capacity after which the rolled-back history ends in a zero message |
| `ChatPromise.ExactForAllIff` | digcore/diagnose/streaming.go:71-88 | before the call: whatever the AI and the tools will do, an error leaves exactly the trimmed history without the new turn, if and only if there is no limit or that history is no longer than its own sticky part |
| `ChatPromise.FormForAllIff` | digcore/diagnose/streaming.go:71-88 | before the call: whatever the AI and the tools will do, the message leaves a well-formed history, if and only if there is no limit or the trimmed history without the new turn is no longer than the sticky part of what compaction makes of it |
| `ChatPromise.BreakerBreaks` | digcore/diagnose/streaming.go:91-192 | otherwise a heavy tool answer, a round of calls and a cancellation leave a call without all of its answers |
| `ChatPromise.HeavyEnd` | digcore/diagnose/aiclient/compact.go:12-58 | compaction of a history whose last message alone is over the limit leaves the sticky part |
| `ChatPromise.ConversationWellFormed` | digcore/diagnose/streaming.go:73-88 | over every conversation whose messages are safe by that condition, in particular every one without a limit, the history is well formed all along |
| `Resp.DigitsRoundTrip` | plugins/redis/accessor.go:319-336 | decimal digits read back as the number |
| `Resp.ItoaRoundTrip` | plugins/redis/accessor.go:364-372 | ParseInt undoes Itoa on all 64-bit integers, and no newline occurs |
| `Resp.ReadLine` | plugins/redis/accessor.go:418-424 | a successful line read consumes input, a failed one never gains any |
| `Resp.ReadLineOf` | plugins/redis/accessor.go:418-424 | a newline-free payload with CRLF reads back exactly and leaves the rest |
| `Resp.ReadNumberOf` | plugins/redis/accessor.go:363-401 | a printed length or integer reads back and leaves the rest |
| `Resp.ReadBulkOf` | plugins/redis/accessor.go:373-392 | a bulk string of any bytes reads back if and only if it is within 1 MiB; otherwise it fails with the payload unread |
| `Resp.ReadValue` | plugins/redis/accessor.go:345-416 | every value read consumes at least one byte, so the recursion terminates on the remaining input |
| `Resp.ReadEncoded` | plugins/redis/accessor.go:345-416 | reading any encoded reply followed by anything gives its value and the rest, or the first error inside it and the exact unread bytes |
| `Resp.ReadEncodedAll` | plugins/redis/accessor.go:405-411 | the same for the elements of an array, in order |
| `Resp.ErrorFreeIff` | plugins/redis/accessor.go:405-411 | a reply is error free if and only if no first error exists |
| `Resp.FramingRoundTrip` | plugins/redis/accessor.go:345-416 | a reply comes back whole if and only if it is error free; the reader stands at the next reply if and only if nothing follows the first error inside it |
| `Resp.CutReplyFails` | plugins/redis/accessor.go:345-436 | a stream that ends anywhere inside an error-free reply fails with end of input |
| `Resp.CutElementsFail` | plugins/redis/accessor.go:405-411 | the same for the elements of an array |
| `RespInput.ParseIntIff` | plugins/redis/accessor.go:368-401 | a text is read as a 64-bit number if and only if it is that number in decimal with an optional sign and any leading zeros |
| `RespInput.PrintedPlainly` | plugins/redis/accessor.go:372 | an integer comes back without plus sign or leading zeros |
| `RespInput.ReadAnyLine` | plugins/redis/accessor.go:418-424 | a line ends at the first newline, and one carriage return in front of it is not part of the line |
| `RespInput.SplitLine` | plugins/redis/accessor.go:418-424 | every input with a newline starts with such a line |
| `RespInput.ReadAnything` | plugins/redis/accessor.go:345-416 | the answer to every prefix byte and every line behind it: text, server error, bad number, nil for any negative length, refusal over 1 MiB, missing payload, elements, unknown prefix, each with the unread bytes |
| `RespInput.ReadNothing` | plugins/redis/accessor.go:345-416 | without a newline behind the prefix nothing is read |
| `RespInput.ElementsInOrder` | plugins/redis/accessor.go:405-412 | array elements are read one behind the other, each where the one before ended, up to the first failure, for any bytes |
| `Resp.ReadArguments` | plugins/redis/accessor.go:319-336 | the arguments of a command read back in order, or the read fails on the first oversized one |
| `Resp.CommandRoundTrip` | plugins/redis/accessor.go:319-336 | for any argument list, reading the command back yields the arguments and leaves the rest untouched if and only if every argument is at most 1 MiB |
| `Resp.WriteCommand` | plugins/redis/accessor.go:319-336 | the builder loop writes an array of bulk strings |
| `Resp.Reader.ReadLineM` | plugins/redis/accessor.go:418-424 | one line is consumed up to its newline |
| `Resp.Reader.ReadFull` | plugins/redis/accessor.go:426-436 | reads of arbitrary sizes fill the buffer with exactly the next n bytes, or exhaust the input |
| `Resp.Reader.ReadBulkM` | plugins/redis/accessor.go:373-392 | consumes exactly what the bulk function says, on every error path too |
| `Resp.Reader.ReadReplyValue` | plugins/redis/accessor.go:345-416 | result and remaining bytes are those of the reading function |
| `Resp.Reader.ReadArray` | plugins/redis/accessor.go:405-412 | fills the elements in order and stops at the first failure |
| `AlertEngine.StepIsGood` | digcore/engine/engine.go:52-148 | one event of any key keeps the bookkeeping of every key equal to its episode |
| `AlertEngine.AlertKeepsPace` | digcore/engine/engine.go:100-148 | one alert keeps the pacing promises of its episode |
| `AlertEngine.AlertKeepsRecord` | digcore/engine/engine.go:100-148 | one alert keeps FirstFireTime, NotifyCount and LastSent equal to what the episode shows |
| `AlertEngine.AlertKeepsDiagnosis` | digcore/engine/engine.go:66-78 | one alert keeps the diagnosed mark equal to "a sent alert could be diagnosed" |
| `AlertEngine.RunIsGood` | digcore/engine/engine.go:25-148 | over every run and for every key, record, diagnosis mark and pacing agree with the episode |
| `AlertEngine.AlertsArePaced` | digcore/engine/engine.go:100-148 | over every run: NotifyCount is the number of sends of the episode, at most RepeatNumber, pairwise RepeatInterval seconds apart, ForDuration seconds after the first alert; FirstFireTime is the first alert |
| `AlertEngine.SentIffDue` | digcore/engine/engine.go:100-157 | over every run a non-Ok event of an enabled key is sent if and only if the notifier accepts it and the pacing of its episode allows it: a first alert when ForDuration is 0, a later one when ForDuration has passed since the first, RepeatNumber is not used up and RepeatInterval has passed since the last send |
| `AlertEngine.OtherKeysUntouched` | digcore/engine/engine.go:52-148 | an event changes and reports nothing about other keys |
| `AlertEngine.RecoveryForwardedIff` | digcore/engine/engine.go:81-97 | over every run a recovery is forwarded if and only if recovery is enabled and the episode it ends had a send whose last time is positive |
| `AlertEngine.RecoveriesSeparated` | digcore/engine/engine.go:81-97 | between an Ok event and a later forwarded recovery of the same key an alert of that key was sent |
| `AlertEngine.SubmissionsSeparated` | digcore/engine/engine.go:66-78 | between two diagnosis submissions of a key there is an Ok event of that key |
| `AlertCache.EventCache.Set` | digcore/engine/cache.go:25-29 | the event is stored by reference under its key |
| `AlertCache.EventCache.Del` | digcore/engine/cache.go:31-35 | only that key is removed |
| `AlertCache.Engine.FirstAlert` | digcore/engine/engine.go:103-120 | the event is stored first and mutated afterwards; the cached bookkeeping is the first-alert verdict |
| `AlertCache.Engine.RepeatedAlert` | digcore/engine/engine.go:122-148 | the cached bookkeeping moves to the incoming event exactly as the repeat rules say; it is sent as AlertEngine.SentIffDue says |
| `AlertCache.Engine.HandleAlertEvent` | digcore/engine/engine.go:100-148 | the handler takes the alert step of the machine and changes no other key |
| `AlertCache.Engine.HandleRecoveryEvent` | digcore/engine/engine.go:81-97 | removes the key and forwards exactly in the recovery case |
| `AlertCache.Engine.MayTriggerDiagnose` | digcore/engine/engine.go:66-78 | submits at most once per key until the mark is cleared |
| `AlertCache.Engine.Dispatch` | digcore/engine/engine.go:52-62 | one event takes exactly the machine step and logs its actions |
| `AlertCache.Engine.Record` | digcore/engine/engine.go:52-62 | the object stays equal to the run of the whole event history |
| `AlertCache.Engine.PushOne` | digcore/engine/engine.go:33-62 | an unknown status changes nothing; a missing time becomes now |
| `AlertCache.Engine.PushRawEvents` | digcore/engine/engine.go:25-64 | a queue of fresh events, nil entries included, leaves the object equal to the machine run over the history extended by the cleaned events in order |
| `AlertCache.CleaningSays` | digcore/engine/engine.go:33-50 | which status is passed on, and that a missing time becomes now and any other stays |
| `SessionSlots.StepKeepsSlots` | digcore/server/session_handler.go:43-86 | every step keeps occupied slots equal to local diagnoses plus unreleased session tasks, within capacity |
| `SessionSlots.StepKeepsMap` | digcore/server/session.go:88-139 | every step keeps the session map and the tasks in agreement |
| `SessionSlots.SessionsBounded` | digcore/server/session.go:88-123 | the session map is never larger than the occupied slots |
| `SessionSlots.StepKeepsWire` | digcore/server/session_handler.go:12-87 | every step keeps each session's messages in protocol order |
| `SessionSlots.SlotConservation` | digcore/diagnose/engine.go:86-96 | over all interleavings: slots are conserved and bounded, bound the map, every live task is in the map, cancelled or about to be, and all slots are free when all work is over |
| `SessionSlots.SessionProtocol` | digcore/server/session_handler.go:12-87 | over all interleavings each session_start gets one ACK; a positive one precedes all outputs; the one done=true output is the last |
| `SessionSlots.CancelledOnlyWhenAsked` | digcore/server/session_handler.go:43-86 | over all interleavings a session is cancelled only when its connection is lost, it was asked to stop, or its ID is taken, and in the last case it is |
| `SessionSlots.LocalTakesSlot` | digcore/diagnose/engine.go:86-96 | a local diagnosis starts if and only if a slot of the same semaphore is free, and takes it |
| `SessionSlots.CancelStops` | digcore/server/session.go:99-143 | a cancel removes the session registered under that connection and ID, and no other, and has it cancelled |
| `SessionSlots.FireCancelStops` | digcore/server/session.go:99-143 | the call behind a cancel marks its task and no other |
| `SessionSlots.DisconnectStops` | digcore/server/session.go:126-143 | a lost connection cancels all of its sessions and none of another connection |
| `SessionReuse.FinishingHitsSuccessor` | digcore/server/session_handler.go:82-86 | over every run a finishing goroutine removes and cancels another registration if and only if an earlier step took its own away and a later step registered another task under the same ID, which is still there |
| `SessionReuse.FreshIdsAreSafe` | digcore/server/session_handler.go:82-86 | over every run in which no two tasks share connection and ID, a finishing goroutine never removes the registration of another |
| `SessionReuse.ReusedIdIsHit` | digcore/server/session_handler.go:82-86 | from any state with a free slot and a running registered session, six steps let its end cancel the session that reuses its ID |
| `SessionReuse.ReuseIsReachable` | digcore/server/session_handler.go:82-86 | such a hit is reached from the initial state with two slots in eight steps |
| `SessionDrain.NeverStuck` | digcore/server/session_handler.go:12-87 | in every state a session_start that is not over can take its next step and is closer to its end after it |
| `SessionDrain.SlotsComeBack` | digcore/server/session_handler.go:12-87 | from every reachable state, steps that only finish work lead to a state with every slot free and no session registered |
| `SessionSteps.StartTakes` | digcore/server/session_handler.go:12-87 | one session_start is Start; Start, Register, ReleaseRejected, AckNo; or Start, Register, AckYes; with their effect on slots, session map and messages |
| `SessionSteps.RunTakes` | digcore/server/session_handler.go:82-86 | the outputs of a run, then EmitDone, Unregister and Release, with their effect on slots, session map and messages |
| `SessionRun.SessionManager.Add` | digcore/server/session.go:88-96 | adds if and only if the ID is free, and changes nothing otherwise |
| `SessionRun.SessionManager.Remove` | digcore/server/session.go:99-109 | removes by ID and cancels whoever was registered |
| `SessionRun.SessionManager.CancelAll` | digcore/server/session.go:126-143 | empties the map and cancels everything that was in it |
| `SessionRun.Limiter.TrySem` | digcore/diagnose/engine.go:496-503 | takes a slot if and only if one is free |
| `SessionRun.Limiter.ReleaseSem` | digcore/diagnose/engine.go:506-508 | gives exactly one slot back |
| `SessionRun.UnavailableError` | digcore/server/session_handler.go:120-140 | empty if and only if a limiter and the engine for that session type exist |
| `SessionRun.HandleSessionStart` | digcore/server/session_handler.go:12-87 | on every path exactly one message is sent, an ACK; it is positive if and only if payload, ID, engine, slot and uniqueness allow; session registered, with the requested ID and type, and slot kept if and only if it is positive |
| `SessionRun.StartOnMachine` | digcore/server/session_handler.go:12-87 | the handler takes exactly these steps of the interleaving machine: slots and registered IDs stay those of the machine, and the session has the requested type |
| `SessionRun.DiagnoseTraceShape` | digcore/server/session_handler.go:208-254 | an inspection or diagnosis never sends done=true itself and reports exactly the promised error |
| `SessionRun.RunInspectOrDiagnose` | digcore/server/session_handler.go:208-254 | passes the streamed text through in order, returns the report, and reports exactly the promised error |
| `SessionRun.ProcessTurn` | digcore/server/session_handler.go:294-319 | adds the streamed text in order, then one closing message (answer, error, recovered panic), none when cancelled |
| `SessionRun.RunChat` | digcore/server/session_handler.go:256-343 | sends the outputs of the turns in order up to the first cancelled one, never done=true, and an error only when chat cannot be opened |
| `SessionRun.RunRemoteSession` | digcore/server/session_handler.go:159-204 | every type, error and cancel path sends exactly one done=true output, as the last message, with the report if there is one |
| `SessionRun.DispatchedByType` | digcore/server/session_handler.go:159-204 | what each session type sends: a chat its turns, an inspection or diagnosis its stream, another type an error, a cancelled one nothing, then the last message |
| `SessionRun.DiagnosisSays` | digcore/server/session_handler.go:208-254 | a diagnosis sends its streamed text in order and at most one error, which one by engine, plugin, result and cancellation |
| `SessionRun.ReportSays` | digcore/server/session_handler.go:186-204 | the last message carries the report if and only if an inspection or diagnosis delivered one |
| `SessionRun.TurnSays` | digcore/server/session_handler.go:294-319 | a turn sends its streamed text, then the answer, the error or the recovered panic, and nothing more when cancelled |
| `SessionRun.ChatSays` | digcore/server/session_handler.go:256-292 | a chat sends the outputs of its turns, in order, up to and including the first cancelled one |
| `SessionRun.ChatTurns` | digcore/server/session_handler.go:256-292 | the message of the start is the first turn, the inputs follow |
| `SessionRun.RunGoroutine` | digcore/server/session_handler.go:82-86 | the goroutine of an accepted session sends the whole run of its type, removes its ID and gives its slot back, as the machine steps do |
| `SessionRun.AcceptedRunIsFinished` | digcore/server/session_handler.go:80-86 | a positive ACK followed by a complete run is a finished session of the interleaving machine |
| `SessionRun.ServeSession` | digcore/server/session_handler.go:12-87 | one session_start to its end: a refusal was sent, or a positive ACK and then the whole run of the requested type; the registry is as before, no slot is missing, and every effect is a step of the interleaving machine |
| `Aggregator.StepConserves` | digcore/diagnose/aggregator.go:50-114 | each step keeps the accepted events of a key, each with its snapshot, equal in order to those released plus those pending |
| `Aggregator.StepKeepsConsistent` | digcore/diagnose/aggregator.go:50-114 | each step keeps pending and timers on the same keys and every request well formed |
| `Aggregator.AggregatorConservation` | digcore/diagnose/aggregator.go:37-114 | over every run (late timer callbacks and shutdown included) each accepted event is, with the snapshot it came with, pending, submitted or discarded, exactly once and in order |
| `Aggregator.AcceptedExactly` | digcore/diagnose/aggregator.go:37-54 | over every run the accepted events are, in order, exactly the submitted ones with AI and diagnosis enabled, a status other than Ok and a severity of at least the minimum, Critical above Warning above Info |
| `Aggregator.WindowSettings` | digcore/diagnose/aggregator.go:55-103 | an accepted event opens a window with the settings it came with and the defaults for unset ones, or joins the open one with its snapshot; other windows stay |
| `Aggregator.WindowIsSubmitted` | digcore/diagnose/aggregator.go:88-103 | over every run before a shutdown, the end of a window leaves everything accepted for its key submitted, in order, each event with the snapshot it came with |
| `Aggregator.DropDiscards` | digcore/diagnose/aggregator.go:106-114 | a shutdown step closes the window of its key and no other and submits nothing |
| `Aggregator.KeyInjective` | digcore/diagnose/aggregator.go:50-54 | equal keys mean equal plugin and target unless one plugin name shadows the other |
| `Aggregator.KeysCollideIff` | digcore/diagnose/aggregator.go:50-54 | two different plugin names can share a key if and only if one is the other followed by a colon, or by two colons and anything |
| `Aggregator.ShadowsCollide` | digcore/diagnose/aggregator.go:50-54 | names that shadow each other do collide, with nonempty targets |
| `Aggregator.ShadowHasColon` | digcore/diagnose/aggregator.go:50-54 | a shadowing name contains a colon, so colon-free plugin names never collide |
| `Aggregator.OneTargetPerWindow` | digcore/diagnose/aggregator.go:50-66 | over every run events that share a window share plugin and target, unless one plugin name shadows the other |
| `Aggregator.KeysCollide` | digcore/diagnose/aggregator.go:50-54 | a concrete collision with a colon in a plugin name |
| `Aggregator.DiagnoseAggregator.SubmitEvent` | digcore/diagnose/aggregator.go:37-103 | takes exactly the submit step, which Aggregator.AcceptedExactly and Aggregator.WindowSettings determine |
| `Aggregator.DiagnoseAggregator.FireTimer` | digcore/diagnose/aggregator.go:88-102 | hands over the pending request if it is still there, once |
| `Aggregator.DiagnoseAggregator.Shutdown` | digcore/diagnose/aggregator.go:106-114 | empties both maps, submits nothing more and keeps every conservation law |
| `RingBuffer.StepOrderly` | digcore/server/ringbuf.go:32-66 | a push or drain keeps drained events in push order without duplicates and every push accounted for |
| `RingBuffer.RunOrderly` | digcore/server/ringbuf.go:32-66 | over every run: pushes = drained + overwritten + held, drained in strictly increasing push order |
| `RingBuffer.PushStores` | digcore/server/ringbuf.go:32-40 | writing at head and advancing it stores the drop-oldest append |
| `RingBuffer.DrainStores` | digcore/server/ringbuf.go:44-66 | shrinking the count leaves exactly the newer events stored |
| `RingBuffer.RingBuffer.constructor` | digcore/server/ringbuf.go:20-28 | nonpositive capacities become the default |
| `RingBuffer.RingBuffer.PushEvent` | digcore/server/ringbuf.go:32-40 | the circular array refines the bounded queue: what is held is always the newest pushes |
| `RingBuffer.RingBuffer.WriteNewest` | digcore/server/ringbuf.go:32-40 | the array holds the drop-oldest append |
| `RingBuffer.RingBuffer.DrainEvents` | digcore/server/ringbuf.go:44-66 | returns the oldest events in order, at most the asked number, keeps the rest; all drained events are, by push number, what the abstract queue drained |
| `RingBuffer.RingBuffer.TakeOldest` | digcore/server/ringbuf.go:57-65 | the copy loop returns the n oldest and leaves the others in place |
| `RingBuffer.RingBuffer.Len` | digcore/server/ringbuf.go:69-73 | the number of held events |
| `RingBuffer.RingBuffer.Flush` | digcore/server/conn.go:366-402 | an uninterrupted flush sends everything held in ordered nonempty batches of at most 100; the first batch that cannot be handed on is lost and the rest stays |
| `RestartWindow.AfterTwice` | plugins/docker/docker.go:403-412 | expiring at an early and then a later cutoff is expiring at the later one |
| `RestartWindow.GrowAfter` | plugins/docker/docker.go:388-412 | expiring before or after recording an increment makes no difference |
| `RestartWindow.TracksIncrements` | plugins/docker/docker.go:388-417 | under a non-decreasing clock the records are exactly, in order, the positive increments since the last reset that lie inside the window |
| `RestartWindow.IncrementsAreGains` | plugins/docker/docker.go:388-401 | the increments are, by position, the positive differences of neighbouring counts since the last decrease, with the time of the later one |
| `RestartWindow.RestartsInWindow` | plugins/docker/docker.go:388-417 | over every run the number the check works with is the sum of those differences that were observed inside the window |
| `RestartWindow.CompactInPlace` | plugins/docker/docker.go:403-412 | the in-place compaction keeps exactly the unexpired records in order |
| `RestartWindow.Total` | plugins/docker/docker.go:414-417 | the sum of the recorded counts |
| `RestartWindow.ContainerRestartState.UpdateCount` | plugins/docker/docker.go:388-401 | the first observation initialises, a decrease resets, an increase is recorded |
| `RestartWindow.ContainerRestartState.CheckRestart` | plugins/docker/docker.go:388-417 | takes exactly the observation step and returns the sum inside the window |
| `DiagnoseState.StepAgrees` | digcore/diagnose/state.go:49-69 | every call keeps the map equal to the latest expiries minus expired entries |
| `DiagnoseState.RunAgrees` | digcore/diagnose/state.go:49-69 | the same over every run under a non-decreasing clock |
| `DiagnoseState.CooldownAnswers` | digcore/diagnose/state.go:56-69 | lazy deletion is invisible: the answer is that of a map that is never purged |
| `DiagnoseState.CooldownInSeconds` | digcore/diagnose/state.go:49-69 | over every run a key is cooling down if and only if the current second is before the second of the latest time and duration set for it |
| `DiagnoseState.NoCooldown` | digcore/diagnose/state.go:56-69 | a key that was never set is not cooling down |
| `DiagnoseState.PurgedExactly` | digcore/diagnose/state.go:56-69 | asking deletes the asked key exactly when it has expired, a clean-up every expired key; the rest stays |
| `DiagnoseState.StoredDate` | digcore/diagnose/state.go:71-78 | each counter is the sum of what was added to it on the stored date |
| `DiagnoseState.DailyTotal` | digcore/diagnose/state.go:34-47 | on any date the input and output counters are the tokens added on that date |
| `DiagnoseState.DiagnoseStateStore.Add` | digcore/diagnose/state.go:34-40 | takes exactly the add step |
| `DiagnoseState.DiagnoseStateStore.Total` | digcore/diagnose/state.go:42-47 | resets on a new date, then answers the sum of both counters |
| `DiagnoseState.DiagnoseStateStore.IsDailyLimitReached` | digcore/diagnose/state.go:147-152 | true if and only if a positive limit is reached by today's tokens |
| `DiagnoseState.DiagnoseStateStore.SetCooldown` | digcore/diagnose/state.go:49-54 | stores the expiry of that key only |
| `DiagnoseState.DiagnoseStateStore.CooldownActive` | digcore/diagnose/state.go:56-69 | answers for the stored expiry and deletes it exactly when expired |
| `DiagnoseState.DiagnoseStateStore.Clean` | digcore/diagnose/state.go:129-136 | removes exactly the expired cooldowns, in any visiting order |
| `Backoff.StoredInRange` | digcore/server/conn.go:501-543 | over every failure sequence the stored backoff stays within 1 and 1800 seconds, and exceeds 300 only right after an authentication failure |
| `Backoff.WaitsInRange` | digcore/server/conn.go:203-236 | every wait is at least a second, at most 1800 unless the server asked for more; an ordinary wait above 300 only follows an authentication failure |
| `Backoff.OrdinarySchedule` | digcore/server/conn.go:501-543 | k consecutive ordinary failures anywhere in any run: the first waits the stored backoff b, the k-th min(b*2^k, 300) seconds |
| `Backoff.OrdinaryScheduleFromStart` | digcore/server/conn.go:501-543 | from the start or after an announced disconnect that is min(2^k, 300) |
| `Backoff.OrdinaryWaitExceedsIff` | digcore/server/conn.go:200-202 | an ordinary failure waits more than the documented 300 seconds if and only if the failure before was an authentication failure that waited more than 150 |
| `Backoff.LongOrdinaryWait` | digcore/server/conn.go:200-202 | three rejected tokens and an ordinary failure: 480 seconds |
| `Backoff.AuthSchedule` | digcore/server/conn.go:501-543 | k consecutive authentication failures anywhere in any run: the k-th waits min(max(stored, 60)*2^k, 1800) seconds |
| `Backoff.ResetSchedule` | digcore/server/conn.go:514-537 | an announced disconnect waits the announced time, at least a second, and starts over at one second; a lost connection waits one second and stores two |
| `Backoff.RunForever` | digcore/server/conn.go:203-236 | the loop makes exactly the waits of the schedule |
| `ToolRegistry.ApplyKeepsAgreement` | digcore/diagnose/registry.go:44-81 | every registration, duplicates included, keeps index and categories in agreement |
| `ToolRegistry.RegistryAgreement` | digcore/diagnose/registry.go:44-81 | after any registrations each indexed tool sits in exactly one slot and vice versa, and the index counts the slots |
| `ToolRegistry.FirstRegistrationStays` | digcore/diagnose/registry.go:44-66 | over any registrations the index holds the tool that was registered first under its name, and the tool sits in the category it was registered for |
| `ToolRegistry.IndexedNamesWereRegistered` | digcore/diagnose/registry.go:44-66 | the index holds no name that was not registered |
| `ToolRegistry.LastDescriptionStays` | digcore/diagnose/registry.go:69-81 | the description of a category is the one set last |
| `ToolRegistry.ToolSupportedOn` | digcore/diagnose/registry.go:336-352 | whatever order the categories are visited in, the answer is: the tool's home category and the tool itself allow the OS |
| `ToolRegistry.ByPluginForOS` | digcore/diagnose/registry.go:126-140 | the supported tools of the category, in order |
| `ToolRegistry.SupportingInOrder` | digcore/diagnose/registry.go:126-140 | the listing keeps the order of the tools and leaves out exactly the unsupported ones |
| `ToolRegistry.CategoryByDescription` | digcore/diagnose/registry.go:354-366 | a description that contains a platform phrase in any letter case allows exactly that platform, one without any allows all |
| `ToolRegistry.AvailableWhere` | digcore/diagnose/registry.go:336-366 | a tool is available on an OS if and only if its home category's description and its own list of systems allow it |
| `ToolRegistry.ListedIffAvailable` | digcore/diagnose/registry.go:126-140 | a tool of a category is listed for an OS if and only if ToolSupportedOn accepts it there |
| `ToolRegistry.Route` | digcore/diagnose/executor.go:19-58 | a call goes to a listing, through the index by its own name, or through the index by the name argument of call_tool, with every missing-argument, unknown and unsupported answer |
| `ToolRegistry.ReachedIff` | digcore/diagnose/executor.go:22-56 | an indexed tool is reached through call_tool if and only if it is available and has a name; called by its own name if and only if it is available and that is no meta-tool name, or is call_tool and the name argument says call_tool too |
| `ToolRegistry.AnsweredOtherwise` | digcore/diagnose/executor.go:22-56 | exactly which calls are answered by a listing, a missing argument, an unknown or an unsupported tool, and for which name |
| `ToolRegistry.CallableIffAvailable` | digcore/diagnose/executor.go:19-58 | after any registrations some call runs an indexed tool if and only if it is available on the OS |
| `ToolRegistry.MetaNamedTool` | digcore/diagnose/executor.go:22-46 | a registry whose tool is named like a meta tool: offered, not reached by its own name, reached through call_tool |
| `ToolRegistry.OfferThenCall` | digcore/diagnose/toolconv.go:8-18 | an offered tool is run by its own name unless that is a meta-tool name, and through call_tool if and only if it has a name |
| `ToolRegistry.ToolRegistry.Register` | digcore/diagnose/registry.go:44-66 | adds the tool to category and index unless the name is taken |
| `ToolRegistry.ToolRegistry.RegisterCategory` | digcore/diagnose/registry.go:69-81 | updates the category's description and keeps its tools |
| `ToolRegistry.ToolRegistry.ToolCount` | digcore/diagnose/registry.go:273-277 | the number of category slots |
| `Report.ValidPrefixIff` | digcore/diagnose/report.go:133-144 | in valid UTF-8 a prefix is valid if and only if it ends where a character starts |
| `Report.ValidConcat` | digcore/diagnose/report.go:41-43 | valid UTF-8 concatenates |
| `RuneCodes.EncodedIsValid` | digcore/diagnose/report.go:133-144 | the grammar accepts every concatenation of encoded code points (section 3 of RFC 3629) |
| `RuneCodes.ValidIsEncoded` | digcore/diagnose/report.go:133-144 | the grammar accepts nothing else: valid text is the encoding of its code points |
| `Report.TruncateUTF8` | digcore/diagnose/report.go:133-144 | the loop computes the truncation |
| `Report.TruncationIsLongest` | digcore/diagnose/report.go:133-144 | on valid UTF-8 the truncation is valid and no longer valid prefix fits the limit |
| `Report.FittedIsValid` | digcore/diagnose/report.go:33-41 | a fitted body of valid parts is valid UTF-8 |
| `Report.FitBody` | digcore/diagnose/report.go:33-41 | the body is the report, or its truncation with the mark when that has room |
| `Report.FormatReportDescription` | digcore/diagnose/report.go:20-44 | at most 2048 bytes for every input: header, fitted body, footer, or the cut header; valid UTF-8 if the parts are |
| `Report.FormatReportComment` | digcore/diagnose/report.go:46-71 | on any bytes at most 1024 runes, invalid bytes counting one each; the footer is intact whenever it is shorter; the body is the fitted report or placeholder; valid UTF-8 if the parts are |
| `Report.FirstRunesCount` | digcore/diagnose/report.go:146-155 | cutting to n runes leaves exactly n runes, and valid UTF-8 whatever it came from |
| `Report.TruncatedRunesValid` | digcore/diagnose/report.go:146-155 | on valid UTF-8 the cut is a valid prefix |
| `Report.JoinedRunes` | digcore/diagnose/report.go:65-70 | joining byte strings never makes more runes than they had apart |
| `Report.CommentFits` | digcore/diagnose/report.go:46-71 | the comment never exceeds 1024 runes |
| `Report.FittedSays` | digcore/diagnose/report.go:33-41 | a description body within its budget is kept whole; otherwise it is the longest valid front of the report that leaves room for the mark, then the mark; without room for the mark, the longest valid front within the budget |
| `Report.FittedRunesSays` | digcore/diagnose/report.go:53-64 | the same for the comment body, in runes |

## Left out

- ChatRollback.RollbackExactIff: a statement about one run, which asks that the first message behind the sticky part occur once and be added by no tool round; without that a wrong store can equal the right one because messages repeat. `ChatPromise.ExactForAllIff`, over all runs, asks nothing of the kind.
- LogTail.LogTailer.ProcessFile: a poll is one atomic snapshot in which stat, open and read succeed; open and read errors, character-set decoding, the shortening of long lines for display and the event built from the result are not modelled.
- LogTail.LogTailer.MatchLines: UTF-8 sanitising and the include and exclude filters are arbitrary functions.
- ContextMerge.BuildContext: models the branch with context lines; the plain listing, the row text and its truncation are not modelled.
- Resp.ReadValue: array counts are unbounded integers; the allocation a huge count causes is not modelled.
- Resp.CommandRoundTrip: lengths are assumed to fit 64-bit integers, as they do in the source.
- AlertCache.Engine.PushRawEvents: the alert key is given; computing it from labels, defaulting labels and the notifiers themselves are not modelled. Notifier answers and the presence of an aggregator are inputs.
- SessionSlots.SessionProtocol: speaks of send attempts; a closed connection drops messages on the way out. session_error messages and the input channel of chats are not part of the interleaving machine.
- SessionRun.RunChat: which chat turns arrive before the cancellation is an input.
- SessionRun.ServeSession: one session by itself, without a cancel from outside; the interleaving of many is `SessionSlots`.
- Backoff.RunForever: waits are stated before jitter, and a run is the sequence of its failures; context cancellation and nil errors are not modelled.
- RestartWindow.ContainerRestartState.CheckRestart: thresholds and the event built from the count are not modelled.
- DiagnoseState.DiagnoseStateStore.SetCooldown: the key is given; loading and saving the state file are not modelled.
- ToolRegistry.ByPluginForOS: lower-casing of descriptions is modelled for ASCII letters.
- ToolRegistry.Route: parsing of arguments, the arguments passed on by call_tool and the tool functions behind a route are not modelled; neither is the chat's own tool switch.
- Report.FormatReportDescription: header, footer and truncation texts are parameters.
- Report.FormatReportComment: trimming white space is a parameter.
- Aggregator.DiagnoseAggregator.SubmitEvent: the check snapshot is given; extracting it from event attributes is not modelled.
- The HTTP, WebSocket, TLS, Docker and Redis connections, configuration decoding, logging and metrics: foreign calls.
- The other check plugins (cpu, mem, disk, dns, http, ping, ntp, netif and others): each compares one sample, or the difference of two successive samples, with its thresholds; their promises concern a single gathering, not a run.
- plugins/redis_sentinel/accessor.go: the same codec a second time.
- The diagnosis round loop of digcore/diagnose/engine.go, AI failover, prompts, the command line and the terminal output.
