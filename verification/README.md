# Verified models of the SDK's state machines, parsers and caches

This project models the parts of the Anthropic TypeScript SDK that carry real invariants, and proves what they promise.
Each module stands for one component; classes and loops in the source are classes and loops here, proved against
specification functions or against a log of what a run did, and the promises are lemmas about those.

| files | component |
|---|---|
| `JsonText`, `PartialJsonParser`, `PartialJsonLexing`, `PartialJsonMachine`, `PartialJsonRepair`, `PartialJsonTheorems` | the vendored partial-JSON parser, against sections 2 to 7 of RFC 8259 |
| `LineDecoding`, `EventStream` | the incremental line decoder, the server-sent-event decoder, and writing events back |
| `SessionLog`, `SessionToolRunner` | the session tool runner: its idle clock, reconnects, history, and confirmation gate |
| `ResultQueue` | the queue between the stream loop and the consumer, and the consumer's two phases |
| `FallbackStream`, `FallbackForm`, `FallbackSplice`, `FallbackLaws`, `FallbackCredit` | the refusal-fallback splicer |
| `ToolsetSequencing`, `EagerHandover` | starting tool calls while the reply streams, and toolsets that run their calls in order |
| `HashCache`, `TokenCache`, `WorkItemLease` | the file-hash cache, the access-token cache, and the work item's lease |
| `PercentEncoding`, `PercentDecoding`, `PercentSegments` | the percent encoder of query strings |

How the models are built:

- **Partial JSON.** `Tokens`, `Stripped`, `Unstripped` and `Generated` say what the four loops compute. `Run` reads
  tokens into the arrays and objects that are still open; the repaired text of a prefix spells `Shown(Run(...))`, the
  document with exactly its complete entries. `Spells(text, value)` is the RFC's grammar, with any blanks between tokens.
- **Session runner.** A run writes a log. `Lawful` says which acts may follow which logs; every method keeps `Valid`,
  which ties the runner's fields to the log, at every point where the source awaits. What may happen at an await (the
  countdown runs out, the consumer leaves) is the method `Await`; which events arrive, which sends succeed and when a
  listing fails are arbitrary. `StreamLoop` is a run over any number of connections; `Traced` and `Handled` say what it
  owes to the events that arrive, and an abort must have a reason.
- **Splicer.** A run is its exchanges, the requests with their replies. `Visible` is the client's message as a function
  of them and `Justified` says which request may come next; `SplicedEvents`, the loop with its early returns, computes
  both for every script of replies. A refusal may cut a stream off inside a block. `FallbackCredit` states the results
  over the hops' own events.
- **Eager calls.** Handing over, completing, settling, queueing and responding are separate steps that interleave in any
  order, and the stream may hand over any calls in any order; `RunSchedule` takes any schedule of them. `Lawful` holds
  of every run. `Sequential` is what a toolset is promised: its calls run one at a time, in the model's order.
- **Server-sent events.** What UTF-8 makes of a character is a function parameter, of which only `Utf8` is asked;
  `EventsOfEncoded` carries the statements about a text to its bytes.
- **Caches and lease.** Other processes, the clock, the provider and the server are arbitrary. The file system is asked
  only that a change stamps a ctime that lags real time by at most the trust margin (`SlowerClockBreaks` shows that this
  is needed), and the walk's clock may lag real time; timers of the lease are ideal.
- **Percent encoder.** Strings are UTF-16 code units as 16-bit vectors, and all bit operations are the source's. The
  specification starts from code points: `Units` spells them in UTF-16 and `Percent` in percent-encoded UTF-8.

What does not hold, with the exact condition:

- The encoder is wrong for a surrogate pair that straddles a 1024-unit boundary, and only then: `EncodesUtf8` and
  `DecodingRestores` are equivalences over all well-formed strings, and `StraddlingEmoji` is an input that fails.
- A forced `getToken` over a pending refresh puts two provider calls in flight, and nothing else does: `overlapped`
  becomes true exactly then (`GetToken`). Until then `OneCallAtATime` and `CachedIsNewest` hold. `OlderOverwrites` shows
  that of any two calls in flight the older one can overwrite the newer token, and `OlderRefreshOverwrites` is an input.
- A whole text that stops right after a bare number is stripped to nothing, and every other whole text is kept:
  `KeptUnlessBareNumber` is that equivalence.
- The runner's documentation says that a toolset runs its calls one at a time, in the model's order. With eager calls
  that holds exactly when every call that starts while the reply streams starts in turn, after all earlier calls of its
  toolset have been handed over: `RunSchedule` has that equivalence for every run, and `StartsExactly` for one start. It
  holds when handovers come in turn (`HandedThenStarted`), so for blocks that stream one after another
  (`OneByOneInTurn`). `SkippedCallOverlaps` is a run that breaks it.
- Eager handover skips a call when two calls close with no event between them that shows the model moving on, and only
  then: `NoneSkippedExactly` is that equivalence for the events before a fallback starts, and `OverlapSkips` an input.
  Blocks that stream one after another skip none (`NoneSkipped`). Calls are handed over in the order in which their
  blocks close (`ReadyInOrder`), which is the reply's order when blocks stream one after another (`CallsClimb`), but not
  otherwise (`OverlapReorders`).
- Passing an event through loses a byte order mark from each of its lines that still starts with one, which a line sent
  with two does, since decoding drops one; every other event is kept: `PassthroughKeepsEvents` is that equivalence for
  the events of any text, and `PassthroughKeepsEvent` for one event.
- A comment in `src/internal/qs/utils.ts` swaps its labels for upper and lower case letters; the code is followed.

## Model

| member | source | states |
|---|---|---|
| PartialJsonTheorems.PrefixRepairsToPartialView | src/_vendor/partial-json-parser/parser.ts:8-293 | for every prefix of a valid array or object text, from its opening bracket on, the text given to JSON.parse spells a value made of the document's complete entries |
| PartialJsonTheorems.NeverTakesBack | src/_vendor/partial-json-parser/parser.ts:8-293 | what a longer prefix shows extends what a shorter one has shown, and both are partial views of the whole document |
| PartialJsonTheorems.StripNeverTakesBack | src/_vendor/partial-json-parser/parser.ts:183-238 | the tokens kept of a prefix are a prefix of those kept of a longer one and of the document's; only the comma, key, colon and unterminated number of the unfinished entry are dropped |
| PartialJsonTheorems.WholeTextIsKept | src/_vendor/partial-json-parser/parser.ts:183-293 | a complete text other than a bare number keeps every token, gains none, and so keeps its value |
| PartialJsonTheorems.KeptUnlessBareNumber | src/_vendor/partial-json-parser/parser.ts:183-238 | a complete text keeps its tokens exactly when it does not stop right after a bare number, and is stripped to nothing otherwise |
| PartialJsonTheorems.SpelledValueIsUnique | src/_vendor/partial-json-parser/parser.ts:8-182 | a text spells at most one value, which its tokens determine |
| PartialJsonRepair.RepairedTokens | src/_vendor/partial-json-parser/parser.ts:183-276 | stripping and unstripping the tokens of any prefix gives exactly the tokens of the value shown |
| PartialJsonLexing.TokensOfPrefix | src/_vendor/partial-json-parser/parser.ts:8-182 | tokenizing a prefix gives the document's tokens that have arrived in full, and at most one unterminated number |
| PartialJsonParser.FindClosingQuote | src/_vendor/partial-json-parser/parser.ts:80-113 | the backwards count of backslashes finds the first quotation mark that is not escaped |
| PartialJsonParser.Tokenize | src/_vendor/partial-json-parser/parser.ts:8-182 | the nested loops compute `Tokens` |
| PartialJsonParser.Strip | src/_vendor/partial-json-parser/parser.ts:183-238 | the loop over the last token keeps `Stripped` |
| PartialJsonParser.Unstrip | src/_vendor/partial-json-parser/parser.ts:239-276 | appends the missing closing brackets, innermost first |
| PartialJsonParser.Repair | src/_vendor/partial-json-parser/parser.ts:277-293 | the four passes in a row compute `Repaired` |
| LineDecoding.FindNewlineIndex | src/internal/decoders/line.ts:86-104 | finds the first CR or LF at or after the start |
| LineDecoding.LineDecoder.Decode | src/internal/decoders/line.ts:24-67 | returns the lines that can be released of what was held and the chunk, and holds the rest; the loop ends by the pair of buffer length and pending CR |
| LineDecoding.LineDecoder.Flush | src/internal/decoders/line.ts:69-74 | returns the lines of what is held and empties the buffer |
| LineDecoding.ReleasedInSteps | src/internal/decoders/line.ts:24-67 | reading a text in two steps, even between CR and LF, releases what reading it at once does |
| LineDecoding.DecodeChunks | src/internal/decoders/line.ts:11-75 | for any way of cutting a text into chunks, decoding them and flushing gives its lines, ended by CRLF, LF or CR |
| LineDecoding.LinesByEnd | src/internal/decoders/line.ts:24-67 | a line ends at its first CRLF, LF or CR, and the text goes on behind it |
| EventStream.SSEDecoder.Decode | src/core/streaming.ts:330-371 | one line takes the decoder's fields and events to what `Fed` says, which the four rows below spell out by the line's characters |
| EventStream.FieldMeans | src/core/streaming.ts:358-368 | `data` appends the value and `event` sets it, without at most one blank after the colon; any other name changes neither |
| EventStream.NameAloneMeans | src/core/streaming.ts:358-368 | a line without a colon is a field with an empty value |
| EventStream.CommentMeans | src/core/streaming.ts:352-356 | a comment is kept among the raw lines and changes nothing else |
| EventStream.BlankMeans | src/core/streaming.ts:335-350 | a blank line completes an event with the data lines joined by newlines and forgets what was pending, unless there are no data and no name |
| EventStream.IterMessages | src/core/streaming.ts:285-317 | the events of a body are those of its lines, each decoded on its own, however its bytes are cut into chunks, inside a character or not |
| EventStream.EventsOfEncoded | src/internal/decoders/line.ts:50-60 | the events of a text's bytes are those of the text, given that UTF-8 keeps newlines apart from other characters |
| EventStream.SerializeSSE | src/lib/middleware.ts:1027-1032 | writes the event's field lines and a blank line |
| EventStream.SerializeRoundTrip | src/lib/middleware.ts:1027-1032 | serializing any list of writable events decodes back to the same events and data |
| EventStream.ReadSerialized | src/core/streaming.ts:285-317 | the serialized events are read back whatever chunks their bytes come in |
| EventStream.PassthroughSSE | src/lib/middleware.ts:975-977 | an event with raw lines is written as those lines |
| EventStream.PassthroughKeepsEvents | src/lib/middleware.ts:975-977 | passing on the decoded events of any text and decoding them again gives the same events, data and raw lines, comments carried over included, exactly when no raw line still starts with a byte order mark |
| EventStream.PassthroughKeepsEvent | src/lib/middleware.ts:975-977 | a single event passed on is read back as it was exactly when no line of it still starts with a byte order mark |
| SessionLog.AnsweredOnce | src/lib/tools/SessionToolRunner.ts:495-600 | in every lawful run, once a call is answered, denied or seen answered, no result is posted for it and its tool does not run again |
| SessionLog.RunsOnlyPermitted | src/lib/tools/SessionToolRunner.ts:611-697 | a tool runs only for a call the server did not deny whose latest confirmation is allow; one with none on record had permission absent or allow |
| SessionLog.RefusesOnlyDenied | src/lib/tools/SessionToolRunner.ts:611-697 | a call is refused only when the server denied it or its latest confirmation is not allow |
| SessionLog.HoldsOnlyGated | src/lib/tools/SessionToolRunner.ts:611-637 | a call is held only when its permission is ask or unknown and no confirmation is on record |
| SessionLog.PostsOnlyRuns | src/lib/tools/SessionToolRunner.ts:659-839 | a posted result is that of the run just before it, and a refused call posts nothing |
| SessionLog.IdleStopsOverNothing | src/lib/tools/SessionToolRunner.ts:179-258 | the countdown never runs out over a held call or a tool in flight, nor before the latest telling event ended the turn |
| SessionLog.VerdictIsLast | src/lib/tools/SessionToolRunner.ts:640-648 | the verdict on record is the last one recorded |
| SessionToolRunner.CourseOf | src/lib/tools/SessionToolRunner.ts:611-637 | a call runs or is allowed exactly when it may run, and is held exactly when it has no verdict and its permission is ask or unknown; a server-side deny overrides any verdict |
| SessionToolRunner.IdleClock.Block | src/lib/tools/SessionToolRunner.ts:207-219 | a running countdown becomes a pending one, and nothing is lost |
| SessionToolRunner.IdleClock.Unblock | src/lib/tools/SessionToolRunner.ts:225-228 | the countdown starts when the last blocker retires and a start is pending |
| SessionToolRunner.IdleClock.Arm | src/lib/tools/SessionToolRunner.ts:236-245 | arms the clock unless it is switched off, and never starts it over a blocker |
| SessionToolRunner.Runner.SendResult | src/lib/tools/SessionToolRunner.ts:795-839 | posts exactly one result when some attempt is accepted and none before it fails for good, marks the call answered exactly then, and throws only when aborted |
| SessionToolRunner.Runner.Execute | src/lib/tools/SessionToolRunner.ts:710-793 | leaves exactly the acts of one execution in the log, with no countdown over the tool; a pending countdown survives, except that an approved call owned elsewhere runs nothing and drops it |
| SessionToolRunner.Runner.ApplyVerdict | src/lib/tools/SessionToolRunner.ts:659-697 | gives up the hold, then executes an allowed call under its blocker or refuses any other; between events the blockers are again the held calls |
| SessionToolRunner.Runner.RouteToolEvent | src/lib/tools/SessionToolRunner.ts:611-637 | runs, holds or settles the call by its course, with the exact log, holds and answers |
| SessionToolRunner.Runner.NoteConfirmation | src/lib/tools/SessionToolRunner.ts:640-648 | records the verdict and settles the held call it is for, if any |
| SessionToolRunner.Runner.NoteEvent | src/lib/tools/SessionToolRunner.ts:200-204 | arms on an idle that ends the turn, disarms on any other event, and leaves the clock to a confirmation |
| SessionToolRunner.Runner.HandleStreamEvent | src/lib/tools/SessionToolRunner.ts:570-600 | each live event's effect on the log, the seen and answered calls, the verdicts and the clock; a replayed tool call is not routed again, and only an idle that needs no action arms the clock |
| SessionToolRunner.Runner.IngestHistory | src/lib/tools/SessionToolRunner.ts:548-567 | what one history event adds; a call is pending by `answered`, not by `seen` |
| SessionToolRunner.Runner.Reconcile | src/lib/tools/SessionToolRunner.ts:495-546 | every call of the history is answered, held or executed, no held call keeps a verdict, and the clock is armed exactly when the last telling event ended the turn and every call is answered or held; a failed listing makes its unanswered calls unseen |
| SessionToolRunner.Runner.ReleaseHeld | src/lib/tools/SessionToolRunner.ts:527-533 | applies recorded verdicts to the calls still held |
| SessionToolRunner.Runner.Rollback | src/lib/tools/SessionToolRunner.ts:510-521 | exactly the pending calls are forgotten |
| SessionToolRunner.Runner.StreamLoop | src/lib/tools/SessionToolRunner.ts:451-488 | over any connections the log stays lawful and between events nothing is in flight; unless aborted, for a reason, every live event was handled in order, every call shown is answered, held or was executed and run here if its tool is here, results and confirmations are on record, and the countdown is on only when an idle that needs no action was the last telling event |
| ResultQueue.AsyncQueue.Push | src/internal/utils/async-queue.ts:16-22 | an item goes to the read that has waited longest or is kept, and a closed queue refuses it |
| ResultQueue.AsyncQueue.Close | src/internal/utils/async-queue.ts:25-32 | ends every waiting read, once |
| ResultQueue.AsyncQueue.StartRead | src/internal/utils/async-queue.ts:40-60 | takes a kept item even when aborted, or ends, or waits; kept items and waiting reads never coexist |
| ResultQueue.AsyncQueue.Cancel | src/internal/utils/async-queue.ts:52-56 | an aborted read that waits ends and takes no item; one already settled is unchanged |
| ResultQueue.AsyncQueue.TryShift | src/internal/utils/async-queue.ts:63-65 | removes the first kept item |
| ResultQueue.Iteration.Iterate | src/lib/tools/SessionToolRunner.ts:371-432 | with any number of events before the first read, during each read and at each yield, an iteration that the consumer does not leave finishes exactly when the run is aborted and the stream loop settles, and has then yielded every surfaced outcome exactly once, in order |
| FallbackStream.BlockTracker.ApplyDelta | src/lib/middleware.ts:883-922 | changes the first block with the index and no other |
| FallbackStream.BlockTracker.Start | src/lib/middleware.ts:794-799 | appends the block, shifts its index and opens it |
| FallbackStream.BlockTracker.Stop | src/lib/middleware.ts:808-813 | closes the shifted index |
| FallbackStream.BlockTracker.CloseOpenBlocks | src/lib/middleware.ts:816-824 | a stop for every open block, and none stays open |
| FallbackStream.ConsumeHop | src/lib/middleware.ts:649-768 | what a hop shows and returns, for every event sequence, indices, usage and early end included |
| FallbackForm.HopForm | src/lib/middleware.ts:649-825 | a well-formed hop, cut off anywhere by a refusal, leaves the client's message complete or with every block closed and the next index free |
| FallbackForm.BlocksAreStreamed | src/lib/middleware.ts:776-825 | the accumulated blocks are the stream's blocks in order, each read from its own events alone |
| FallbackForm.BlockIsItsDeltas | src/lib/middleware.ts:883-922 | a block is what it started with and its own deltas in order: text, tool input, thinking and citations grow, signature and compaction are replaced, and the rest stays |
| FallbackSplice.TryEntry | src/lib/middleware.ts:501-551 | one request, and a second without the partial exactly after a 400 to a first that had one |
| FallbackSplice.SplicedEvents | src/lib/middleware.ts:436-606 | for every script of replies the loop returns inside its body, its requests are lawful, and the message is `Visible` of its exchanges, with the held refusal when every entry failed |
| FallbackLaws.OneMessage | src/lib/middleware.ts:436-606 | for any chain and any well-formed hops the client sees one well-formed message: one start, indices 0, 1, 2, ..., no open block at a fallback boundary, one final stop |
| FallbackLaws.TerminalUsage | src/lib/middleware.ts:738-757 | every delta that stops the message reports as iterations those of the chained refusals and one fallback_message for the hop that ended the message |
| FallbackLaws.IterationsNameRefusers | src/lib/middleware.ts:469-474 | one message entry for stream A and one for each chained refusal, in order; failed hops add none |
| FallbackLaws.CreditIsRedeemable | src/lib/middleware.ts:451-604 | each request redeems the latest refusal's token, carries what the refused request carried or that and the refused hop's output, and changes nothing else but model, thinking and the trailing turn |
| FallbackLaws.TurnIsRefusedOutput | src/lib/middleware.ts:451-604 | over the whole run, a request's assistant turn is the output of refused hops that granted the prefill claim, each at most once, in the order they refused |
| FallbackLaws.RedeemedOnce | src/lib/middleware.ts:553-604 | a token is never sent again once the entry that redeemed it was served |
| FallbackLaws.AtMostTwoRequests | src/lib/middleware.ts:501-551 | no entry is requested more than twice |
| FallbackLaws.EveryEntryInTurn | src/lib/middleware.ts:476-606 | no entry is skipped before the one that ends the message |
| FallbackCredit.RetriedExactly | src/lib/middleware.ts:703-726 | a hop is retried exactly when it refused with a token and an entry is left |
| FallbackCredit.CreditIsRefusals | src/lib/middleware.ts:451-604 | a request carries the token of the latest such refusal's event; the refused output goes into an entry's first request exactly when that event granted the prefill claim, and into its second never |
| FallbackCredit.RetriedWithoutPartial | src/lib/middleware.ts:530-542 | a 400 to a first request that carried a partial is followed by a second one without it |
| FallbackCredit.OutputIsStreamed | src/lib/middleware.ts:930-936 | the output sent back is every block streamed by the refusal, each tool input put together from its JSON when that parses |
| FallbackCredit.ClientReads | src/lib/middleware.ts:436-606 | the client reads every block of stream A and the served hops as streamed, with a fallback block between for each entry tried |
| FallbackCredit.BoundaryNames | src/lib/middleware.ts:481-499 | a boundary goes from the model that refused last to the entry, with that refusal's category |
| FallbackCredit.DegradedIsRefusal | src/lib/middleware.ts:553-587 | when every entry failed the message ends in the held refusal, as it came but for the entry tried last as recommended model |
| FallbackCredit.FirstIteration | src/lib/middleware.ts:469-474 | stream A's iteration has its refusal's usage, or else its start's |
| FallbackCredit.NextIteration | src/lib/middleware.ts:589-604 | each chained refusal adds one iteration with its own usage, or else its start's, and nothing else adds one |
| FallbackCredit.DeltaReaches | src/lib/middleware.ts:738-757 | a spliced hop's own usage wins over its start's, its delta is otherwise unchanged, and its iteration comes last |
| FallbackCredit.OthersReach | src/lib/middleware.ts:668-768 | block events reach the client with shifted indices and all others as they are, without the hop's start |
| ToolsetSequencing.RunsOnce | src/lib/tools/BetaToolRunner.ts:259-297 | no call of a reply runs twice or is answered twice |
| ToolsetSequencing.OneAtATime | src/lib/tools/BetaToolRunner.ts:893-979 | in a sequential run a registered toolset's runs are in the model's order and do not overlap: between two, the earlier call has been answered without an error |
| ToolsetSequencing.NoneAfterAnError | src/lib/tools/BetaToolRunner.ts:916-951 | in a sequential run, once a call of a registered toolset has failed or rejected, no later call of it runs, before or after |
| ToolsetSequencing.NoneAfterMalformed | src/lib/tools/BetaToolRunner.ts:956-968 | in a sequential run a malformed call keeps its toolset's later calls from running |
| ToolsetSequencing.MalformedNeverRuns | src/lib/tools/BetaToolRunner.ts:956-968 | a call named after a registered toolset that no function tool answers never runs and is answered with an error |
| ToolsetSequencing.RunsUnlessFailed | src/lib/tools/BetaToolRunner.ts:920-973 | an answered call has run, unless it is malformed or another call of its toolset was malformed, rejected or, in a registered toolset, failed |
| ToolsetSequencing.RunsAfterSuccesses | src/lib/tools/BetaToolRunner.ts:932-951 | in a sequential run a registered toolset's answered call has run when all earlier ones succeeded |
| ToolsetSequencing.StartsWhenIdle | src/lib/tools/BetaToolRunner.ts:265-296 | while the reply streams a call handed over for the first time starts exactly when it is not held and its toolset's calls handed over before have all succeeded and settled |
| ToolsetSequencing.SequentialNeedsTurns | src/lib/tools/BetaToolRunner.ts:262-278 | a lawful run that is sequential started its eager calls in turn |
| ToolsetSequencing.StartsExactly | src/lib/tools/BetaToolRunner.ts:265-278 | an eager start keeps its toolset's sequence exactly when every earlier call of the toolset has been handed over |
| ToolsetSequencing.HandedThenStarted | src/lib/tools/BetaToolRunner.ts:262-278 | calls that are handed over in turn start in turn |
| ToolsetSequencing.OneByOneInTurn | src/lib/internal/BetaToolRunnerStream.ts:117-150 | when the blocks of a reply stream one after another, whatever the stream's readers do, the calls it hands over start in turn |
| ToolsetSequencing.SkippedCallOverlaps | src/lib/tools/BetaToolRunner.ts:265-278 | an input that runs the calls of one toolset out of order and together |
| ToolsetSequencing.HeldUntilResponse | src/lib/tools/BetaToolRunner.ts:545-550 | a held call runs only after the response is generated |
| ToolsetSequencing.Runner.Defer | src/lib/tools/BetaToolRunner.ts:545-550 | holds a call that is not known, and does nothing otherwise |
| ToolsetSequencing.Runner.Arrive | src/lib/tools/BetaToolRunner.ts:265-296 | for any call in any order, starts the call exactly when it is unknown and its toolset is idle and the call is well formed; otherwise the toolset waits for the reply |
| ToolsetSequencing.Runner.Settle | src/lib/tools/BetaToolRunner.ts:279-285 | frees the toolset after a success, unless a later call waits |
| ToolsetSequencing.Runner.Respond | src/lib/tools/BetaToolRunner.ts:920-973 | every call has run, is answered or is queued behind its toolset's calls, and started calls are reused |
| ToolsetSequencing.Runner.TakeTurn | src/lib/tools/BetaToolRunner.ts:932-938 | a queued call runs in its turn, or is answered unrun when the sequence has failed |
| ToolsetSequencing.Runner.MoveOn | src/lib/tools/BetaToolRunner.ts:941-966 | the sequence fails after an error in a registered toolset, a rejection or a malformed call, and for no other reason |
| ToolsetSequencing.NoneStranded | src/lib/tools/BetaToolRunner.ts:920-973 | no queue stalls: once the response has begun, every begun call has ended, and no turn or move is left to take, every call of the reply is answered or has rejected |
| ToolsetSequencing.Runner.Response | src/lib/tools/BetaToolRunner.ts:920-978 | once nothing is left to happen, exactly one result for each call in the model's order, unless one rejected |
| ToolsetSequencing.RunSchedule | src/lib/tools/BetaToolRunner.ts:259-297 | any schedule of handovers, completions, callbacks, holds and responses keeps the laws, and is sequential exactly when its eager starts are in turn |
| EagerHandover.ReadyInOrder | src/lib/internal/BetaToolRunnerStream.ts:117-138 | calls become ready in the order in which their blocks close, as a subsequence of the calls that closed |
| EagerHandover.CallsClimb | src/lib/internal/BetaToolRunnerStream.ts:69-77 | when blocks stream one after another the calls close in the reply's order |
| EagerHandover.OverlapReorders | src/lib/internal/BetaToolRunnerStream.ts:117-138 | an input whose later call is handed over first though none is skipped |
| EagerHandover.NoneSkippedExactly | src/lib/internal/BetaToolRunnerStream.ts:117-138 | until a fallback starts, every call that closed is ready or coming exactly when an event shows the model moving on between any two that closed |
| EagerHandover.NoneSkipped | src/lib/internal/BetaToolRunnerStream.ts:117-138 | when blocks stream one after another, those ready are the first calls of the reply, without a gap |
| EagerHandover.OverlapSkips | src/lib/internal/BetaToolRunnerStream.ts:131-137 | when two blocks overlap in the stream the call that closes first is never handed over early |
| EagerHandover.ReadyMeansMovedOn | src/lib/internal/BetaToolRunnerStream.ts:117-138 | a ready call's block has closed, and then a block started or the reply stopped for tool use, with no other call closing in between and no fallback by then |
| EagerHandover.ReadyExactly | src/lib/internal/BetaToolRunnerStream.ts:127-137 | that is exactly when a call becomes ready, so a reply that is cut off leaves its last call unready |
| EagerHandover.ToolRunnerStream.HandedInOrder | src/lib/internal/BetaToolRunnerStream.ts:61-158 | at every moment the calls handed over are a part of the calls that closed, in that order, each moved on from before any fallback |
| EagerHandover.ToolRunnerStream.HandedOnceDone | src/lib/internal/BetaToolRunnerStream.ts:141-150 | a ready call has been handed over once every loop is done with the event that showed it |
| EagerHandover.ToolRunnerStream.HandedAfterReaders | src/lib/BetaMessageStream.ts:743-802 | no loop that is still reading has the event that showed a handed call waiting or in hand |
| EagerHandover.ToolRunnerStream.Count | src/lib/internal/BetaToolRunnerStream.ts:69-77 | an event is counted before the listeners, and delivered to every loop once |
| EagerHandover.ToolRunnerStream.TrackEvent | src/lib/internal/BetaToolRunnerStream.ts:78-79 | after the listeners the calls are what the events say, and all that can be handed over are |
| EagerHandover.ToolRunnerStream.Release | src/lib/internal/BetaToolRunnerStream.ts:141-150 | hands over exactly as far as every loop has caught up, and nothing after an error or abort |
| EagerHandover.ToolRunnerStream.Next | src/lib/internal/BetaToolRunnerStream.ts:89-107 | asking for the next event counts the held one as handled, and leaves no call waiting that could be handed over |
| EagerHandover.ToolRunnerStream.Return | src/lib/internal/BetaToolRunnerStream.ts:108-113 | leaving a loop fails the stream first, so nothing is handed over by it |
| HashCache.EntryIsSound | src/internal/file-store.ts:314-342 | an entry made from stamps read before its content was hashed is sound even if the file changed in between |
| HashCache.ChangeKeepsSound | src/internal/file-store.ts:518-530 | a change of the path makes a sound entry stop matching |
| HashCache.SlowerClockBreaks | src/internal/file-store.ts:518-530 | with a clock one nanosecond coarser than the margin an entry can match a changed file |
| HashCache.FileStore.HashViaCache | src/internal/file-store.ts:314-342 | with any changes and other calls meanwhile, every cached entry that matches a file has its content's hash, and a path that does not change gets its hash or None |
| HashCache.FileStore.HashTree | src/internal/file-store.ts:225-236 | for every path that does not change during the walk the result is what hashing it again would give |
| TokenCache.Cache.GetToken | src/lib/credentials/token-cache.ts:38-65 | answers at once exactly with a cached token that has no expiry or more than 30 s left; otherwise joins or makes one call; the first after an invalidation makes a forced call of its own, and exactly when that finds a refresh pending two calls come to be in flight; with at most 120 s left it refreshes in the background exactly when none is pending and the last failure is 5 s back |
| TokenCache.Cache.Settle | src/lib/credentials/token-cache.ts:116-129 | a settled call is no longer pending, caches its token, and a failed background one starts the back-off; a token that it caches is the newest fetched exactly when no later call had fetched one |
| TokenCache.Cache.OneCallAtATime | src/lib/credentials/token-cache.ts:83-129 | until a forced call is made over a pending refresh at most one call is in flight, and it is the pending one |
| TokenCache.Cache.CachedIsNewest | src/lib/credentials/token-cache.ts:83-129 | until then the cached token is that of the last call that fetched one |
| TokenCache.OlderOverwrites | src/lib/credentials/token-cache.ts:116-129 | of any two calls in flight the older, settling last, overwrites the newer token |
| TokenCache.OlderRefreshOverwrites | src/lib/credentials/token-cache.ts:73-129 | an input that puts two calls in flight and loses the newer token |
| WorkItemLease.Lease.Finish | src/lib/environments/worker.ts:668-689 | the first reason stays |
| WorkItemLease.HeartbeatLoop.Settle | src/lib/environments/worker.ts:724-785 | a loss is assumed exactly when a beat fails later than the ttl after the last success, which is no later than the ttl and two intervals after it |
| WorkItemLease.HeartbeatLoop.Wake | src/lib/environments/worker.ts:787-792 | the next beat expects the last success's heartbeat |
| WorkItemLease.ChainedNext | src/lib/environments/worker.ts:723-737 | every beat expects exactly the heartbeat of the last success before it |
| WorkItemLease.FailUntilLost | src/lib/environments/worker.ts:711-793 | a loop whose beats all fail from some moment on records the assumed loss, later than the ttl and no later than the ttl and two intervals after the last success |
| WorkItemLease.HandleItem | src/lib/environments/worker.ts:596-605 | the teardown force-stops exactly when the lease is not lost, and a lease held when the runner was done does not become lost in it; the first beat that does not extend the lease gives the reason, and when none does the reason is the runner's |
| PercentEncoding.Encode | src/internal/qs/utils.ts:162-212 | the segment loop computes `Encoded` |
| PercentEncoding.EncodeSegment | src/internal/qs/utils.ts:167-209 | the inner loop, which also bumps its index inside the body, computes the segment's encoding |
| PercentEncoding.PieceIsPercent | src/internal/qs/utils.ts:168-206 | one step appends the percent-encoded UTF-8 of the code point it emits |
| PercentEncoding.EscapedInUpperCase | src/internal/qs/utils.ts:10-17 | an escaped byte has two upper-case digits, high half first |
| PercentDecoding.UnescapedBack | src/internal/qs/utils.ts:183-191 | percent-decoding restores the bytes |
| PercentDecoding.FromUtf8Back | src/internal/qs/utils.ts:188-206 | a strict UTF-8 decoder restores the code points |
| PercentSegments.EncodedIsPercent | src/internal/qs/utils.ts:162-212 | for every input the output is the percent-encoded UTF-8 of the code points emitted |
| PercentSegments.UnitsEmittedAll | src/internal/qs/utils.ts:199-206 | each surrogate cut off by a segment's end makes the emitted text one unit longer than the input |
| PercentSegments.EncodesUtf8 | src/internal/qs/utils.ts:136-213 | a well-formed string is encoded as its percent-encoded UTF-8 exactly when no surrogate pair straddles a segment boundary |
| PercentSegments.DecodingRestores | src/internal/qs/utils.ts:136-213 | decoding restores a well-formed string exactly when no surrogate pair straddles a segment boundary |
| PercentSegments.StraddlingEmoji | src/internal/qs/utils.ts:163-200 | an input that is mis-encoded |

## Left out

- The network, real promises, timers, the file system, hashing, UTF-8 text decoding (other than its newlines and the byte order mark it drops from a line) and `JSON.parse`: arbitrary steps or function parameters.
- Logging, error callbacks, telemetry headers, pinning of a fallback state, and error message texts.
- The non-streaming fallback loop and the per-entry patches: the same chain without splicing.
- Cancelling the spliced body: only an abort that reaches a fallback's request is modelled.
- A hop whose connection breaks: its stream is not well formed, and the spliced stream errors with it.
- The session runner's outcomes as records: the queue carries them as opaque items, and a post that the server took but the client saw fail counts as failed.
- Draining, tool clean-up and the parallel tool timeout of the session runner.
- Changing the registered toolsets or the messages while a reply's calls are in progress, and a second generated response, which reuses every call of the first.
- A reader of the eager stream that asks for an event before the one before it was delivered.
- Symbolic links, listing and other operations of the file store: they carry no cache.
- The provider of the token cache throwing synchronously, and logging of advisory failures.
- `iso-8859-1` and inputs that are not strings in the percent encoder, and `stringify`, `merge` and `compact` beside it.
- What the server must do for a run to end: a verdict that arrives, a stream that ends.
- LineDecoding.LineDecoder.Decode: models a byte as a character, because CR and LF are the only bytes it looks at.
