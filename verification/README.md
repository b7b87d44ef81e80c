# Verification of the OKXQuant control plane

Dafny models and proofs for the parts of OKXQuant whose correctness lies in what holds over whole
runs: the streaming response path, the configuration lock, the gateway's durable queue and scheduler,
the account registry, the verification leases, the rule store and the administrator login.

`dafny verify dfyconfig.toml` checks the whole project.

## How it is built

Code that updates objects step by step is a class whose methods are proved against functions on values;
what is promised of it is then proved of those functions. Protocols that many threads, processes or
crashes interleave are state machines: a world, atomic steps, an invariant every step keeps, and results
for every run.

| part | files |
|---|---|
| bytes, strings, JSON | Options, Strings, Text, Json |
| server-sent events | SseDecoder (the decoder), SseReference (the whole-stream reading of the HTML Standard), SsePrinting (round trip), SseLimits (which streams are accepted), Utf8 |
| stream assemblers | StreamMessages, ChatCompletions, ResponsesApi, ClaudeMessages, StreamAssembler; ChatGrammar, ResponsesGrammar, ClaudeGrammar and StreamAnswers (which event lists are answered) |
| read loop | InferenceLoop, StreamCuttings (which cuttings are answered), WireAnswers (from printed bytes to the answer), CuttingExample |
| configuration lock | ConfigLock (the steps and the invariant), ConfigLockSteps (every step keeps it), ConfigLockSafety (the results, and which calls get in) |
| delivery queue | Deliveries, DeliveryHistory (the history of every run), DeliveryOutcomes (what is claimed, sent and settled) |
| jobs, recoveries, scheduler | JobTables, RecoveryWindow, RecoveryRuns, JobOutcomes (how jobs start and end), JobSchedule (one job over every run), JobStarts (which jobs start), JobScheduler (all jobs, as an object) |
| gateway objects | GatewayStore (store, worker and scheduler classes) |
| account registry | Accounts, AccountRuns, AccountRules and ConnectionRules (what is accepted), AccountCenter |
| verification leases and receipts | VerificationJournal, VerificationLeases (what is admitted and published), VerificationJobs, TransportPolicy |
| rule store | RuleStore, RuleDirectories (the file count), RuleSettings (what is accepted, switches and order), RuleManager |
| administrator login | AdminAuth, AdminAccess (who gets in), AdminAuthStore |

The scheduler of the source keeps one dictionary `running` for scheduled jobs, manual requests and the
trader recovery. The model splits it by what is asked of it: `JobScheduler.JobScheduler.running` holds the
scheduled jobs, with a recovery under the key "trader" counted as holding that job back, and
`GatewayStore.GatewayScheduler.running` is what the launch pass of recoveries sees, where only the key
"trader" matters. That a trader and a recovery never hold this key together is `TraderLaneHoldsOne` of
RecoveryRuns, where both are steps of one machine.

What an operation accepts is said a second time without it, over the raw inputs or read off the steps of a
run, and the two are proved to agree: the `...Exactly` results. They sit in modules of their own, so that no
guard, limit or branch of an operation is only compared with itself.

## What the proofs show of the code

- Whether the read loop answers depends on how the stream was cut; what it answers does not
  (`AcceptedCuttingsAgree`). `CuttingDecides` is a stream with an answered and a refused cutting,
  `AnsweredExactlyWhenClean` says which cuttings are answered, `EveryCuttingAnswered` when all are.
- A CR or CRLF stream is charged one byte more per event than an LF stream, and `EventCost` in
  SsePrinting has the exact charge.
- A daily job can start twice for one configured minute. `DailyCanRepeat` is a run that does it;
  `DailyRepeatsExactlyWhenLate` says from which worlds it can happen.
- The rule directories are counted before tombstones are applied, so a store that never shows more than
  64 rules can come to refuse every save, creation and reordering (`StoreCanSeize`): exactly while the
  directories hold a 65th file (`CountDecides`). Deleting a rule without a source file ends it, unless a
  crash has cut such a deletion short; `SeizedForGoodExactly` says when nothing ends it.
- A login reads the clock before it waits for its transaction. The lockout slows guessing all the same,
  measured from the earliest reading (`LockoutSlowsGuessing`); measured from the first check in the order
  of the transactions it need not (`OldReadingShortensLock`, `SpansFromFirstExactly`).
- The first trading bind also sets the binding of the other mode without raising its generation. No
  environment of the registry exists before that, so fencing is exact all the same (`FencingIsExact`).

## Conventions

Times are whole seconds where the source stores seconds, microseconds where it compares exact clock
readings (RecoveryWindow, JobSchedule). The wall clock does not run backwards. Text is UTF-8 bytes where
the source works on bytes. Digests, password hashes and ciphertexts stand for what they are made of.
Exchange replies, random delays and new identities are parameters; a new identity is one never used
before. A transaction or an atomic file replacement is one step, and a crash may fall between any two.

## Model

| member | source | states |
|---|---|---|
| SseDecoder.SSEDecoder.constructor | okxquant_backend/llm_stream.py:22-37 | a fresh decoder: empty buffers, default event name, nothing received |
| SseDecoder.SSEDecoder.Feed | okxquant_backend/llm_stream.py:88-115 | one chunk changes the decoder and yields or refuses as the chunk function does, failure states included |
| SseDecoder.SSEDecoder.Accept | okxquant_backend/llm_stream.py:98-114 | the body of the byte loop: pending CR, LF of a CRLF, terminators, size checks |
| SseDecoder.SSEDecoder.EndLine | okxquant_backend/llm_stream.py:54-75 | a finished line is decoded, charged, dispatched on blank, otherwise stored as a field |
| SseDecoder.SSEDecoder.Finish | okxquant_backend/llm_stream.py:126-143 | the end of input ends one pending or partial line and the decoder for good |
| SseDecoder.SSEDecoder.ValidateTerminalTail | okxquant_backend/llm_stream.py:117-124 | partial data behind a terminal is discardable only if blank or a comment, and otherwise refused with its own category; only the first-line flag may change |
| SseDecoder.ChunksAreOneChunk | okxquant_backend/llm_stream.py:88-115 | feeding chunk by chunk succeeds iff feeding the concatenation does, with the same state and events |
| SseDecoder.ChunkingIrrelevant | okxquant_backend/llm_stream.py:88-143 | any two cuttings of one stream succeed together and agree on state and events, also through finish |
| SseDecoder.FeedPrefix | okxquant_backend/llm_stream.py:88-115 | a longer stream yields an extension of what its prefix yields |
| SseDecoder.BufferNeverExceedsLimit | okxquant_backend/llm_stream.py:62-64 | after any accepted chunks the line and data held never exceed the event limit |
| SseDecoder.EndOfInputCompletesNothing | okxquant_backend/llm_stream.py:126-143 | the end of input yields an event iff the last byte is a CR ending a blank line after data |
| SseReference.DecoderFollowsStandard | okxquant_backend/llm_stream.py:43-143 | every successful session yields exactly what the whole-stream reading of sections 9.2.5 and 9.2.6 of the WHATWG HTML Standard yields |
| SseReference.FieldAndValue | okxquant_backend/llm_stream.py:65-75 | the decoder takes from field:value the value without one leading space, if it has one, and the value itself otherwise, for every colon-free field and every value; a line without a colon has an empty value |
| SseReference.BomOnFirstLine | okxquant_backend/llm_stream.py:46-49 | dropping the byte order mark from the first line is dropping it from the stream |
| SsePrinting.PrintedReading | okxquant_backend/llm_stream.py:54-86 | the standard reads printed events back in LF, CR and CRLF style, with and without the space behind the colon |
| SsePrinting.RoundTripExactlyWithinLimits | okxquant_backend/llm_stream.py:54-115 | decoding a printed list gives the list back, in any style, spacing and cutting, iff the stream and the exact cost of each event are within the limits |
| SseLimits.SessionAcceptedExactly | okxquant_backend/llm_stream.py:54-64 | a session of any chunks succeeds iff the stream is within the response limit and, line by line, every line is UTF-8 and fits next to what its event was charged before |
| Utf8.DecodesExactly | okxquant_backend/llm_stream.py:46-49 | bytes are accepted as UTF-8 iff they are the encoding of some text, surrogates and overlong forms excluded |
| Utf8.BlankExactly | okxquant_backend/llm_stream.py:117-124 | an encoded text counts as blank iff all its characters are white space |
| ClaudeGrammar.FeedIsStep | okxquant_backend/llm_stream.py:407-501 | an event is accepted iff its token is, with the same effect |
| ClaudeGrammar.ClaudeCompletesExactlyOnMessages | okxquant_backend/llm_stream.py:407-501 | a run completes iff the events are message_start, whole blocks 0,1,2,..., one message_delta and message_stop, pings and early unknown types aside; the state is then what that message says |
| ClaudeGrammar.BlockTextIsInitialThenDeltas | okxquant_backend/llm_stream.py:431-470 | the text of a block is its initial text followed by its deltas in order, and its signature the signature deltas in order |
| ClaudeGrammar.AtMostLastBlockOpen | okxquant_backend/llm_stream.py:424-486 | at every point of an accepted run at most the last block is open, none after message_delta |
| ChatCompletions.ChatAnswerIsWhole | okxquant_backend/llm_stream.py:225-308 | a chat run is done only after one `stop` finish, then usage only, then `[DONE]`; content and reasoning are all deltas in order |
| ChatCompletions.IdentityNeverChanges | okxquant_backend/llm_stream.py:255-266 | id and model of the answer are those of every event that carried them |
| ChatGrammar.ConversationExactly | okxquant_backend/llm_stream.py:225-308 | a list of chunks is accepted without completing iff, told by the events alone, each is clean, identities agree, there is one choice at most, and nothing but usage follows the stop |
| ChatGrammar.ChatCompletesExactly | okxquant_backend/llm_stream.py:225-308 | a run completes iff it is such a list with a stop in it and the done marker behind it |
| ResponsesApi.GatheredTexts | okxquant_backend/llm_stream.py:351-385 | the text gathered from an output list is that of its message blocks in order |
| ResponsesApi.ResponsesAnswerIsWhole | okxquant_backend/llm_stream.py:310-405 | only response.completed answers; output_text is the joined message blocks and equals the joined deltas whenever any arrived |
| ResponsesGrammar.ResponsesCompleteExactly | okxquant_backend/llm_stream.py:310-405 | a run completes with its last event iff every event in front passes, those of every harmless type the protocol does nothing with included, and the last one is the completed response of what was streamed |
| StreamAssembler.StreamAssembler.constructor | okxquant_backend/llm_stream.py:147-170 | a fresh assembler of one protocol |
| StreamAssembler.StreamAssembler.Feed | okxquant_backend/llm_stream.py:202-219 | one event moves the assembler as the specification does; a refusal latches the failure and drops the result |
| StreamAssembler.StreamAssembler.Result | okxquant_backend/llm_stream.py:503-508 | the result is readable iff the run completed and did not fail |
| StreamAssembler.StreamAssembler.FeedChat | okxquant_backend/llm_stream.py:225-308 | the chat handler over the mutable text, metadata and finish fields |
| StreamAssembler.StreamAssembler.FeedResponses | okxquant_backend/llm_stream.py:310-405 | the responses handler over its text list and metadata |
| StreamAssembler.StreamAssembler.FeedClaude | okxquant_backend/llm_stream.py:407-501 | the Claude handler over the block dictionary and the closed set |
| StreamAssembler.NothingAfterTerminal | okxquant_backend/llm_stream.py:221-223 | after a readable answer every event is refused and the answer is gone |
| StreamAssembler.FailedForGood | okxquant_backend/llm_stream.py:202-211 | a failed assembler is never readable again |
| StreamAssembler.LateEventRevokesForGood | okxquant_backend/llm_stream.py:202-223 | one late event revokes a readable answer whatever follows |
| StreamAssembler.ReadableRunIsMaximal | okxquant_backend/llm_stream.py:202-223 | a readable run has no accepted proper extension |
| StreamAssembler.ReadableAnswerIsWhole | okxquant_backend/llm_stream.py:225-508 | in all three protocols a readable answer is the whole answer of everything fed, never a part: texts, reasoning, identity and, for Claude, usage; a Responses answer is that of a completed response |
| StreamAnswers.AnsweredExactly | okxquant_backend/llm_stream.py:202-508 | in each of the three protocols an event list is answered iff it is a whole answer of it, told by the events alone |
| StreamAnswers.ExampleAnswered | okxquant_backend/llm_stream.py:310-405 | response.created, one text delta and response.completed are answered |
| InferenceLoop.ConsumeChunk | okxquant_backend/llm_inference_transport.py:229-248 | one chunk through decoder, assembler and tail check, on the two mutable objects |
| InferenceLoop.DeliverEvents | okxquant_backend/llm_inference_transport.py:238-239 | the decoded events reach the assembler in order until one is refused |
| InferenceLoop.ReadStream | okxquant_backend/llm_inference_transport.py:222-271 | the whole read loop with its early stop, end-of-stream branch and result |
| InferenceLoop.AcceptedCuttingsAgree | okxquant_backend/llm_inference_transport.py:229-271 | any two cuttings of one stream that the loop accepts give the same answer |
| InferenceLoop.AnswerIsWhole | okxquant_backend/llm_inference_transport.py:229-271 | an answered reading is the whole answer of the events of the bytes seen |
| InferenceLoop.LateChunksUnread | okxquant_backend/llm_inference_transport.py:251-262 | chunks behind the completing one are never read |
| StreamCuttings.ConsumeLeads | okxquant_backend/llm_inference_transport.py:229-248 | a session depends on the bytes behind it alone; one more chunk is refused exactly when those bytes are refused or complete the answer with something left over |
| StreamCuttings.AnsweredExactlyWhenClean | okxquant_backend/llm_inference_transport.py:229-262 | one cutting is answered iff, where the first chunk at or behind the completing byte ends, no further event has come and the tail may be discarded |
| StreamCuttings.EveryCuttingAnswered | okxquant_backend/llm_inference_transport.py:229-271 | every cutting of a stream is answered iff no byte completes the answer and the end of input does, or the stream is clean at every byte from the completing one on |
| StreamCuttings.CuttingDecidesExactly | okxquant_backend/llm_inference_transport.py:229-271 | one cutting is answered and another refused iff the stream is clean at one byte from the completing one on but not at all of them |
| WireAnswers.CompletesExactly | okxquant_backend/llm_inference_transport.py:229-248 | bytes complete an answer iff they are within the limits and their events are a whole answer of the protocol |
| WireAnswers.AnswerIsRead | okxquant_backend/llm_inference_transport.py:222-271 | every printed event list that is a whole answer of its protocol and fits the limits is answered with the whole of it, into whatever chunks its bytes are cut |
| WireAnswers.BeginningIsTruncated | okxquant_backend/llm_inference_transport.py:263-271 | every proper beginning of a printed answer fails as truncated, into whatever chunks it is cut |
| WireAnswers.SomeCuttingAnsweredExactly | okxquant_backend/llm_inference_transport.py:222-271 | a printed list within the limits has a cutting that is answered iff some beginning of it is a whole answer |
| CuttingExample.LateLetterDecides | okxquant_backend/llm_inference_transport.py:243-251 | every printed answer with one letter behind it is answered in one cutting and refused in another |
| CuttingExample.CuttingDecides | okxquant_backend/llm_inference_transport.py:243-251 | a concrete Chat stream under the default limits, answered in one cutting and refused in the other |
| ConfigLockSteps.StepKeepsInv | scripts/config_lock.py:13-63 | every atomic step of every thread keeps depths, RLocks, handles and file locks consistent |
| ConfigLockSteps.RunKeepsInv | scripts/config_lock.py:13-63 | so does every interleaving |
| ConfigLockSafety.DepthMeansBothLocks | scripts/config_lock.py:20-47 | positive depth means this thread owns the RLock and its handle holds the file lock |
| ConfigLockSafety.MutualExclusion | scripts/config_lock.py:13-63 | at most one thread of any process is inside the body of a key |
| ConfigLockSafety.OnlyOutermostReleasesFile | scripts/config_lock.py:50-62 | a file lock is given up only by its holder at depth zero |
| ConfigLockSafety.ExitNeverFails | scripts/config_lock.py:50-63 | lowering the depth and releasing the RLock are always possible where the code does them |
| ConfigLockSafety.StackDeterminesLocks | scripts/config_lock.py:13-63 | what a thread holds is a function of its open calls |
| ConfigLockSafety.EveryExitRestoresLocks | scripts/config_lock.py:18-63 | every way a call ends, timeouts and failures included, leaves both locks as they were found |
| ConfigLockSafety.NestedCallEnters | scripts/config_lock.py:17-25 | a call of a thread that is in the body of the key already gets in by three steps of its own, one level deeper, without touching the file lock, and cannot time out |
| ConfigLockSafety.FirstCallEnters | scripts/config_lock.py:17-47 | a first call with both locks free gets in by its own steps and holds the file lock then |
| ConfigLockSafety.EntersExactly | scripts/config_lock.py:17-47 | in every reachable state a waiting call can get in with no other thread acting iff the RLock is free or its own and the file lock is free or held for it |
| Deliveries.DueQueryIsDetermined | okxquant_gateway/store.py:151-154 | the due query has exactly one answer: priority descending, id ascending, cut at the limit |
| GatewayStore.GatewayStore.Publish | okxquant_gateway/store.py:136-147 | insert-or-ignore of the event and of one row per channel, in one transaction |
| GatewayStore.GatewayStore.DueInOrder | okxquant_gateway/store.py:151-154 | all due rows in claim order |
| GatewayStore.GatewayStore.ClaimDue | okxquant_gateway/store.py:149-172 | the first due rows become processing, nothing else changes, and they are returned as selected |
| GatewayStore.GatewayStore.Complete | okxquant_gateway/store.py:174-182 | only delivered or accepted settle a row; any other status is refused without a change |
| GatewayStore.GatewayStore.Fail | okxquant_gateway/store.py:184-193 | attempts, dead or retry, and the doubling delay capped at an hour |
| GatewayStore.GatewayStore.ReplayDead | okxquant_gateway/store.py:265-272 | only a dead row is replayed, with attempts back to zero |
| GatewayStore.GatewayStore.RecoverProcessing | okxquant_gateway/store.py:195-211 | one startup transaction over deliveries, runs, requests and recoveries |
| GatewayStore.GatewayStore.BeginJob | okxquant_gateway/store.py:274-278 | a fresh running job run |
| GatewayStore.GatewayStore.FinishJob | okxquant_gateway/store.py:280-291 | ends the run and the running request linked to it |
| GatewayStore.GatewayStore.RequestJob | okxquant_gateway/store.py:213-236 | a pending or running request is reused, other jobs are refused |
| GatewayStore.GatewayStore.ClaimJobRequest | okxquant_gateway/store.py:249-263 | a pending request and its new run start together |
| GatewayStore.GatewayStore.EnqueueRecovery | okxquant_gateway/store.py:298-316 | one row per account and slot, later ones ignored |
| GatewayStore.GatewayStore.CancelRecovery | okxquant_gateway/store.py:339-346 | only a pending recovery is cancelled |
| GatewayStore.GatewayStore.ClaimRecovery | okxquant_gateway/store.py:348-368 | a pending recovery with no attempt and its new run start together |
| GatewayStore.GatewayStore.FinishRecovery | okxquant_gateway/store.py:370-388 | a running recovery and its run end together |
| GatewayStore.GatewayStore.DueRecoveries | okxquant_gateway/store.py:331-337 | exactly the pending recoveries whose time has come, by id |
| GatewayStore.GatewayWorker.DeliverDue | okxquant_gateway/worker.py:90-105 | one worker round: claim twenty, send, settle each before the next |
| GatewayStore.GatewayWorker.DeliverOne | okxquant_gateway/worker.py:94-105 | a refused completion is recorded as a failure |
| GatewayStore.GatewayScheduler.LaunchDueRecovery | okxquant_gateway/scheduler.py:322-350 | one launch pass cancels exactly the hindered due rows it sees and submits at most one, the first open one, if the lane is free |
| DeliveryHistory.StepKeepsInv | okxquant_gateway/store.py:136-211 | every step of publishers, operators and the worker, crashes included, keeps the tables in agreement with the history |
| DeliveryHistory.RowsAreThePublishedPairs | okxquant_gateway/store.py:136-147 | rows are the published (event, channel) pairs, one each |
| DeliveryHistory.NoRowIsLost | okxquant_gateway/store.py:136-211 | no run removes a row or turns it into another delivery |
| DeliveryHistory.HistoryIsLegal | okxquant_gateway/store.py:149-211 | attempts equal the failures since creation or replay, dead exactly at six, and no claim is early, double or after settlement |
| DeliveryHistory.DeliveredIsFinal | okxquant_gateway/store.py:174-182 | a delivered or accepted row is never claimed, failed or completed again |
| DeliveryHistory.ClaimsAreExclusive | okxquant_gateway/store.py:149-172 | between two claims of a row lies its failure or a restart of the worker |
| DeliveryHistory.ClaimWaitsAfterFailure | okxquant_gateway/store.py:184-193 | after the n-th failure in a row, n at most five, the next claim is at least the n-th wait later |
| DeliveryHistory.BatchIsARun | okxquant_gateway/worker.py:93-105 | a worker round is a run of single deliveries, each of which may be the last before a crash |
| DeliveryOutcomes.PublishingAdds | okxquant_gateway/store.py:136-147 | a publication keeps the first event of an id and every row, and adds untouched pending rows of its own channels only |
| DeliveryOutcomes.DueExactly | okxquant_gateway/store.py:149-154 | in every reachable world a row is due iff the history allows a claim of it |
| DeliveryOutcomes.RoundTakesTheFirst | okxquant_gateway/worker.py:93 | a round takes at most twenty claimable rows, by priority and then age, and leaves one behind only if there are twenty before it |
| DeliveryOutcomes.SettlesAsSent | okxquant_gateway/worker.py:94-105 | the row at the head of the batch shows exactly what sending it returned: delivered, accepted with the detail, or the n-th wait of 30 to 480 seconds and death at the sixth failure; no other row changes |
| DeliveryOutcomes.SettledExactlyAsAnnounced | okxquant_gateway/store.py:174-182 | over every run a row is delivered iff sending it once returned delivered, and accepted iff it returned accepted |
| DeliveryOutcomes.ReplaysExactly | okxquant_gateway/store.py:265-272 | an operator gives exactly a row that failed six times a fresh start |
| JobTables.FinishKeeps | okxquant_gateway/store.py:280-291 | finishing a run that belongs to no recovery keeps requests, recoveries and runs linked |
| JobTables.RecoverKeeps | okxquant_gateway/store.py:195-211 | the startup transaction keeps them linked |
| JobTables.EnqueueKeeps | okxquant_gateway/store.py:298-316 | one recovery per account and slot is kept |
| RecoveryWindow.PlannedExactlyInWindow | okxquant_gateway/ai_recovery.py:86-127 | a recovery is planned iff the failure is one of the three repeatable kinds within its time, the slot is running and the delay, kept within 45 and 90 seconds, fits; it is planned for the second the delay leads to, before slot+660 |
| RecoveryRuns.StepKeepsInv | okxquant_gateway/scheduler.py:289-350 | every step of planners, the API and the worker, crashes included, keeps links, windows, claim counts and the trader lane |
| RecoveryRuns.EachSlotClaimedOnce | okxquant_gateway/store.py:348-368 | over every run the recovery of an account and slot is claimed at most once |
| RecoveryRuns.ClaimedInsideWindow | okxquant_gateway/scheduler.py:322-350 | stored windows keep their form, and a claimed recovery was submitted in [scheduled, slot+660) |
| RecoveryRuns.RunningExactlyWithJobRun | okxquant_gateway/store.py:195-291 | one active manual request per job; requests and recoveries run iff their job run does |
| RecoveryRuns.TraderLaneHoldsOne | okxquant_gateway/scheduler.py:347-350 | in one worker life a natural trader and a recovery are never both unfinished |
| RecoveryRuns.NothingRevives | okxquant_gateway/store.py:195-388 | over every run a finished request or recovery keeps its end |
| JobOutcomes.OutcomesAreReported | okxquant_gateway/store.py:280-291 | over every run a job run shows the last code reported for it, and the request or recovery behind it ends with the first one: success iff the code is 0, and failed with 125 what a restart found running |
| JobOutcomes.AskedForIsWaiting | okxquant_gateway/store.py:213-236 | a review that is asked for waits or runs afterwards, the earlier one if there was one and else one new; nothing else can be asked for |
| JobOutcomes.WaitingStarts | okxquant_gateway/store.py:249-263 | a waiting request starts whenever the worker takes it, with a new job run of its job |
| JobOutcomes.RecoversExactly | okxquant_gateway/scheduler.py:289-350 | in every reachable world with a free lane a recovery gets to run, as its only attempt, iff it is pending, its time has come, its slot still lasts four minutes and was not answered |
| JobScheduler.JobScheduler.ReapDone | okxquant_gateway/scheduler.py:382-389 | futures that are done leave the running map, nothing else does |
| JobScheduler.JobScheduler.Tick | okxquant_gateway/scheduler.py:379-411 | one tick over all jobs: each is reaped, then queued iff its key is free, nothing holds it back and it is due |
| JobScheduler.JobScheduler.Execute | okxquant_gateway/scheduler.py:251-263 | a queued job is judged again, its record written, its process started or the record rolled back; other jobs untouched |
| JobScheduler.TickIsSteps | okxquant_gateway/scheduler.py:379-411 | a tick is at most two steps of the machine of each job |
| JobSchedule.StepKeepsInv | okxquant_gateway/scheduler.py:251-263 | ticks, queue delays, restarts, exceptions and spawn rollbacks keep the recorded time covering every start |
| JobSchedule.TraderOncePerSlot | okxquant_gateway/scheduler.py:205-208 | at most one natural trader start per slot, within its first ten seconds |
| JobSchedule.PhasedOncePerSlot | okxquant_gateway/scheduler.py:209-213 | at most one start of a phased job per shifted slot: the slot an earlier start was executed in, however late, lies before the slot a later one is queued for |
| JobSchedule.IntervalKept | okxquant_gateway/scheduler.py:214 | starts of a plain interval job are at least the interval apart |
| JobSchedule.ReviewOncePerTime | okxquant_gateway/scheduler.py:215-227 | between two scheduled reviews lies one of the configured times |
| JobSchedule.DailyRepeatsExactlyWhenLate | okxquant_gateway/scheduler.py:228-263 | from any reachable world a daily job can start again for the minute of an earlier start iff that start was executed in a later minute and the latest tick is still in the minute |
| JobSchedule.DailyCanRepeat | okxquant_gateway/scheduler.py:228-231 | a concrete run in which that happens |
| JobStarts.DueExactly | okxquant_gateway/scheduler.py:191-231 | a job is due iff the seconds and slots say so: first ten seconds of a slot not yet recorded, interval over, configured time passed or shown |
| JobStarts.StartsExactly | okxquant_gateway/scheduler.py:251-411 | from every reachable world with a free worker a job starts at a reading iff it is wanted at the tick, and a trader also at the start; the world it starts into is given |
| JobStarts.TraderStarts | okxquant_gateway/scheduler.py:205-208 | a trader with a free worker starts in every second of the first ten of a slot it has not started in |
| AccountCenter.AccountCenter.Save | okxquant_backend/account_connections.py:40-44 | revision up by one, newest hundred events kept |
| AccountCenter.AccountCenter.CreateConnection | okxquant_backend/account_connections.py:113-125 | a new unverified connection, or a refusal without a change |
| AccountCenter.AccountCenter.StartOAuth | okxquant_backend/account_connections.py:128-139 | a new authorization generation, refused for bound connections and running flows |
| AccountCenter.AccountCenter.FinishOAuth | okxquant_backend/account_connections.py:149-160 | the answer is applied only to the generation it was asked for |
| AccountCenter.AccountCenter.PublishProbe | okxquant_backend/account_connections.py:195-199 | probe results are published only for the generation they were read from |
| AccountCenter.AccountCenter.BindPurpose | okxquant_backend/account_connections.py:265-302 | the refusal rules in order, no change on the same binding |
| AccountCenter.AccountCenter.BindMode | okxquant_backend/account_connections.py:279-302 | trading bindings need keys, a flat account and a known owner; the generation is raised |
| AccountCenter.AccountCenter.MigrateKeys | okxquant_backend/account_connections.py:284-297 | the one-way migration keeps the other key as a binding |
| AccountCenter.AccountCenter.UnbindPurpose | okxquant_backend/account_connections.py:306-318 | unbinding a trading purpose raises its generation |
| AccountCenter.AccountCenter.ActivateMode | okxquant_backend/account_connections.py:321-331 | switching needs a bound, freshly checked target and two flat accounts |
| AccountCenter.AccountCenter.DeleteConnection | okxquant_backend/account_connections.py:334-351 | bound or pending connections are not deleted |
| AccountRuns.StepKeepsInv | okxquant_backend/account_connections.py:113-364 | every operation keeps the registry invariant, probes answered late included |
| AccountRuns.BindingsAreSafe | okxquant_backend/account_connections.py:265-318 | each binding names a connection; trading bindings have API keys of their mode, never OAuth |
| AccountRuns.NothingGoesBack | okxquant_backend/account_connections.py:40-44 | revision and generations never decrease and managed never reverts |
| AccountRuns.GenerationCounts | okxquant_backend/account_connections.py:299 | the generation of a mode counts the effective binds and unbinds of it |
| AccountRuns.FencingIsExact | okxquant_backend/account_connections.py:353-374 | a captured bound environment passes iff its mode is active again and its binding was not touched meanwhile |
| AccountRuns.ManagedResolves | okxquant_backend/account_connections.py:353-364 | a managed registry always resolves to its own environment, never to the old keys |
| AccountRuns.OldConfigurationEndsForGood | okxquant_backend/account_connections.py:367-371 | an environment of the old keys passes exactly until the migration |
| AccountRules.TradingBindExactly | okxquant_backend/account_connections.py:265-302 | over every run a trading bind is accepted iff confirmation, identity, the five minutes, read access, API key, no unresolved intent, no risk on the new and the replaced account, and the conditions of the migration hold, over the raw inputs |
| AccountRules.TradingBindDoes | okxquant_backend/account_connections.py:279-302 | an accepted one sets the binding, raises the generation by one, keeps the ledger of the same account, and migrates the other mode at the first time |
| AccountRules.NewsBindExactly | okxquant_backend/account_connections.py:265-302 | a news bind is accepted iff the connection was just checked for live and reads news |
| AccountRules.UnbindExactly | okxquant_backend/account_connections.py:306-318 | an unbind is accepted iff confirmed, bound and, for trading, without risk and unresolved intents |
| AccountRules.ActivateExactly | okxquant_backend/account_connections.py:321-331 | over every run a change of mode is accepted iff the target is bound, readable and just checked and neither account has risk |
| ConnectionRules.CreatesExactly | okxquant_backend/account_connections.py:113-125 | a connection is made iff site, title and, for a key, all three parts are given |
| ConnectionRules.AuthorizesExactly | okxquant_backend/account_connections.py:128-139 | an authorization starts iff the connection is an unbound login, none is waited for and no login trades; it raises the generation and voids what was known |
| ConnectionRules.AnswersExactly | okxquant_backend/account_connections.py:149-160 | the answer of the login counts iff its generation still stands, and a time outside 1 to 1800 seconds is a failure |
| ConnectionRules.DeletesExactly | okxquant_backend/account_connections.py:334-351 | a connection is deleted iff confirmed, bound to nothing, not waited for and its directory may go |
| ConnectionRules.FindsExactly | okxquant_backend/account_connections.py:163-194 | a probe finds an account iff the exchange names one and not another than before; the scope stays with the account |
| ConnectionRules.LateProbeExactly | okxquant_backend/account_connections.py:163-199 | whatever happened since a probe read its connection, its result is published iff the connection was neither deleted nor authorized anew |
| VerificationJobs.VerificationJobs.ExpireJobs | okxquant_backend/llm_transport_verification.py:50-56 | lapsed leases are closed, then hour-old completed jobs forgotten |
| VerificationJobs.VerificationJobs.Oldest | okxquant_backend/llm_transport_verification.py:78 | the completed job created first |
| VerificationJobs.VerificationJobs.Start | okxquant_backend/llm_transport_verification.py:65-82 | an active probe is reused, a busy journal refuses, otherwise room is made and a job admitted |
| VerificationJobs.VerificationJobs.Begin | okxquant_backend/llm_transport_verification.py:93-97 | only a queued job starts |
| VerificationJobs.VerificationJobs.Publish | okxquant_backend/llm_transport_verification.py:119-132 | only a running job whose lease holds is completed |
| VerificationJournal.StepKeepsInv | okxquant_backend/llm_transport_verification.py:50-132 | every transaction of every worker, deaths included, keeps the lease protocol |
| VerificationJournal.JournalIsBounded | okxquant_backend/llm_transport_verification.py:74-82 | at most two active probes, one per connection and mode, at most 256 jobs |
| VerificationJournal.ReceiptsAreTimely | okxquant_backend/llm_transport_verification.py:117-132 | no second receipt, none after a newer job for the same key, and the lease of each held at the clock reading of the transaction that published it |
| VerificationJournal.StatusNeverGoesBack | okxquant_backend/llm_transport_verification.py:50-132 | status only moves queued, running, completed |
| VerificationLeases.AdmittedExactly | okxquant_backend/llm_transport_verification.py:65-82 | in every reachable world a probe is admitted, for 40 to 210 seconds, iff no lease of its connection and mode holds and at most one other lease does |
| VerificationLeases.BeginsExactly | okxquant_backend/llm_transport_verification.py:93-97 | a worker begins its probe iff the lease still holds, and gives up otherwise |
| VerificationLeases.PublishesExactly | okxquant_backend/llm_transport_verification.py:119-132 | the result of a probe counts iff its lease still holds; the receipt is written iff the connection is unchanged too |
| VerificationLeases.ShownExactly | okxquant_backend/llm_transport_verification.py:50-62 | a read shows a job iff its lease holds or it was created at most an hour ago |
| TransportPolicy.TransportSettings.RecordVerification | okxquant_backend/llm_transport_policy.py:152-172 | a receipt for a changed connection is refused; otherwise it is merged and the first inserted entries evicted |
| TransportPolicy.CapacityHolds | okxquant_backend/llm_transport_policy.py:170 | at most 512 connections, the last recorded among them |
| TransportPolicy.RemembersExactly | okxquant_backend/llm_transport_policy.py:163-170 | the entries are the last 512 connections that were new, in order: what is dropped is the one inserted first |
| TransportPolicy.VerifiedExactlyOnLatestSuccess | okxquant_backend/llm_transport_policy.py:164-169 | since its insertion an entry is verified iff the latest receipt that did not merely fail is a success |
| TransportPolicy.SomeReceiptInserted | okxquant_backend/llm_transport_policy.py:163 | every present entry was inserted by some receipt |
| TransportPolicy.AutoFollowsLatestReceipt | okxquant_backend/llm_transport_policy.py:133-149 | under auto the stream is used exactly then, and never without an entry |
| RuleStore.FilesAreTheVisibleRules | okxquant_backend/interceptor_manager.py:129-161 | the names found and the texts resolved are those of one map |
| RuleStore.CommitsAtFirstWrite | okxquant_backend/interceptor_manager.py:225-292 | at every crash point a save, create or delete has happened iff its first write did |
| RuleStore.LayersActAsOneMap | okxquant_backend/interceptor_manager.py:129-292 | through every run with crashes the layers act as a plain map under the operations that took effect |
| RuleStore.DeletedNeverReappears | okxquant_backend/interceptor_manager.py:276-292 | a rule that is gone stays gone until saved or created again |
| RuleStore.LimitHolds | okxquant_backend/interceptor_manager.py:231 | the visible rules never outgrow the limit |
| RuleSettings.AcceptedExactly | okxquant_backend/interceptor_manager.py:225-292 | on every sane disk a save, creation, deletion, switch or reordering goes through iff the name, the visible rules and the sizes of the configuration allow it |
| RuleSettings.SetAtFirstWrite | okxquant_backend/interceptor_manager.py:239-292 | at every crash point switches and order are those before or those after the operation, as its first write was done |
| RuleSettings.SettingsFollowOperations | okxquant_backend/interceptor_manager.py:239-292 | through every run with crashes switches and order are those the effective operations set: on and last when created, gone when deleted |
| RuleDirectories.CountDecides | okxquant_backend/interceptor_manager.py:129-144 | a save, creation or reordering that is in order itself is refused iff the two directories hold more than 64 names or a bad one, tombstoned names included |
| RuleDirectories.EditRefusedExactly | okxquant_backend/interceptor_manager.py:225-236 | a visible rule of the manifest can be edited, to any text within its limit, iff the directories hold at most 64 names |
| RuleDirectories.PassesLimitExactly | okxquant_backend/interceptor_manager.py:225-273 | the count passes 64 exactly when a save or creation at 64 files writes the mirror of a name that has none |
| RuleDirectories.FallsBackExactly | okxquant_backend/interceptor_manager.py:276-292 | from one file too many it falls back exactly when a deletion takes away the file of a rule without a source file |
| RuleDirectories.OneTooManyAtMost | okxquant_backend/interceptor_manager.py:129-292 | over every run with crashes the directories never hold more than one file too many |
| RuleDirectories.SeizedForGoodExactly | okxquant_backend/interceptor_manager.py:129-292 | from one file too many no run leads back iff every overlay-only file is tombstoned already or the tombstone list is full |
| RuleDirectories.StoreCanSeize | okxquant_backend/interceptor_manager.py:129-292 | a concrete store of 64 rules that one deletion and one creation seize, and that a crash in a further deletion seizes for good |
| RuleManager.RuleManager.SavePluginCode | okxquant_backend/interceptor_manager.py:225-236 | the edit, the check and the writes of a save |
| RuleManager.RuleManager.CreatePlugin | okxquant_backend/interceptor_manager.py:260-273 | the edit, the check and the writes of a creation |
| RuleManager.RuleManager.DeletePlugin | okxquant_backend/interceptor_manager.py:276-292 | tombstone first, file next, tombstone cleared last |
| RuleManager.RuleManager.ReorderPlugins | okxquant_backend/interceptor_manager.py:249-257 | the order becomes the requested rules followed by the rest in name order |
| RuleManager.OrderIsUnique | okxquant_backend/interceptor_manager.py:254-255 | an order is a permutation of the rules and each request has only one |
| AdminAuthStore.AdminAuthStore.CreateAccount | okxquant_backend/admin_auth.py:91-110 | a new enabled account under a name not taken in any case |
| AdminAuthStore.AdminAuthStore.Login | okxquant_backend/admin_auth.py:132-174 | the account is found without regard to case, judged and counted in one transaction |
| AdminAuthStore.AdminAuthStore.CheckPassword | okxquant_backend/admin_auth.py:140-171 | disabled, locked, wrong and right, with counters, lock and session |
| AdminAuthStore.AdminAuthStore.ValidateSession | okxquant_backend/admin_auth.py:176-190 | exactly the live sessions of enabled users |
| AdminAuthStore.AdminAuthStore.EndSession | okxquant_backend/admin_auth.py:192-194 | exactly the session of the token ends |
| AdminAuthStore.AdminAuthStore.EndSessionsOf | okxquant_backend/admin_auth.py:196-198 | exactly the sessions of the user end |
| AdminAuthStore.AdminAuthStore.UnlockUser | okxquant_backend/admin_auth.py:200-208 | counters back to zero |
| AdminAuthStore.AdminAuthStore.ChangeUserPassword | okxquant_backend/admin_auth.py:210-216 | the password changes and every session ends; the counters stay |
| AdminAuthStore.AdminAuthStore.SetUserEnabled | okxquant_backend/admin_auth.py:218-232 | neither the own account nor the last super administrator is disabled |
| AdminAuth.StepKeepsInv | okxquant_backend/admin_auth.py:132-232 | every operation keeps the counters, locks and times of wrong checks consistent |
| AdminAuth.LockoutSlowsGuessing | okxquant_backend/admin_auth.py:132-174 | k >= 5 wrong checks since creation, unlock or login span at least 900*(k-5) seconds between the earliest and the latest clock reading, also from the fifth to the last, however long a login waited for its transaction |
| AdminAuth.SpansFromFirstExactly | okxquant_backend/admin_auth.py:132-157 | after five wrong checks every continuation also spans the locks from the first check to the last iff the first reading is not later than the fifth |
| AdminAuth.OldReadingShortensLock | okxquant_backend/admin_auth.py:132-157 | a run of six checks from the empty store in which an old reading makes that span 890 seconds |
| AdminAuth.BoundIsReached | okxquant_backend/admin_auth.py:154-157 | for every k a run of k wrong checks from the empty store whose readings span exactly the bound |
| AdminAuth.SessionsEndForGood | okxquant_backend/admin_auth.py:210-232 | a password change, disabling or expulsion ends every earlier session for good |
| AdminAuth.SuperAdminRemains | okxquant_backend/admin_auth.py:226-229 | once there is an enabled super administrator there always is one |
| AdminAccess.LogsInExactly | okxquant_backend/admin_auth.py:132-174 | in every reachable world an enabled account with fewer than five wrong checks, or the last one 900 seconds back, takes a password: the right one opens a session for twelve hours, any other is one more wrong check; else nothing happens |
| AdminAccess.SessionLastsExactly | okxquant_backend/admin_auth.py:176-232 | over every run behind a login its session is valid at a time iff that is within twelve hours and no logout, expulsion, password change, disabling or clearing login ended it |
| AdminAccess.CreatesExactly | okxquant_backend/admin_auth.py:91-110 | an account is created iff name and password follow the rules and nobody has the name in any case |
| AdminAccess.EnablesExactly | okxquant_backend/admin_auth.py:218-232 | disabling is accepted iff it is another known account and not the last enabled super administrator, enabling iff the account is known |

## Left out

- SSEDecoder: the type check of a chunk and the heartbeat statistics, which no result depends on; the `retry` and `id` fields, which the code ignores.
- StreamAssembler: `content_started`, which only feeds diagnostics, and the second-completion refusal of `_mark_complete`, which no run can reach because each handler refuses events after completion first.
- InferenceLoop: timeouts, diagnostics and the non-streaming branch; decoding an event's text as JSON is the parameter `present`.
- ConfigLock: modelled on values as interleaved steps, because several threads interleave inside one call; creating the RLock is folded into the call, and exceptions raised between two bytecodes and forked processes are not modelled.
- DeliveryHistory: the content a channel sends and its network reply; a reply is an arbitrary outcome.
- RecoveryRuns: the lane, the queue of futures and the transactions of the scheduler threads are interleaved steps on values; only the launch pass and the store are also classes. Launching and cancelling of manual reviews by the tick is any claim of a pending request. A stored slot text that does not parse cannot arise from `schedule` and is not modelled.
- JobSchedule: runs are about one job at a time, on values; `ledger_sync` and `execution_quality` decide by functions outside this model; the half-minute retry pause after an error, the review window and disabled jobs only remove starts; a process start is dated by the clock read in `_execute`, not by the operating system.
- JobScheduler: the launch time of the operating system, completion metadata kept for a retry, and the names a tick returns for the log.
- GatewayStore: reports and statistics, model call records, runtime state other than `job.last`, SQLite's own locking; LIMIT is never negative.
- Accounts: the operating system locks around an operation, archiving of runtime files, the news cache, notifications and displays; `strip` knows ASCII blanks only; the labels and event details are shortened.
- AccountCenter: a probe's network part is the parameter of `PublishProbe`; requests for one probe answer from one oracle.
- VerificationJournal: the probe itself; `get_job` changes nothing.
- TransportPolicy: the timeouts and byte limits of a policy and their validation; diagnostics and time stamps of a receipt.
- RuleManager: `list_plugins`, which reads, and the text parsing of metadata; `toggle_plugin` is a step of RuleStore only.
- RuleStore: symbolic links, file modes, file sizes and entries that are not rules; the rule interpreter and its validation are the parameter `text`; whether the configuration's text fits its size limit is a parameter of each operation; the case rule for device names is ASCII.
- AdminAuth: Unicode letters and digits in passwords; `verify_password`, which checks a password without counting, so that the lockout bound is about login; hashing, timing and the displayed times of the last login and update.
- Routing, user interface, notifications, encryption, exchange clients, trading logic and the rule interpreter's semantics.
