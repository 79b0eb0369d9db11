# Admission, streaming and delivery: a verified model

This project models the two packages of the platform in which correctness depends on whole runs rather
than on single calls, and proves what they promise.

**The Codex LLM proxy** (`codex-llm-proxy`) admits requests, translates them, and streams the answers.

- `StreamGates` and `BodyBudgets` are the two admission queues: a number of slots, or of bytes, with a
  bounded FIFO queue, releases that may run twice, clients that disconnect, and timers that fire late.
  `StreamGateRuns` and `BodyBudgetRuns` prove what every run keeps. The two share `Settlements` (the
  ledger: every request is queued or settled, once, and grants keep arrival order), `AdmissionQueue` (the
  waiting line and the ways to join and leave it) and `AdmissionRuns` (runs, and what is held now against
  the history of grants and releases). `StreamGateOutcomes` and `BodyBudgetOutcomes` say what each call does
  to each request, read off the history alone. `AdmissionWaits` follows one request through several queues.
- `ToolNames` gives every tool name a name that is safe on the wire. `ToolNameSpelling`,
  `ToolNameAllocation` and `ToolNameTheorems` treat the hash as an arbitrary function and prove when the
  allocation succeeds, a closed form for its result, and the round trip.
- `Sse` cuts text into server-sent-event blocks; `CodexStream` maps the events, assembles tool calls item
  by item and holds them back until the response has succeeded. `CodexStreamReading` proves that the
  chunked reader agrees with one pass over the whole text and what reaches the sink; `CodexToolCalls`
  proves, item by item, how often a call is delivered and with which arguments, and `CodexToolOrder` in
  which order, all items together. `CodexFields` reads a call's id, name and arguments off its item's events,
  `CodexRows` reads what is delivered off the rows of the text, and `CodexOutcome` and `CodexDelivery` prove
  exactly how a read ends and what it sends.
- `CodexRequest` builds the upstream payload, `CodexPayload` proves what it says of the request,
  `CodexAnswer` proves under which names its calls come back (`CodexAnswerExample` follows one answer from
  its text to its frame), and `Attempts` is the redeem, stream, finalize protocol around both.

**The channel reader** (`channel-reader`) connects chat channels to hosts.

- `PendingApprovals` is the table of workflow approvals, which refines a log of operations.
- `NoticeLimiter` limits the notices to unresolved senders, with a time to live and a global cap.
- `FinalDelivery` delivers a task's final text from several interleaved callbacks.
- `ChannelWatcher` is the cache of a host's channels, kept by watch events, which may be late, repeated or
  missing, and by relists that wait for the server while events go on arriving.
- `ProgressStream` is the second event-stream reader, among its debounce timer and its consumer; it
  shares the framing lemmas of `Sse`. `ProgressTelling` proves what its steps and callbacks say.

`Prelude` and `Json` hold the small shared types; `JsonText` says what trimming and splitting into lines do.

Classes update their fields as the program does. Each method is proved equal to a step function on values
(or, for the upstream reader and the attempt, against a specification of the whole call), and the theorems are about
all runs of those steps. A request is named by its arrival number; `held` are the requests whose release
closure has not run. Timers and abort listeners are nondeterministic steps: a `Leave` may happen at any
time while the request is queued, so a late timer needs no case of its own, and clocks are arguments of
the steps. Everything outside the two packages is arbitrary: the hash, `JSON.parse`, the sink, the control
plane and the upstream.

## Where the code does something else than it says

The code is modelled as it is. In each case below the exact condition is proved, and a run that shows it.

- The comment on `BodyBudget.acquire` (`codex-llm-proxy/src/requestLimits.ts:394-401`) says that a waiter
  still queued at its deadline is rejected. A drain does not look at the clock, so a body whose timer is
  late is let in past its deadline, exactly when it fits behind the bodies in front of it
  (`AdmitsPastDeadlineIff`, with `LateTimerAdmitsPastDeadline` as the family of examples). The stream gate
  does look (`NeverGrantedLate`), but grants a free slot whatever the deadline: a request is granted before
  its deadline exactly when it reached the gate before it (`GrantedBeforeDeadlineIff`). So one admission
  clock bounds the three queues together only because the handler looks at the deadline in front of the
  stream gate (`ThreeQueuesShareOneWait`; `UnguardedWaitIsUnbounded` is the run without that look).
- Line ends are normalized chunk by chunk (`codex-llm-proxy/src/codexTransport.ts:676`). The blocks are
  those of the normalized text exactly when no chunk border cuts a CR LF pair (`NormalizedChunksIff`); a
  cut pair reads as two line ends and may end a block early (`CutPairEndsBlock`).
- An `added` event hands out a call without looking at whether it was handed out before
  (`codex-llm-proxy/src/codexTransport.ts:811-819`). An item is delivered once plus once for every such
  repetition (`OneFramePerItemIff`; `RepeatedAddIsDeliveredTwice` is a successful response that delivers
  one call twice); none occurs if an item is added first and once (`NoReemission`).
- The idle timeout is checked after the redeem and outside the `try`
  (`codex-llm-proxy/src/codexTransport.ts:211-212`). A redeemed ticket stays without a finalize exactly
  when its model is served but the idle timeout is invalid or `onRedeemed` throws
  (`Attempts.StreamCodexCompletion`; `ZeroIdleTimeoutIsNeverFinalized`). The server's own configuration
  accepts only positive timeouts (`codex-llm-proxy/src/config.ts:138`), so it takes another caller.
- The tool-name map's comment (`codex-llm-proxy/src/toolNameMap.ts:21-22`) promises a unique alias without
  assuming that hashes never collide. That holds as long as the suffixes fit 64 characters: exactly up to
  36^10 + 1 claimants of one digest (`ConstructSucceedsIff`, `CapacityIsSharp`).
- An object that loses its host reference is dropped by the parser before the handler looks at the cache
  (`channel-reader/src/k8sClient.ts:111-116`, `235-237`), so it stays cached until the next relist
  (`EventKeepsCacheIff`, `LostReferenceStaysCached`). The custom resource
  (`charts/clerum-crds/crds/communicationchannel.yaml:42-47`) requires the reference to be a string and sets
  no minimum length, so the empty string is the input that does it.
- A relist waits for the server between its snapshot and the refill of the cache, and a resync compares the
  cache with what it was before that wait (`channel-reader/src/k8sClient.ts:198-218`). So `onChange` fires
  exactly on a change of the cache if and only if the refill differs from both or from neither of the two
  caches (`ResyncFiresIff`), in particular when nothing altered the cache meanwhile
  (`UndisturbedResyncFiresIffChanged`). Otherwise it may fire for nothing (`ResyncFiresForNothing`), or an
  event that arrives in between is lost from the cache and nobody is told (`EventDuringResyncIsLost`). At
  any time the cache is what the consumer was last told, or what a resync put it back to since then
  (`CacheIsToldOrPutBack`, `ConsumerKnowsCacheIff`).
- A relist heals missed changes only until an event from before its snapshot arrives late
  (`LateEventUndoesRelist`); which past cluster the cache shows is exact, key by key (`CacheShowsSeen`).
- A cancel or error notice does not stop a delivery in flight (`channel-reader/src/main.ts:2137-2146`): for a
  delivered text, the notice is issued too exactly when it went out while that delivery was in flight
  (`BothIffOverlap`, `NoticeDoesNotStopDelivery`). Both are edits of one status message, so the later one
  stays, unless the text fell back to a message of its own.
- A progress reader that fails leaves its debounce timer running (`channel-reader/src/progressClient.ts:190-193`).
  The error callback is followed by one progress update exactly when one is scheduled, there are steps, and
  the timer fires before a close; nothing else ever follows (`ProgressAfterFailureIff` for a failed read,
  `ProgressAfterCrashIff` for a block that cannot be digested, `OneEnd`; `ProgressAfterFailure` is a run).

## Model

| member | source | states |
|---|---|---|
| StreamGates.OpenGate | codex-llm-proxy/src/requestLimits.ts:205-230 | a gate exists exactly for a width of at least one, a queue of at least zero, and a wait a timer can honour; it starts idle |
| StreamGates.StreamGate.Acquire | codex-llm-proxy/src/requestLimits.ts:261-329 | the call settles or queues as the admission step says (malformed stamps, abort, free slot, full queue, bound already over, queued), the settlements it causes are listed, and the slot invariant survives |
| StreamGates.StreamGate.Enqueue | codex-llm-proxy/src/requestLimits.ts:311-327 | a waiter whose bound is over on arrival leaves the queue as it was and is refused with the bound that ran out |
| StreamGates.StreamGate.Release | codex-llm-proxy/src/requestLimits.ts:331-343 | releasing runs the hand-off, a second release does nothing, and the slot invariant survives |
| StreamGates.StreamGate.PassSlotOn | codex-llm-proxy/src/requestLimits.ts:336-341 | the loop over the waiters, each looked at with a clock reading of its own, leaves the state and settlements of the hand-off |
| StreamGates.StreamGate.Leave | codex-llm-proxy/src/requestLimits.ts:282-310 | an abort or a timer takes the waiter out wherever it queues, and does nothing once the waiter has left |
| StreamGates.StepInv | codex-llm-proxy/src/requestLimits.ts:261-343 | arrivals, releases, double releases, aborts and timers all keep: `running` equals the unreleased grants, bounds on width and queue, no free slot beside a queue, queue in arrival order |
| StreamGates.HandOffInv | codex-llm-proxy/src/requestLimits.ts:336-341 | whoever ends up with the slot, and also when nobody does, the invariant holds again after the hand-off loop |
| StreamGateRuns.SlotsAreAccounted | codex-llm-proxy/src/requestLimits.ts:261-343 | in every reachable state `running` is the number of requests whose grant is in the history and whose release is not; it is within the width, the queue within its length, and a waiting request means that all slots are taken |
| StreamGateRuns.HeldIsHistory | codex-llm-proxy/src/requestLimits.ts:331-343 | a request holds a slot exactly when the run granted it and never ran its release afterwards |
| StreamGateRuns.SettledOnceInOrder | codex-llm-proxy/src/requestLimits.ts:232-241 | over every run each call of `acquire` is queued or has settled exactly once, and no grant overtakes an earlier request that is granted later or still waits |
| StreamGateRuns.StepIsOrderly | codex-llm-proxy/src/requestLimits.ts:261-343 | every step settles an arriving request at once (granted only beside an empty queue) or queues it last, and lets queued ones depart one by one, granted only from the head |
| StreamGateRuns.ReleaseServesFirstInBound | codex-llm-proxy/src/requestLimits.ts:242-247 | a release refuses exactly the waiters in front whom its clock readings find overdue, grants the first one inside its bound, leaves everybody behind in place, and frees the slot only if nobody can take it |
| StreamGateOutcomes.ArrivalOutcome | codex-llm-proxy/src/requestLimits.ts:261-328 | in every run, from its history: a malformed or aborted arrival is refused as such; otherwise it is granted at once exactly when a slot is free, refused as full exactly when all slots are held and the queue is at its length, queued exactly when each bound that applies is still ahead, and else refused as its bound says |
| StreamGateOutcomes.LeaveOutcome | codex-llm-proxy/src/requestLimits.ts:282-310 | in every run an abort or a timer refuses a request that still waits, with the reason that its arrival gives, and is nothing otherwise |
| StreamGateOutcomes.ReleaseOutcome | codex-llm-proxy/src/requestLimits.ts:311-343 | in every run a release of a held slot reaches the waiting requests in arrival order up to the first one inside its bounds, grants it and refuses the ones before; any other release is nothing |
| StreamGateOutcomes.QueuedThenGranted | codex-llm-proxy/src/requestLimits.ts:326-340 | the concrete run: a second request queues and is granted when the first releases |
| StreamGateRuns.NeverGrantedLate | codex-llm-proxy/src/requestLimits.ts:292-323 | no queued request of any run is granted once its wait reached the gate's own wait, the caller's deadline, or the own wait measured from the caller's stamp, however late timers fire |
| StreamGateRuns.TwoGatesShareOneWait | codex-llm-proxy/src/requestLimits.ts:80-86 | a request that passes the visual gate and then the stream gate under one clock, with the admission deadline, queues for less than the maximal wait in total |
| AdmissionWaits.GrantedBeforeDeadlineIff | codex-llm-proxy/src/requestLimits.ts:247-248 | under one clock a request is granted before its deadline exactly when it reached the gate before its deadline |
| AdmissionWaits.GuardBoundsTotalWait | codex-llm-proxy/src/server.ts:702-710 | a request that finds its admission deadline still ahead in front of the stream gate waits less than the maximal wait in all its queues together, whatever the earlier ones did |
| AdmissionWaits.ThreeQueuesShareOneWait | codex-llm-proxy/src/requestLimits.ts:80-86 | the visual gate, the body budget and the stream gate together hold a request for less than the maximal wait, given that look at the deadline |
| AdmissionWaits.UnguardedWaitIsUnbounded | codex-llm-proxy/src/server.ts:705-708 | without it a body let in late at any time is granted by an idle gate at once, so the total has no bound |
| StreamGateRuns.ReleasingDrains | codex-llm-proxy/src/requestLimits.ts:331-343 | releasing in any order, slots handed off meanwhile included, ends within held plus queued releases, with an empty queue and no slot taken |
| BodyBudgets.OpenBudget | codex-llm-proxy/src/requestLimits.ts:372-384 | a budget exists exactly for a safe positive capacity and a queue of at least zero; it starts idle |
| BodyBudgets.BodyBudget.Acquire | codex-llm-proxy/src/requestLimits.ts:402-450 | the call settles or queues as the admission step says (impossible size, bad deadline, abort, fits at once, full queue, queued) and the byte invariant survives |
| BodyBudgets.BodyBudget.Release | codex-llm-proxy/src/requestLimits.ts:453-462 | the reservation's bytes come back once, whatever fits is admitted, and a second release does nothing |
| BodyBudgets.BodyBudget.Leave | codex-llm-proxy/src/requestLimits.ts:424-433 | a waiter that aborts or expires leaves from anywhere in the queue and those behind it are reconsidered |
| BodyBudgets.BodyBudget.DrainQueue | codex-llm-proxy/src/requestLimits.ts:464-473 | the drain loop grants head after head while the head fits, and stops with the state and settlements of the drain |
| BodyBudgets.StepInv | codex-llm-proxy/src/requestLimits.ts:402-473 | every step keeps: `inFlight` is the sum of the unreleased reservations, at most the capacity; the queue is within its length and in arrival order; its head does not fit |
| BodyBudgets.DrainInv | codex-llm-proxy/src/requestLimits.ts:464-473 | from accounted bytes alone a drain re-establishes that the head of the queue does not fit |
| BodyBudgetRuns.BytesAreAccounted | codex-llm-proxy/src/requestLimits.ts:402-473 | in every reachable state `inFlight` is the sum of the declared bytes of the bodies the history admitted and did not release, at most the capacity; a queued head does not fit, so some body still holds bytes and there is no deadlock |
| BodyBudgetRuns.HeldIsHistory | codex-llm-proxy/src/requestLimits.ts:453-462 | a reservation is held exactly when the run admitted it and never ran its release afterwards, and it holds the bytes declared on arrival |
| BodyBudgetRuns.SettledOnceInOrder | codex-llm-proxy/src/requestLimits.ts:394-401 | over every run each call is queued or settled exactly once, and bodies are admitted in arrival order even when waiters leave mid-queue |
| BodyBudgetRuns.StepIsOrderly | codex-llm-proxy/src/requestLimits.ts:402-473 | every step settles an arriving body at once (granted only beside an empty queue) or queues it last, and lets queued ones depart one by one, granted only from the head |
| BodyBudgetOutcomes.ArrivalOutcome | codex-llm-proxy/src/requestLimits.ts:402-450 | in every run, from its history: an impossible or aborted body is refused as such; otherwise it is admitted at once exactly when nobody queues and it fits, refused as full exactly when it is not and the queue is at its length, and else queued |
| BodyBudgetOutcomes.LeaveOutcome | codex-llm-proxy/src/requestLimits.ts:424-433 | in every run an abort or a deadline refuses a body that still waits, with its own reason, and only admits others; it is nothing otherwise |
| BodyBudgetOutcomes.ReleaseOutcome | codex-llm-proxy/src/requestLimits.ts:453-462 | in every run a release of held bytes only admits, and any other release is nothing |
| BodyBudgetRuns.DrainAdmitsFittingPrefix | codex-llm-proxy/src/requestLimits.ts:464-473 | a drain admits a queue position exactly when everything up to it fits together |
| BodyBudgetRuns.ReleasingDrains | codex-llm-proxy/src/requestLimits.ts:453-473 | releasing in any order takes exactly held plus queued releases and ends with an empty queue and nothing in flight |
| BodyBudgetRuns.AdmitsPastDeadlineIff | codex-llm-proxy/src/requestLimits.ts:435-450 | a release or departure of any run lets some body in past its deadline exactly when an overdue body fits behind those in front of it |
| BodyBudgetRuns.LateTimerAdmitsPastDeadline | codex-llm-proxy/src/requestLimits.ts:394-401 | two bodies that do not fit together: the second is granted whenever the first is released, however far past the second's deadline |
| AdmissionRuns.RunLedger | codex-llm-proxy/src/requestLimits.ts:232-241 | any queue whose steps are of that kind settles each request of a run at most once and grants in arrival order |
| ToolNames.Build | codex-llm-proxy/src/toolNameMap.ts:11-34 | the constructor's loop over the sorted names yields the specified tables, and throws exactly when the specification has none |
| ToolNames.BuildSorted | codex-llm-proxy/src/toolNameMap.ts:15-33 | the loop that fills `occupied`, `outbound` and `inbound` in place reaches the specified allocation state, and refuses at the first name that cannot be allocated |
| ToolNames.FindFree | codex-llm-proxy/src/toolNameMap.ts:19-25 | the suffix loop ends on the first free candidate, or on the last one it may try |
| ToolNameSpelling.CandidateInjective | codex-llm-proxy/src/toolNameMap.ts:19-25 | different digests or different suffixes never spell the same candidate |
| ToolNameSpelling.CandidateCompliant | codex-llm-proxy/src/toolNameMap.ts:24-26 | a candidate fits the 64-character pattern exactly up to suffix 36^10 - 1 |
| ToolNameSpelling.Base36Injective | codex-llm-proxy/src/toolNameMap.ts:24 | base-36 suffixes tell numbers apart |
| ToolNameSpelling.Base36Reads | codex-llm-proxy/src/toolNameMap.ts:24 | a suffix reads back, digit by digit, as its number, in the digits 0 to 9 and a to z, without a leading zero |
| ToolNameSpelling.AliasSpelling | codex-llm-proxy/src/toolNameMap.ts:19-25 | an alias is the literal prefix and the digest, and after an underscore the numeral of its number |
| ToolNameSpelling.CompliantIff | codex-llm-proxy/src/toolNameMap.ts:5 | a name is compliant exactly if it is one to sixty-four of the pattern's characters, given by their codes |
| ToolNameSpelling.LessIsLexicographic | codex-llm-proxy/src/toolNameMap.ts:12 | names are sorted by their first difference, ascending, a prefix first |
| ToolNameAllocation.OccupiedAreOwned | codex-llm-proxy/src/toolNameMap.ts:13-33 | when the first candidates of a digest are all occupied, as many distinct names took them: canonical names shaped like them, or colliding names already allocated |
| ToolNameAllocation.ProbeIsFree | codex-llm-proxy/src/toolNameMap.ts:21-25 | the comment's pigeonhole: the suffix loop always stops on a free candidate, all earlier ones are occupied, and its index stays below what the digest's claimants can need |
| ToolNameTheorems.ConstructSucceedsIff | codex-llm-proxy/src/toolNameMap.ts:11-34 | construction succeeds exactly when, for every digest, the names that need an alias under it and the canonical names shaped like one are together at most 36^10 + 1 |
| ToolNameTheorems.NeverThrows | codex-llm-proxy/src/toolNameMap.ts:21-29 | whatever the hash, collisions included, up to 36^10 + 1 distinct names never make it throw |
| ToolNameTheorems.CapacityIsSharp | codex-llm-proxy/src/toolNameMap.ts:26-28 | for every larger number of names there are names and a hash on which it throws |
| ToolNameTheorems.WireNamesAreUnique | codex-llm-proxy/src/toolNameMap.ts:13-33 | exactly the given names are mapped, every wire name fits the pattern, compliant names keep theirs, distinct names get distinct wire names, and no alias is another canonical name |
| ToolNameTheorems.SetDeterminesMaps | codex-llm-proxy/src/toolNameMap.ts:12 | permuting or repeating the input gives the same two maps |
| ToolNameTheorems.WireNameClosedForm | codex-llm-proxy/src/toolNameMap.ts:16-33 | a name that needs an alias gets the r-th candidate of its digest that is no canonical name, r being the number of smaller names with the same digest; no other wire name is possible |
| ToolNameTheorems.AliasIsStable | codex-llm-proxy/src/toolNameMap.ts:11-34 | two inventories that agree on the claimants of a name's digest give the name the same wire name |
| ToolNameTheorems.RoundTrip | codex-llm-proxy/src/toolNameMap.ts:36-52 | every registered name has a wire name, comes back from it, and comes back from its own echo |
| ToolNameTheorems.FromWireIff | codex-llm-proxy/src/toolNameMap.ts:42-52 | the inbound lookup answers exactly: a registered name for its wire name and for itself, and a safe unregistered name that is no alias for itself; no target is ever inferred |
| ToolNameTheorems.FromWireIsIdempotent | codex-llm-proxy/src/toolNameMap.ts:42-52 | the inbound lookup is idempotent, returns a registered name or what it was asked for, and is undefined exactly for unregistered names that are unsafe or look like an alias |
| CodexRequest.BuildUpstreamBody | codex-llm-proxy/src/codexTransport.ts:382-394 | a body is built exactly when the name map can be, with the payload of that map: no lookup of a name in it ever throws |
| CodexPayload.InputIsConversation | codex-llm-proxy/src/codexTransport.ts:541-584 | the payload's input is the messages in order, one after the other and nothing else: each non-system message's text, parts, tool output or calls stand at its own place, with its role, call ids and arguments |
| CodexPayload.PayloadIsRequest | codex-llm-proxy/src/codexTransport.ts:537-616 | the payload's other fields: the model, a stream that is not stored, the non-blank system texts in order as instructions, the tools with their schemas unchanged, and the choice and cache key when there are any |
| CodexRequest.EveryNameIsMapped | codex-llm-proxy/src/codexTransport.ts:533-603 | the names in the payload are, one for one and in order, the wire names of the history's calls and of the offered tools |
| CodexRequest.PayloadRoundTrip | codex-llm-proxy/src/codexTransport.ts:556-595 | reading the payload's names back through the map gives the request's names, and every name sent fits the pattern |
| CodexAnswer.ReadDeliversKnownNames | codex-llm-proxy/src/codexTransport.ts:646-661 | every tool frame that any read of an answer hands to the sink, successful or not, carries a requested canonical name or a safe unregistered one, never an alias |
| CodexAnswer.AnswerIsCanonical | codex-llm-proxy/src/codexTransport.ts:625-738 | in a successful chunked read a call whose last name, whenever it is handed out, is a requested tool's wire name or the echo of its canonical name is delivered, and all its frames carry the canonical name |
| CodexAnswer.FrameNameIsAsked | codex-llm-proxy/src/codexTransport.ts:646-661 | the converse, for every frame of every run: a frame named after a requested tool comes from an item whose last name at its hand-out was that tool's wire name or canonical name, and any other frame carries that last name unchanged |
| CodexAnswerExample.LateNameIsCanonical | codex-llm-proxy/src/codexTransport.ts:820-838 | for any request and any of its tools, a concrete text whose call is named only by its closing event is read to exactly one frame under the canonical name |
| CodexAnswer.WireNameIsNotBlank | codex-llm-proxy/src/codexTransport.ts:875-876 | no wire name is blank, so naming a call by it is never ignored |
| Sse.ChunkInvariance | codex-llm-proxy/src/codexTransport.ts:680-681 | however a text is cut, the blocks and the remainder are those of splitting it once |
| Sse.SplitConcat | codex-llm-proxy/src/codexTransport.ts:676-681 | splitting a text and then its remainder with what follows is splitting both together |
| Sse.SplitThenEncode | codex-llm-proxy/src/codexTransport.ts:680-681 | splitting loses nothing: blocks and remainder encode to the text, and no block holds a blank line |
| Sse.EncodeThenSplit | codex-llm-proxy/src/codexTransport.ts:680-681 | blocks without a blank line or a final newline come back exactly as they were encoded |
| Sse.NormalizedChunksIff | codex-llm-proxy/src/codexTransport.ts:676 | normalizing chunk by chunk frames the text like normalizing it whole exactly when no chunk border cuts a CR LF pair |
| Sse.NormalizePerChunk | codex-llm-proxy/src/codexTransport.ts:676 | the chunkwise normalized text is longer by exactly one character for every cut pair, and equal when there is none |
| Sse.CutPairEndsBlock | codex-llm-proxy/src/codexTransport.ts:676-681 | a pair cut between two lines turns one unfinished block into a finished block and a remainder |
| JsonText.TrimIsMiddle | codex-llm-proxy/src/codexTransport.ts:770-773 | trimming takes away the white space at both ends, all of it and nothing else |
| JsonText.LinesAre | codex-llm-proxy/src/codexTransport.ts:769 | the lines of a text hold no newline, and joined they are the text |
| JsonText.FalsyIff | codex-llm-proxy/src/codexTransport.ts:866 | the falsy values are what is absent, null, false, zero and the empty text |
| CodexStream.ConsumeSse | codex-llm-proxy/src/codexTransport.ts:625-738 | the reading loop, with its buffer, pending calls, held frames and flags updated in place, delivers and reports what the specification of the whole read says, for every chunking, abort, broken read and rejecting sink |
| CodexStream.IngestBlocks | codex-llm-proxy/src/codexTransport.ts:682-689 | the blocks of one chunk are mapped in turn up to the first error |
| CodexStream.FlushAndDeliver | codex-llm-proxy/src/codexTransport.ts:723-737 | after the last read the open calls are emitted in insertion order, then the held frames delivered in order, or nothing without a terminal event |
| CodexStream.OnEventsKeyed | codex-llm-proxy/src/codexTransport.ts:862-891 | every pending key is listed once, in insertion order, after any events |
| CodexRows.BlocksAre | codex-llm-proxy/src/codexTransport.ts:673-694 | the blocks of a read are the pieces between the blank lines of its normalized text, and what follows the last one unless it is blank |
| CodexRows.EventAndData | codex-llm-proxy/src/codexTransport.ts:764-786 | a block of an event line and a data line carries the row that its data parses to |
| CodexRows.CarriedIsMapped | codex-llm-proxy/src/codexTransport.ts:768-785 | the row of a block is what its first data line parses to, unless that is empty or the end marker |
| CodexRows.FailedIff | codex-llm-proxy/src/codexTransport.ts:844-846 | a row means failure exactly if its type is one of the three failing ones |
| CodexRows.CompletedIff | codex-llm-proxy/src/codexTransport.ts:840-843 | a row means completion exactly if its type says so |
| CodexRows.TextIff | codex-llm-proxy/src/codexTransport.ts:808-810 | a row means text exactly if it is an output-text delta with a string, and then that string |
| CodexRows.CallIff | codex-llm-proxy/src/codexTransport.ts:811-839 | a row is about a call exactly if it is of one of the two argument types, or adds or closes a function call item |
| CodexRows.CallSource | codex-llm-proxy/src/codexTransport.ts:811-839 | what a call row brings: which kind of event, and each property under its own name |
| CodexRows.FailureCodeIff | codex-llm-proxy/src/codexTransport.ts:850-860 | the failure code is the text code of the row's error, or else of its response's error |
| CodexRows.CompletedUsage | codex-llm-proxy/src/codexTransport.ts:840-843 | the usage is that of the row's response, or the row's own if it has none |
| CodexRows.NothingAfterFailingRow | codex-llm-proxy/src/codexTransport.ts:716-722 | a read of a text with a failing row, wherever it stands, releases no tool call and is no success |
| CodexRows.CompletedRowNeeded | codex-llm-proxy/src/codexTransport.ts:733-737 | a success, like a delivered tool call, needs a row that says that the response completed |
| CodexRows.TextIsDeltas | codex-llm-proxy/src/codexTransport.ts:808-810 | what any read hands to the sink first is a prefix of the rows' text deltas in order, all of them if anything follows or the read succeeds |
| CodexRows.CallsComeFromRows | codex-llm-proxy/src/codexTransport.ts:811-839 | a delivered tool call comes from an item of which some function call row of the text speaks |
| CodexStreamReading.ChunkedReadIsWholeRead | codex-llm-proxy/src/codexTransport.ts:673-700 | an undisturbed read that never trips the buffer guard delivers the same frames, with the same outcome, as one pass over the joined normalized text |
| CodexStreamReading.ChunkingDoesNotMatter | codex-llm-proxy/src/codexTransport.ts:673-700 | two chunkings of one text that cut no CR LF pair give the same frames and outcome |
| CodexStreamReading.ToolsOnlyAfterSuccess | codex-llm-proxy/src/codexTransport.ts:635-637 | in every run, with aborts, errors and sink failures, the sink gets a prefix of the text frames in arrival order and then a prefix of the held frames in their order, at most 256; a tool frame, like a success, means that all events were mapped, the response completed, and it did not fail; a success delivers all |
| CodexToolCalls.OnEventsTrack | codex-llm-proxy/src/codexTransport.ts:795-903 | however the events of different items interleave, each item's pending call and held frames are those of its own events alone |
| CodexToolCalls.SuccessDelivers | codex-llm-proxy/src/codexTransport.ts:723-735 | a successful response delivers all its text, then every held frame, in order |
| CodexToolCalls.SuccessfulRead | codex-llm-proxy/src/codexTransport.ts:670-737 | a chunked read succeeds exactly when it was neither cut nor aborted, its chunks went through, and its events succeed |
| CodexToolCalls.ItemAtEnd | codex-llm-proxy/src/codexTransport.ts:723-735 | after success an item's frames are those of its hand-outs, or the one of its flushed call if there was none |
| CodexToolCalls.OneFramePerItemIff | codex-llm-proxy/src/codexTransport.ts:811-838 | after success an item is delivered once, plus once for every `added` event with complete arguments for a call already handed out |
| CodexToolCalls.RepeatedAddIsDeliveredTwice | codex-llm-proxy/src/codexTransport.ts:811-819 | a concrete successful response, one item added twice with complete arguments, delivers its call twice |
| CodexToolCalls.NoReemission | codex-llm-proxy/src/codexTransport.ts:811-819 | an item that is added first and at most once is never handed out again |
| CodexToolCalls.OneCallWithItsArguments | codex-llm-proxy/src/codexTransport.ts:811-903 | under that protocol every pending item is delivered exactly once, and its arguments are the text it was added with if complete, else the first closing event's own arguments, else the text gathered before it, else, never closed, the gathered text |
| CodexToolCalls.HandoutsCount | codex-llm-proxy/src/codexTransport.ts:829-838 | a closing event hands out at most once per item: all further hand-outs are repetitions by `added` events |
| CodexToolOrder.HeldInOrder | codex-llm-proxy/src/codexTransport.ts:646-731 | what a response holds in the end is given by its events alone, call by call: what its events hand out, in event order, then the calls left open, in the order in which their items first appeared |
| CodexToolOrder.ToolsInOrder | codex-llm-proxy/src/codexTransport.ts:635-737 | in every run the sink gets a prefix of the text frames and then the frames of a prefix of that list of calls, each of that very call; only after all the text of a completed, unfailed response; all of them on success |
| CodexToolOrder.EventLists | codex-llm-proxy/src/codexTransport.ts:866-890 | the pending calls are listed in the order in which their items first appeared |
| CodexFields.KeyIsFirstId | codex-llm-proxy/src/codexTransport.ts:866 | an event is about the item that its item id names, else its id, else its call id |
| CodexFields.CallSays | codex-llm-proxy/src/codexTransport.ts:862-891 | however an item's events come, its pending call has the last text call id, or else the first event's ids; the last name that is not blank; and the last whole argument text with all the pieces after it |
| CodexFields.EmittedIffHanded | codex-llm-proxy/src/codexTransport.ts:816-838 | a call counts as emitted exactly when an added event brought a complete text or a closing event came |
| CodexFields.ToolCallsSay | codex-llm-proxy/src/codexTransport.ts:811-903 | every tool call of a response says what its item's events said when it was handed out, or at the end |
| CodexFields.ArgumentsIff | codex-llm-proxy/src/codexTransport.ts:916-941 | arguments are the object that the text parses to, and none only for a closed call with a blank text |
| CodexFields.DeliveredFramesSay | codex-llm-proxy/src/codexTransport.ts:811-941 | in every run each delivered frame carries the call id, the canonical name and the arguments that the events of its own item gave it |
| CodexFields.UpstreamItemIsOneCall | codex-llm-proxy/src/codexTransport.ts:811-891 | an item that is added, streamed and closed in the usual way is one call, handed out when closed, under its call id and not its own id |
| CodexOutcome.EventsAcceptedIff | codex-llm-proxy/src/codexTransport.ts:638-663 | the events go through without error exactly when items and calls are within the limit, every call handed out has a known name and arguments, and the sink takes every text |
| CodexOutcome.FirstErrorIs | codex-llm-proxy/src/codexTransport.ts:638-663 | otherwise the read throws what is wrong with the first event that is not in order |
| CodexOutcome.SucceedsIff | codex-llm-proxy/src/codexTransport.ts:716-737 | a response succeeds exactly when it completed, did not fail, and is acceptable: within the limits, every call with a known name and arguments, every frame taken; it reports the last usage |
| CodexOutcome.FailureIsThrown | codex-llm-proxy/src/codexTransport.ts:717-722 | a failed response throws its failure whatever its calls, and says if it exceeded the context |
| CodexOutcome.UnfinishedIsUnknown | codex-llm-proxy/src/codexTransport.ts:723-737 | a response without a terminal event delivers its text only and is unknown, unless an open call is too many or has no known name |
| CodexOutcome.CompletedErrorIs | codex-llm-proxy/src/codexTransport.ts:723-735 | a completed response that does not succeed throws what is wrong with its first bad open call, or the sink's refusal |
| CodexOutcome.ReadEnds | codex-llm-proxy/src/codexTransport.ts:670-737 | how a chunked read ends: a buffer over a mebibyte, an abort or a broken read throws as such, and otherwise the response decides |
| CodexDelivery.ReadDelivers | codex-llm-proxy/src/codexTransport.ts:670-737 | exactly what any read hands to the sink and how it ends, from the events that it gets to: up to the first one that is not in order; or up to a disturbance, a broken read or an abort, with all their text sent; or else as the response ends |
| CodexDelivery.SentUntilError | codex-llm-proxy/src/codexTransport.ts:638-663 | a read that an event stops has sent the text of exactly the events before it, and the text that was refused |
| CodexDelivery.RefusalStopsRead | codex-llm-proxy/src/codexTransport.ts:740-762 | in every run a frame that the sink refuses is the last one it is handed, and the read throws that refusal, and only then |
| Attempts.StreamCodexCompletion | codex-llm-proxy/src/codexTransport.ts:190-261 | nothing is redeemed before the checks pass or after the client left; a receipt is sent exactly when one is owed, after the redeem, with the redeemed receipt; it says success exactly when the read succeeded; the result agrees with it; frames reach the sink only under a redeemed ticket, tool frames only under known names |
| Attempts.FinalizeQuietly | codex-llm-proxy/src/codexTransport.ts:263-288 | whatever the control plane answers, one or two finalizes, all with the same receipt, the second exactly when the first was rejected |
| Attempts.ThrownIff | codex-llm-proxy/src/codexTransport.ts:234-248 | what reaches the attempt's catch: the failure before or at the dispatch, the reason of a cut read, the sink's own failure, or a transport error |
| PendingApprovals.WorkflowApprovalPendingApprovals.TrackApproval | channel-reader/src/workflowApprovalPendingApprovals.ts:25-44 | the table after tracking: pruned, and the approval moved to the end of its key's list with the new stamp |
| PendingApprovals.WorkflowApprovalPendingApprovals.ListApprovals | channel-reader/src/workflowApprovalPendingApprovals.ts:46-49 | the table after pruning, and the key's list in it |
| PendingApprovals.WorkflowApprovalPendingApprovals.ReplaceApprovals | channel-reader/src/workflowApprovalPendingApprovals.ts:51-56 | the table after replacing: pruned, and one approval left for the key |
| PendingApprovals.WorkflowApprovalPendingApprovals.ClearApprovals | channel-reader/src/workflowApprovalPendingApprovals.ts:58-60 | the table without the key |
| PendingApprovals.WorkflowApprovalPendingApprovals.ForgetApproval | channel-reader/src/workflowApprovalPendingApprovals.ts:62-73 | the approval is gone under every key, and keys left empty are gone too |
| PendingApprovals.WorkflowApprovalPendingApprovals.KeepOnly | channel-reader/src/workflowApprovalPendingApprovals.ts:77-84 | the loop over the entries filters every list and drops the keys left empty, in whatever order it meets them |
| PendingApprovals.ListRefinesLog | channel-reader/src/workflowApprovalPendingApprovals.ts:22-86 | under a clock that never goes back a listing holds exactly the approvals that the log last announced within the TTL for the key and did not since forget, clear or replace, each once, in stamp order |
| PendingApprovals.NoEmptyLists | channel-reader/src/workflowApprovalPendingApprovals.ts:62-85 | no operation leaves a key with an empty list, whatever the clock does |
| PendingApprovals.KeysTellApart | channel-reader/src/workflowApprovalPendingApprovals.ts:12-20 | keys of NUL-free parts are equal exactly for the same conversation and recipe, a missing workspace counting as an empty one |
| NoticeLimiter.Limiter.Attempt | channel-reader/src/main.ts:1671-1690 | a known key is skipped, a full table is skipped with a warning on the first such call, and otherwise the attempt is recorded before it is sent |
| NoticeLimiter.Limiter.Sweep | channel-reader/src/main.ts:2358-2367 | exactly the records older than 24 hours go, and the warning flag is reset exactly when fewer than fifty are left |
| NoticeLimiter.CapHolds | channel-reader/src/main.ts:1671-1690 | there are never more than fifty records, and a set warning flag means that the cap is still reached |
| NoticeLimiter.RecordIff | channel-reader/src/main.ts:2358-2362 | a record is there exactly as long as its attempt lives: until a sweep more than 24 hours later, and not longer |
| NoticeLimiter.AttemptIff | channel-reader/src/main.ts:1671-1690 | in any run an attempt is skipped exactly if one for its key lives or fifty live, and otherwise goes out |
| NoticeLimiter.WarnedBefore | channel-reader/src/main.ts:1673-1686 | the limiter counts as warned only after a warning since which no sweep left fewer than fifty records, so the first capped attempt after that warns |
| NoticeLimiter.WindowCap | channel-reader/src/main.ts:1666-1690 | any closed 24-hour window of any run contains at most fifty attempts |
| NoticeLimiter.SameKeyDayApart | channel-reader/src/main.ts:100-101 | two attempts for one key are more than 24 hours apart |
| NoticeLimiter.DrainedBetweenWarnings | channel-reader/src/main.ts:1673-1678 | between two cap warnings some sweep brought the number of records below the cap |
| FinalDelivery.Delivery.DeliverFinalResult | channel-reader/src/main.ts:1985-1990 | a delivered result answers at once, a delivery in flight is joined, and only otherwise one is started |
| FinalDelivery.Delivery.Resume | channel-reader/src/main.ts:1989-2063 | each settled await moves the delivery in flight on: fetch, status edit, fallback message, flag, attachments, and the owner's clean-up |
| FinalDelivery.Delivery.TerminalNotice | channel-reader/src/main.ts:2131-2146 | a cancel or error notice goes out once, sets the flag, and leaves a delivery in flight alone |
| FinalDelivery.DeliveredAtMostOnce | channel-reader/src/main.ts:1941-2089 | over all interleavings of callers, failed attempts, retries and notices the final text is delivered at most once, and a delivery that yields true did deliver it |
| FinalDelivery.DeliveryCourse | channel-reader/src/main.ts:1989-2056 | a delivery that nobody interrupts delivers the text exactly when it is ready and the edit or the fallback message succeeds, sends the attachments exactly then, and yields what the callers act on |
| FinalDelivery.RetryAfterFailure | channel-reader/src/main.ts:2058-2063 | after a failed delivery the next caller starts a new one, unless the text had already been delivered; nothing is delivered twice |
| FinalDelivery.BothIffOverlap | channel-reader/src/main.ts:2131-2146 | for a delivered text, a notice was issued too exactly when it went out while that delivery was in flight or had just posted |
| FinalDelivery.NoticeDoesNotStopDelivery | channel-reader/src/main.ts:2137-2140 | the concrete run: a cancel while the result is fetched, followed by the delivery of the text |
| ChannelWatcher.CommunicationChannelWatcher.HandleWatch | channel-reader/src/k8sClient.ts:111-152 | the cache after the event and whether `onChange` fired, for every event type and object |
| ChannelWatcher.CommunicationChannelWatcher.Refill | channel-reader/src/k8sClient.ts:82-91 | the cache is cleared and refilled from the listed objects of this host |
| ChannelWatcher.CommunicationChannelWatcher.ListChannels | channel-reader/src/k8sClient.ts:63-99 | a list call refills the cache and returns it; a failed one leaves everything alone |
| ChannelWatcher.CommunicationChannelWatcher.ResyncChannels | channel-reader/src/k8sClient.ts:198-218 | a resync refills the cache and fires `onChange` exactly when the refilled cache differs from the one it remembered when it was called |
| ChannelWatcher.FiresIffChanged | channel-reader/src/k8sClient.ts:118-151 | a watch event fires `onChange` exactly when it changed the cache |
| ChannelWatcher.EventKeepsCacheIff | channel-reader/src/k8sClient.ts:111-146 | an event keeps a correct cache correct exactly when it announces no change, or its object has a host reference or was not cached |
| ChannelWatcher.RelistIsOwn | channel-reader/src/k8sClient.ts:82-91 | a relist that returns the cluster in any order makes the cache the cluster filtered by host |
| ChannelWatcher.CacheShowsSeen | channel-reader/src/k8sClient.ts:63-218 | after any changes, late, repeated, reordered or missing events and overlapping relists, the cache shows, key by key, the cluster of one past moment filtered by host: that of the last relist or kept event about the key |
| ChannelWatcher.RightIffViewUnchanged | channel-reader/src/k8sClient.ts:63-218 | the cache is the filtered cluster exactly when, for every key, the host's view of it is what it was at that moment |
| ChannelWatcher.QuietKeyIsRight | channel-reader/src/k8sClient.ts:190-197 | a key that did not change since that moment is right, so a relist heals any gap before its snapshot until an older event overtakes it |
| ChannelWatcher.LateEventUndoesRelist | channel-reader/src/k8sClient.ts:118-128 | the concrete run: a deleted channel comes back when its old event arrives after the relist that no longer lists it |
| ChannelWatcher.ResyncFiresIff | channel-reader/src/k8sClient.ts:198-217 | a resync fires exactly when it changes the cache if and only if the refill differs from both or from neither of the cache of its start and the cache it replaces |
| ChannelWatcher.UndisturbedResyncFiresIffChanged | channel-reader/src/k8sClient.ts:190-217 | in any run, if no step altered the cache while a resync waited, it fires exactly when it changes the cache |
| ChannelWatcher.ResyncFiresForNothing | channel-reader/src/k8sClient.ts:214-217 | the concrete run: a channel added while a resync waits, and listed by it, is announced twice |
| ChannelWatcher.ToldIffNotPutBack | channel-reader/src/k8sClient.ts:198-217 | a step keeps the consumer up to date exactly when it is no resync that puts the cache back to what it was when it was called |
| ChannelWatcher.CacheIsToldOrPutBack | channel-reader/src/k8sClient.ts:149-217 | in every run the cache is what the consumer was last told, or what a resync put it back to since then |
| ChannelWatcher.ConsumerKnowsCacheIff | channel-reader/src/k8sClient.ts:149-217 | the consumer knows the cache exactly when no resync put it back since the consumer was last told, or the last one put it back to what was told |
| ChannelWatcher.EventDuringResyncIsLost | channel-reader/src/k8sClient.ts:198-217 | the concrete run: a channel added between snapshot and refill disappears from the cache, and nobody is told |
| ChannelWatcher.LostReferenceStaysCached | channel-reader/src/k8sClient.ts:235-237 | the concrete run: a channel whose host reference becomes empty stays cached |
| ProgressStream.ProgressReader.Feed | channel-reader/src/progressClient.ts:121-180 | a chunk: blocks are cut off the buffer and handled one at a time, stopping inside the chunk at the first end event, with the result of handling all its blocks in turn |
| ProgressStream.ProgressReader.FireTimer | channel-reader/src/progressClient.ts:55-64 | the debounce timer reports the steps once, unless the stream is closed or there are none |
| ProgressStream.ProgressReader.Close | channel-reader/src/progressClient.ts:66-71 | closing marks the stream closed and stops the timer, once |
| ProgressStream.ProgressReader.Finish | channel-reader/src/progressClient.ts:183-193 | the end of the text reports the steps, a failed read reports an error and leaves the timer as it is |
| ProgressStream.TimersDoNotMatter | channel-reader/src/progressClient.ts:113-181 | however the text is cut and whenever the timer fires, the steps, the state and the callbacks other than progress updates are those of one pass over the whole text; without a timer firing all callbacks are |
| ProgressStream.OneEnd | channel-reader/src/progressClient.ts:161-193 | in every run there is at most one terminal or error callback, and nothing follows it but one scheduled progress update after a failure |
| ProgressStream.EndReportsSteps | channel-reader/src/progressClient.ts:183-189 | a text that ends by itself has its steps reported once more |
| ProgressTelling.TellsIff | channel-reader/src/progressClient.ts:73-86 | a block is an event exactly when its data lines, put together, parse; its last event line names it |
| ProgressTelling.KindNames | channel-reader/src/progressClient.ts:131-170 | the names of the five events that the reader knows |
| ProgressTelling.StepsFollowEvents | channel-reader/src/progressClient.ts:131-152 | one step for every started tool call, in order, with its own data, running until it is completed and then errored exactly if that says so, with its duration and summary |
| ProgressTelling.StepsOfText | channel-reader/src/progressClient.ts:117-152 | while reading goes on, however the text is cut and whenever the timer fires, the steps are those of the events in the text so far |
| ProgressTelling.SuspensionsAreTold | channel-reader/src/progressClient.ts:153-160 | progress aside, the consumer has been told of every suspension, in order, and of nothing else |
| ProgressTelling.FirstEndIsTold | channel-reader/src/progressClient.ts:161-179 | the first terminal or error block ends the reading, and its callback is the last |
| ProgressTelling.ProgressBeforeTelling | channel-reader/src/progressClient.ts:158-166 | a suspension or an end comes after an update with the steps so far |
| ProgressStream.ProgressAfterFailureIff | channel-reader/src/progressClient.ts:190-193 | after a failed read, in every continuation, the callbacks are the error and then one progress update exactly when one is scheduled, there are steps, and the timer fires before a close |
| ProgressStream.ProgressAfterFailure | channel-reader/src/progressClient.ts:131-193 | the concrete run: a step starts, the read fails, and the update follows the error |
| ProgressStream.ProgressAfterCrashIff | channel-reader/src/progressClient.ts:131-193 | the same for a chunk with a block that cannot be digested: the error, and the update exactly if it was scheduled before that block |
| ProgressStream.SilentAfterClose | channel-reader/src/progressClient.ts:55-71 | after a close the consumer is never called again, whatever happens |

## Left out

- HTTP, fetch, DNS, Kubernetes and chat clients, metrics and logging: the outside world; their answers are arguments of the modelled steps.
- SHA-256: an arbitrary function to forty hex digits, so no theorem depends on which one.
- `JSON.parse`, `JSON.stringify`, `String` of non-strings and the reading of usage records: arbitrary functions; only the tests on their results are modelled.
- UTF-8 decoding: chunks are texts, and what the decoder holds back at the end is the `tail` of a read.
- UTF-16: strings are sequences of characters, so the order of names is by character; the theorems on names do not depend on which total order sorts them, except for which collision comes first, and the limit on the event buffer counts characters.
- Promises and timers: steps that may happen at any time; a timer step is allowed also for a waiter without a deadline, which only adds runs.
- Fractional and non-numeric sizes in the configuration of the queues and in body sizes: sizes are integers, so those range checks have no case here; stamps keep theirs.
- ToolNames.Build: the maps are returned as a value and not kept in an object, because nothing changes them after the constructor.
- AdmissionWaits.ThreeQueuesShareOneWait: takes from `codex-llm-proxy/src/server.ts`, lines 209-210, 239, 478, 689, 705, 738 and 747, which stamps and deadlines the queues get and where the deadline is looked at; the rest of the request handler, such as the share of one principal in the visual gate, is not modelled.
- Attempts.StreamCodexCompletion: the parsing and hashing of the request, the bounded deadline and the mapping of upstream status codes are one failing or passing check each; a second use of a released request does not occur.
- CodexStream.ConsumeSse: backpressure of the sink is not modelled, only whether it rejects; the abort signal is looked at where the code looks at it.
- NoticeLimiter.Limiter.Attempt: the composition of the limiter key and the early returns before it are not modelled; a key is any text.
- FinalDelivery.Delivery.Resume: the texts, the queue of status edits, the approval prompt and the attachments' content are not modelled; an approval prompt is a result that is not ready, or a failing fetch.
- The polling loop's interval, its deadline and the callers' reactions to a failed delivery: a caller may call again at any time.
- ChannelWatcher.CommunicationChannelWatcher.HandleWatch: an object is its `namespace/name` key, its host reference and its serialized rest; comparing serializations is comparing these, and the order of the cache is not modelled.
- ProgressStream.ProgressReader.Feed: callbacks that throw or close the stream themselves, a chunk that was read just before a close, and requests that fail before the first read are not modelled; a step keeps its labels as raw data.
- Message dedupe, `ChannelReader.restart`, environment configuration, header building, origin tables and formatting: single checks or wiring with nothing to prove across calls.
