# KubeMQ client and burn-in: a verified model

This project models the stateful core of the KubeMQ TypeScript SDK and of its burn-in tool, and
proves what that core is for. `dafny verify dfyconfig.toml` checks all of it.

Each component has up to four layers:

- a **model**: the state as a value and one step function per call, callback, timer or promise
  continuation (`TrackerModel`, `QueueStreamModel`, `SelfHeal`, `ResumeModel`, and so on);
- the **object** of the source, a class whose fields are updated in place by methods with the
  source's branches and loops, each proved to be the model's step (`Tracker`, `QueueStream`,
  `EventStream`, `RateLimiter`, `TokenCache`, `Worker`, `PeakRate`, `WarmupPool`);
- the **properties**, theorems about every run of the model, that is, about every interleaving
  of the steps (`TrackerProperties`, `TrackerWarmup`, `QueueStreamProperties`, and the rest);
- the **traces**, theorems that say from the events alone what a run comes to: which frames are on
  the wire, what becomes of each send, what is counted, dispatched, cached and granted
  (`QueueStreamTrace`, `SendFates`, `RateLimiterSupply`, `WorkerTrace`, `ResumeTrace`,
  `TokenCacheTrace`, `TrackerVerdicts`).

The components:

- **Sequence tracker.** A packed bit window with forced slides, shown to agree with an unbounded
  tracker, with every sequence number accounted for as accepted, lost or duplicate. A number at
  or below the anchor is a duplicate even if it was declared lost before. Each of these results
  holds of every continuation of a warm-up exactly when its 64 numbers span less than the window
  (`RefinesExactly`, `ConservesExactly`, `LossesExactly`, `AcceptsOnceExactly`). A window of fewer
  than 64 bits never meets that (`NarrowNeverFits`): with 32 bits, 65 consecutive numbers in order
  count a loss (`InOrderYetLost`).
- **CRC-32.** The table method against the bit-at-a-time definition of section 8 of RFC 1952,
  and detection of every burst of up to 32 bits.
- **Stream handles.** The queue stream (settlement and polling), the queue upstream and event
  store streams (no send is lost or settled twice), the event stream (self-healing and drain),
  and resuming an events-store subscription.
- **Rate limiter, token cache, worker accounting, rate and latency summaries, warm-up pool,
  size distribution.**

Assumptions about what lies outside: request and event ids are fresh while in use; a clock does
not go back; each server stream delivers stored events in order from its start; a stream whose
listeners were removed is silent. The queue stream's polls assume one response per Get and one
message handler at a time; what the application calls is free, and `OnePollThroughoutExactly` says
which calls keep one poll outstanding. The packed window is modelled for `windowBits` from 1 to
2^32, what the 32-bit offsets can address; the configuration takes any value. The tracker's results
that need a fitting warm-up say something only from 64 bits on.

Two flags of the self-healing streams do not mean what they seem to. The healing flag is to keep
healers apart; it does so until a recreation fails, and `StepKeepsOneHealerExactly` says when it
stops. An end of the stream is taken for a late echo while the flag is set; `EndBreaksExactly`
says when a dead stream stays marked ready. A broken stream is without a healer exactly when a
reconnect failed with none about (`TendedThroughoutExactly`). What is proved of drains, recreations
and the fates of sends holds all the same; but a send written to a stream that ended unnoticed may
wait for an answer that does not come.

Where the code and its comments disagree, the code is followed. The queue stream speaks of one
active transaction with a strict Get, settle, Get order; `StaleSettlementPollsTwice` and
`AutoAckBulkPollsTwice` are runs with two polls. The subscription speaks of resuming from the last
received sequence; it resumes one past it. The rolling rate divides by the slots closed, but sums
the open slot too.

## Objects

The classes below are the source's objects, with its fields, branches and loops; where a callback
awaits, there is one method up to the await and one for each continuation. Each callback, timer and
call is proved to take the object from a state of the model to the one the model's step gives, so
the theorems of the table hold of every sequence of them. Methods that promise this alone have no
row of their own. The methods of `PeakRate` and `SizeDistribution` are proved against the full
history and the weights instead.

- `Tracker.ProducerState`, `Tracker.Tracker`: burnin/src/tracker.ts lines 12 to 187.
- `QueueStream.QueueStreamHandle`: src/client.ts lines 937 to 1252.
- `QueueUpstream.QueueUpstreamHandle`, with `PendingSends.PendingTable`: lines 2274 to 2354.
- `EventStream.EventStreamHandle` and `SelfHeal.HealingStream`: lines 2454 to 2597;
  `EventStoreStream.EventStoreStreamHandle`: lines 2612 to 2747.
- `Resume.EventsStoreSubscription`: lines 593 to 660; `Resume.SubscriptionTracker`:
  src/internal/transport/subscription-tracker.ts.
- `RateLimiter.RateLimiter`: burnin/src/rateLimiter.ts; `TokenCache.TokenCache`:
  src/auth/token-cache.ts lines 13 to 138.
- `Worker.BaseWorker`: burnin/src/workers/base.ts lines 15 to 216. The methods for errors,
  reconnections, remote calls and downtime promise the model's step for the part they may modify.
- `PeakRate`: burnin/src/peakRate.ts; `WarmupPool.WarmupPool`: burnin/src/engine.ts lines 816 to 851;
  `SizeDistribution.SizeDistribution`: burnin/src/payload.ts lines 81 to 103.

## Model

| member | source | states |
|---|---|---|
| `TrackerReference.WindowRefinesReference` | burnin/src/tracker.ts:33-120 | on every run the packed, sliding window gives the verdicts and counters of an unbounded tracker that keeps every accepted number and a floor, provided the warm-up numbers fit the window |
| `TrackerProperties.Conservation` | burnin/src/tracker.ts:66-99 | past warm-up every number from the first to the anchor is accepted or counted lost; the marks are the accepted numbers above the anchor, none beyond the window; received is accepted plus duplicates |
| `TrackerProperties.ExactLoss` | burnin/src/tracker.ts:74-96 | a number is counted lost, once, exactly when a number at least a window above it arrived before it did |
| `TrackerProperties.NoLossExactly` | burnin/src/tracker.ts:74-96 | no losses exactly when everything a window or more below each arrival, from the first on, had arrived before it |
| `TrackerProperties.NeverAcceptedTwice` | burnin/src/tracker.ts:33-120 | a number once accepted is a duplicate ever after, accepted or lost |
| `TrackerVerdicts.DuplicateExactly` | burnin/src/tracker.ts:66-84 | past a fitting warm-up a number is a duplicate exactly when it came before, lies below the first, or was overtaken |
| `TrackerVerdicts.WarmingVerdict` | burnin/src/tracker.ts:52-64 | while warming a number is a duplicate exactly when it came before, and never out of order |
| `TrackerVerdicts.LateExactly` | burnin/src/tracker.ts:88-90 | past warm-up a number is out of order exactly when it is new and a greater one came before |
| `TrackerVerdicts.TotalsExactly` | burnin/src/tracker.ts:135-146 | over all producers the totals are the deliveries, the duplicate verdicts, the out-of-order verdicts, and the losses together |
| `TrackerWarmup.AcceptsOnceExactly` | burnin/src/tracker.ts:101-120 | no number is accepted twice in any continuation exactly when the 64 warm-up numbers span less than the window |
| `TrackerWarmup.WideWarmupForgets` | burnin/src/tracker.ts:109-114 | when they do not, the greatest warm-up number is accepted again if it comes next |
| `TrackerWide.RefinesExactly` | burnin/src/tracker.ts:101-120 | the packed window agrees with the unbounded tracker in every continuation exactly when the 64 warm-up numbers span less than the window |
| `TrackerWide.ConservesExactly` | burnin/src/tracker.ts:101-120 | sequence space is conserved in every continuation exactly then |
| `TrackerWide.LossesExactly` | burnin/src/tracker.ts:101-120 | the losses counted are the overtaken numbers in every continuation exactly then |
| `TrackerWide.MarksExactly` | burnin/src/tracker.ts:107-114 | right after warm-up the window marks what arrived above the anchor exactly then |
| `TrackerWide.FilledYetLost` | burnin/src/tracker.ts:109-114 | a wide buffer that overtook nothing, filled up in order: nothing is overtaken, and a loss is counted |
| `TrackerWide.NarrowNeverFits` | burnin/src/tracker.ts:10-64 | no warm-up buffer fits a window of fewer than 64 bits |
| `TrackerWide.InOrderYetLost` | burnin/src/tracker.ts:74-120 | with a window of 32 any 65 consecutive numbers in order, none missing, count one loss |
| `TrackerWide.FarAheadDropped` | burnin/src/tracker.ts:109-114 | with the default window of 10000, the numbers 0 to 62 and then 20000: the last is not marked, and accepted again when it comes again |
| `TrackerWarmup.AcceptedCount` | burnin/src/tracker.ts:33-120 | arrivals less duplicates are at least the different numbers accepted, and as many exactly when none was accepted twice |
| `TrackerWarmup.WarmupOrderIrrelevant` | burnin/src/tracker.ts:52-64 | the state after warm-up depends on the set of numbers and the count of arrivals, not on their order |
| `TrackerWarmup.ReportsAddUp` | burnin/src/tracker.ts:122-133 | the deltas detectGaps reported, under any interleaving with record, never exceed the confirmed losses and equal them right after a call |
| `TrackerModel.GapsExactly` | burnin/src/tracker.ts:122-133 | a producer is reported exactly when it is past warm-up and lost more than was reported, with the difference |
| `TrackerModel.ProducersIndependent` | burnin/src/tracker.ts:33-49 | each producer is in the state its own arrivals put it in |
| `TrackerModel.ContiguousUnique` | burnin/src/tracker.ts:93-96 | where the advance loop stops is determined: an unbroken run of marks, then a number without one |
| `TrackerModel.Contiguous` | burnin/src/tracker.ts:93-96 | the advance loop stops above an unbroken run of marks at the first number that is not marked |
| `PackedBits.SetBit` | burnin/src/tracker.ts:164-168 | adds exactly one bit to the set of bits, or none when the offset lies outside the array |
| `PackedBits.GetBit` | burnin/src/tracker.ts:170-174 | membership in the set of bits, false outside the array |
| `PackedBits.ShiftRight1` | burnin/src/tracker.ts:176-181 | for every array length bit k + 1 moves to bit k across word boundaries, the top bit clears, and the set bits drop by one exactly when bit 0 was set |
| `PackedBits.FillZero` | burnin/src/tracker.ts:108 | leaves no bit set |
| `PackedBits.MaskIsShift` | burnin/src/tracker.ts:164-174 | the mask of a bit, defined by doubling, is the shifted one |
| `Tracker.ProducerState.AdvanceContiguous` | burnin/src/tracker.ts:93-96 | terminates with bit 0 clear, having moved the anchor over the whole run of marks |
| `Tracker.ProducerState.SlideTo` | burnin/src/tracker.ts:152-162 | moves the anchor to the number less the window, counts each unmarked number passed as lost, keeps the marks above |
| `Tracker.ProducerState.FinalizeWarmup` | burnin/src/tracker.ts:101-120 | anchors below the least buffered number, marks the buffered ones inside the window, advances |
| `Tracker.ProducerState.RecordWarmup` | burnin/src/tracker.ts:52-64 | buffers a new number, counts a repeated one as a duplicate, ends warm-up at the 64th |
| `Tracker.ProducerState.RecordActive` | burnin/src/tracker.ts:66-98 | duplicate at or below the anchor or when marked, else slide and accept |
| `Tracker.ProducerState.Accept` | burnin/src/tracker.ts:86-98 | marks, judges lateness against the last seen number, advances |
| `Tracker.ProducerState.Record` | burnin/src/tracker.ts:51-98 | the whole of record for one producer |
| `Tracker.Detect` | burnin/src/tracker.ts:124-131 | the delta since the last report, nothing while warming |
| `Tracker.Tracker.Record` | burnin/src/tracker.ts:33-99 | changes one producer as record does and no other, creating it first when unknown |
| `Tracker.Tracker.DetectGaps` | burnin/src/tracker.ts:122-133 | reports every positive delta and marks it reported, for every producer |
| `Tracker.Tracker.Total` | burnin/src/tracker.ts:135-146 | the sum of a counter over all producers |
| `Tracker.Tracker.Reset` | burnin/src/tracker.ts:148-150 | no producer is left |
| `Crc.Crc32` | burnin/src/payload.ts:14-18 | the table method equals the bit-at-a-time CRC-32 of section 8 of RFC 1952 for every byte sequence |
| `Crc.BuildTable` | burnin/src/payload.ts:6-12 | every table entry is its byte shifted eight times through the polynomial |
| `Crc.ShiftByTable` | burnin/src/payload.ts:16 | eight shifts of any register are one table look-up and a shift by a byte |
| `Crc.TableStep` | burnin/src/payload.ts:16 | one table step equals eight message bits |
| `Crc.FeedPending` | burnin/src/payload.ts:14-18 | feeding bits one at a time equals shifting a register that already holds them |
| `CrcDetection.BurstDetected` | burnin/src/payload.ts:14-18 | two messages of one length that differ only within 32 consecutive bits have different checksums |
| `CrcDetection.ByteBurstDetected` | burnin/src/payload.ts:14-18 | the same for a difference within 4 consecutive bytes |
| `CrcDetection.BurstOf33Missed` | burnin/src/payload.ts:14-18 | 32 is the limit: two different messages of 40 bits that agree from bit 33 on and share a checksum |
| `CrcDetection.SyndromeDecides` | burnin/src/payload.ts:14-18 | checksums agree exactly when the difference of the messages drives an empty register to zero |
| `CrcDetection.CheckValue` | burnin/src/payload.ts:14-18 | the checksum of the nine bytes of "123456789" is 0xCBF43926 |
| `CrcDetection.ZeroingWord` | burnin/src/payload.ts:14-18 | up to 32 bits lead to zero only from the one register that spells them |
| `CrcHex.Hex8Exact` | burnin/src/payload.ts:20-22 | the text is eight lower-case hexadecimal digits that read as the checksum, and two checksums share a text exactly when they are equal |
| `CrcHex.Crc32Hex` | burnin/src/payload.ts:20-22 | the eight-digit text of the checksum |
| `CrcHex.VerifyCrc` | burnin/src/payload.ts:24-26 | accepts exactly the text of the checksum of the body |
| `CrcHex.VerifyRejectsBurst` | burnin/src/payload.ts:24-26 | the text of a message never verifies a body damaged within 32 consecutive bits |
| `QueueStreamProperties.SettlementSafety` | src/client.ts:1025-1112 | over every run each message writes at most one settlement frame, exactly one when settled, citing its own batch; settledCount is the number of settled messages; a batch re-polls at most once by settling |
| `QueueStreamTrace.SettlementRequestsExactly` | src/client.ts:1059-1110 | over every run the wire carries for each message one request, of the kind of the first call made on it while the handle was active with manual settlement, citing its own batch's transaction, and no other |
| `QueueStreamTrace.BulkRequestsExactly` | src/client.ts:1187-1214 | every bulk call on an active handle writes its own request once, citing the transaction in force; nothing else does |
| `QueueStreamTrace.RunInForce` | src/client.ts:1015-1037 | the transaction in force is that of the last delivery until a closing bulk call, a reconnect, a close, or a batch completed message by message with no bulk call since |
| `QueueStreamTrace.CloseRequestOnce` | src/client.ts:1235-1250 | close writes one request, when it first finds the handle active |
| `QueueStreamTrace.GetsAreOnWire` | src/client.ts:976-987 | the Gets counted are Gets on the wire that wait for an answer |
| `QueueStreamTrace.PollNeverLost` | src/client.ts:976-1129 | while a disciplined handle is active exactly one poll is outstanding; only an error in answer to a Get loses it, for good |
| `QueueStreamTrace.RePollsArm` | src/client.ts:1030-1039 | a settlement arms a timer exactly when it completes its batch with no bulk call since the last delivery |
| `QueueStreamProperties.OnePollThroughoutExactly` | src/client.ts:976-1214 | over whole runs, with one response per Get and one handler at a time: the Gets in flight, the re-poll timers, the poll an autoAck handler owes and all open batches are together never more than one, exactly when every step meets its guard |
| `QueueStreamProperties.StepKeepsPollExactly` | src/client.ts:976-1214 | the same of one step |
| `QueueStreamProperties.PollDiscipline` | src/client.ts:976-1129 | a discipline that meets every guard: no reconnect, no reQueueRange, settlements in the latest batch only, bulk calls only while it is open; then every batch before the latest is fully settled or was closed in bulk |
| `QueueStreamProperties.BulkKeepsOnePollExactly` | src/client.ts:1187-1207 | ackAll, ackRange and reQueueAll keep one poll exactly when none is in flight, timed or owed by a running handler |
| `QueueStreamProperties.ReQueueRangeKeepsOnePollExactly` | src/client.ts:1211-1214 | reQueueRange keeps one poll exactly when nothing is in flight, timed, owed or open |
| `QueueStreamProperties.SettlingKeepsOnePollExactly` | src/client.ts:1030-1039 | settling one message keeps one poll exactly when it has no effect, completes no earlier batch, comes after a bulk call on the latest, or nothing is outstanding |
| `QueueStreamProperties.ReconnectKeepsOnePollExactly` | src/client.ts:1156-1168 | a reconnect keeps one poll exactly when none is timed or owed and the latest batch is closed |
| `QueueStreamProperties.StaleSettlementPollsTwice` | src/client.ts:1030-1039 | a run that polls twice: ackAll, the next delivery, then a settlement in the first batch |
| `QueueStreamProperties.AutoAckBulkPollsTwice` | src/client.ts:1119-1122 | another: in autoAck mode, ackAll in the handler polls, and so does the handler's return |
| `QueueUpstream.SendsConservedExactly` | src/client.ts:2290-2352 | at all times every accepted send is in exactly one of waiting, resolved and rejected, exactly when no send reuses the id of one still waiting; an inactive handle then has nothing waiting |
| `QueueUpstream.FatesExactly` | src/client.ts:2290-2352 | over every run with fresh ids a send is resolved exactly when the first event to end its wait is a response to its id without error, rejected exactly when that is one with an error, an error or end of the stream, a reconnect, or close |
| `EventStoreStream.SendsConservedExactly` | src/client.ts:2625-2745 | the same through errors, ends, reconnects, healers and close, with nothing waiting while the stream is not ready |
| `EventStoreStream.FatesExactly` | src/client.ts:2684-2745 | the same: resolved on a result that was sent, rejected on one that was not, an error or end that breaks the stream, a reconnect, or close |
| `EventStoreStream.RecreationsBounded` | src/client.ts:2635-2717 | recreations never exceed breaks |
| `EventStoreStream.HealsAlone` | src/client.ts:2625-2718 | sends and results do not disturb healing: the healing theorems hold of the handle |
| `PendingSends.AcceptConservesExactly` | src/client.ts:2340-2343 | accepting a send keeps the books exactly when its id is not waiting already; else the earlier promise is left nowhere |
| `SendFates.FatesShown` | src/client.ts:2290-2344 | a table of waiting sends shows the fate that the accepted ids, answers and losses give each of them |
| `PendingSends.AnswerConserves` | src/client.ts:2291-2299 | an answer moves one promise and no other |
| `PendingSends.RejectAllConserves` | src/client.ts:2300-2309 | rejecting all moves every waiting promise |
| `PendingSends.PendingTable.RejectPending` | src/client.ts:2302-2303 | every waiting promise is rejected once and none is left |
| `QueueUpstream.QueueUpstreamHandle.Send` | src/client.ts:2336-2344 | rejected at once exactly when the handle is closed, with nothing changed; else waiting under the request id with a promise of its own |
| `EventStoreStream.EventStoreStreamHandle.Send` | src/client.ts:2724-2734 | rejected at once as closed or as reconnecting, exactly then, with nothing changed; else waiting |
| `EventStream.SelfHealAndDrain` | src/client.ts:2467-2585 | over every run with any number of healers: a stream that is not ready has an empty drain queue, a non-empty drain queue has a listener on the current stream, each held-back send is in exactly one place, recreations never exceed breaks |
| `EventStream.StepKeepsDrain` | src/client.ts:2467-2585 | every callback, timer and call keeps the drain queue served |
| `EventStream.FatesExactly` | src/client.ts:2467-2586 | over every run a held-back send is resolved exactly when a drain comes before its stream is lost, and rejected exactly when the stream is lost first |
| `EventStream.ClosedSettlesExactly` | src/client.ts:2590-2595 | after close, with no error handler running, what is held back is never rejected, and is resolved exactly when the old stream still drains |
| `EventStream.HealsAlone` | src/client.ts:2467-2557 | sends and drains do not disturb healing: the healing theorems hold of the handle |
| `SelfHeal.StepBalanced` | src/client.ts:2489-2557 | breaks equal recreations, plus one while the stream is broken |
| `SelfHeal.HealersSpareReadyStreams` | src/client.ts:2506-2513 | a healer replaces only a broken stream, and a stream becomes broken or ready only through breakStream and recreateStream |
| `SelfHealProperties.StepKeepsOneHealerExactly` | src/client.ts:2487-2525 | the healing flag holds exactly while one healer runs: a step keeps that exactly when it is not the end of a failed healer's retry wait, or no healer runs then and the handle is closed or the transport and the stream are ready |
| `SelfHealProperties.OneHealerThroughoutExactly` | src/client.ts:2487-2525 | the same of whole runs: one healer at every moment exactly when every step keeps the flag |
| `SelfHealProperties.OneHealerUntilFailure` | src/client.ts:2487-2525 | in every run without a failing recreation at most one healer runs, the flag tells, and none waits to retry |
| `SelfHealProperties.TendedThroughoutExactly` | src/client.ts:2487-2557 | over whole runs the broken stream of an active handle has a healer at every moment, exactly when no reconnect fails with no healer about |
| `SelfHealProperties.StepTendedExactly` | src/client.ts:2487-2557 | the same of one step |
| `SelfHealProperties.HealerHeals` | src/client.ts:2501-2521 | a healer that finds the transport ready goes on to its last wait, after which the stream is ready again unless creating it throws |
| `SelfHealProperties.HealersWaitForTransport` | src/client.ts:2501-2504 | a healer goes on to its last wait only when the transport is ready, and polls on else |
| `SelfHealProperties.BreaksExactly` | src/client.ts:2532-2556 | a stream breaks exactly at the end of an error handler that began while active, an end that is noticed, or a reconnect |
| `SelfHealProperties.TwoHealersAfterFailure` | src/client.ts:2514-2524 | a run with two healers: a failed recreation, a retry with the transport down, one more error |
| `SelfHealProperties.EndBreaksExactly` | src/client.ts:2539-2544 | the end of an active handle's stream leaves it marked ready exactly when the stream is ready and the healing flag is set |
| `SelfHealProperties.UnnoticedEnd` | src/client.ts:2539-2557 | a run that gets there: an error, a reconnect while the healer polls, the end of the new stream; the healer then stops and the ended stream stays marked ready |
| `SelfHealProperties.StepEndNoticedExactly` | src/client.ts:2539-2557 | only a reconnect that succeeds while the flag is set leads to where an end goes unnoticed |
| `SelfHealProperties.EndsNoticedThroughoutExactly` | src/client.ts:2487-2557 | over whole runs an end would be noticed at every moment exactly when no reconnect succeeds while the flag is set, failing recreations or not |
| `SelfHealProperties.EndsNoticedWithoutReconnect` | src/client.ts:2487-2557 | so every run without a reconnect notices every end |
| `EventStream.EventStreamHandle.Send` | src/client.ts:2576-2586 | resolved at once when closed or accepted by the stream, rejected at once exactly while the stream of an active handle is not ready, else held back last in the drain queue |
| `ResumeModel.ResumeExact` | src/client.ts:595-652 | whatever is stored, delivered, reconnected and cancelled, the dispatched sequences are one unbroken stretch of the stored ones |
| `ResumeTrace.DispatchedExactly` | src/client.ts:595-652 | over every run what was delivered on the stream opened last, until cancel, was dispatched in that order, and nothing else; the tracker remembers its last |
| `ResumeTrace.DispatchedFromStart` | src/client.ts:595-652 | until cancel the dispatched sequences are the whole stored stretch from the server's choice to where the current stream is |
| `ResumeTrace.AllDispatched` | src/client.ts:595-652 | once the current stream has delivered what is stored, everything stored from the server's choice on was dispatched, and nothing else |
| `ResumeModel.CaughtUp` | src/client.ts:595-652 | once the current stream has delivered what is stored, nothing stored after the first dispatched event is missing |
| `ResumeModel.ReconnectInv` | src/client.ts:597-604 | a stream started after the last sequence takes up exactly where the one before it stopped |
| `Resume.EventsStoreSubscription.CreateAndAttachStream` | src/client.ts:595-634 | starts one past the last sequence, or where the subscriber asked |
| `Resume.SubscriptionTracker.UpdateSequence` | src/internal/transport/subscription-tracker.ts:27-32 | changes the entry of an events-store subscription only |
| `RateLimiterProperties.TokenBucketBound` | burnin/src/rateLimiter.ts:24-70 | over any run with a clock that never goes back, grants between two moments are at most the bucket plus the rate over the time between; tokens stay in range; a non-empty queue has a timer |
| `RateLimiterSupply.GrantsFromBelow` | burnin/src/rateLimiter.ts:24-70 | if someone waits at every moment of a stretch that ends with a tick and the bucket is never full, the grants exceed the tokens at its start plus the rate over its time, less one |
| `RateLimiterSupply.NothingWasted` | burnin/src/rateLimiter.ts:24-70 | meanwhile tokens and grants together grow by the rate over the time, exactly |
| `RateLimiterSupply.WaitBalance` | burnin/src/rateLimiter.ts:24-47 | a call is granted exactly when the tokens left plus the rate over the time since, capped, make a whole one, which it takes; else it waits |
| `RateLimiterSupply.TickBalance` | burnin/src/rateLimiter.ts:51-62 | tokens after a tick plus its grants are those tokens; the first waiters are granted until tokens or waiters run out |
| `RateLimiterSupply.OpenedBurst` | burnin/src/rateLimiter.ts:17-32 | as many first calls as the bucket holds are granted at once |
| `RateLimiterSupply.UnlimitedGranted` | burnin/src/rateLimiter.ts:26 | without a rate every call is granted at once |
| `RateLimiterSupply.AbortExactly` | burnin/src/rateLimiter.ts:25-41 | an abort takes its waiter out of the queue and changes nothing else; a refused call changes nothing |
| `RateLimiterProperties.QueueServedInOrder` | burnin/src/rateLimiter.ts:33-62 | those granted from the queue, then those in it, are those ever queued in their order, less the aborted |
| `RateLimiterProperties.CallOrderThroughoutExactly` | burnin/src/rateLimiter.ts:24-62 | over whole runs grants follow the order of the calls at every moment, the aborted left out, exactly when no call finds a token while others are queued |
| `RateLimiterProperties.StepCallOrderExactly` | burnin/src/rateLimiter.ts:24-62 | the same of one step |
| `RateLimiterProperties.NewcomerOvertakesExactly` | burnin/src/rateLimiter.ts:24-46 | a newcomer is granted before those queued exactly when its own refill finds a token |
| `RateLimiterProperties.NewcomerOvertakes` | burnin/src/rateLimiter.ts:24-46 | a run in which that happens |
| `RateLimiterProperties.StepFacts` | burnin/src/rateLimiter.ts:24-70 | no step grants more than the tokens it uses up |
| `RateLimiterProperties.DrainFacts` | burnin/src/rateLimiter.ts:53-57 | the drain loop turns tokens into grants one for one, from the front |
| `RateLimiter.RateLimiter.Wait` | burnin/src/rateLimiter.ts:24-47 | refused, granted or queued, and the new state |
| `RateLimiter.RateLimiter.OnTick` | burnin/src/rateLimiter.ts:49-63 | refills, drains the queue, and stops the timer when it is empty |
| `WorkerProperties.DeliveriesAccounted` | burnin/src/workers/base.ts:105-150 | from any reset, over every run: deliveries are corrupted plus tracker duplicates plus received, corrupted are exactly those failing their sample, the consumer counts add up to received, latency samples never exceed received |
| `WorkerTrace.CorruptedExactly` | burnin/src/workers/base.ts:112-118 | over every run corrupted is the number of positions 100, 200 and so on since the last reset whose delivery carries another tag than the text of its body's checksum |
| `WorkerTrace.IntactAllPass` | burnin/src/workers/base.ts:112-120 | a run whose deliveries all carry their own checksum counts none corrupted and shows them all to the tracker |
| `WorkerTrace.NewOnesCounted` | burnin/src/workers/base.ts:134-135 | received is the number of new messages since the last reset, and each consumer's count that of its own |
| `WorkerTrace.LatenciesExactly` | burnin/src/workers/base.ts:139-144 | the latency samples are the times from send to receipt of the new messages whose send time is known |
| `WorkerTrace.SendTimesExactly` | burnin/src/workers/base.ts:97-99 | the stored send time of a message is that of its last recorded send, until it is received as new or purged |
| `WorkerTrace.SharesExactly` | burnin/src/workers/base.ts:145-147 | the pattern's accumulator gets every sample from its hand-over on, and no other of this worker |
| `WorkerTrace.CountersExactly` | burnin/src/workers/base.ts:97-175 | every counter is the number of its events since the last reset |
| `WorkerTrace.PutDownExactly` | burnin/src/workers/base.ts:122-131 | the duplicates put down to a reconnection are the first 100 since the last one |
| `WorkerTrace.RatesExactly` | burnin/src/workers/base.ts:97-102 | both rate trackers see each slot's own sends, and every remote call is timed |
| `WorkerProperties.TrackerSeesPassed` | burnin/src/workers/base.ts:112-120 | the tracker holds exactly what the deliveries that pass the sample put there, so the tracker results above hold of a worker |
| `WorkerProperties.ReceivedIsAcceptedExactly` | burnin/src/workers/base.ts:120-134 | received is never less than the different sequence numbers accepted, over all producers, and equal exactly when no producer's tracker accepted a number twice |
| `WorkerProperties.ReceivedIsAccepted` | burnin/src/workers/base.ts:120-134 | in particular when every producer's warm-up fits the window |
| `WorkerProperties.SampledBurstRejected` | burnin/src/workers/base.ts:112-118 | a delivery in a sampled position whose body was damaged within 32 consecutive bits fails its sample |
| `WorkerProperties.RejectedExactly` | burnin/src/workers/base.ts:112-120 | a delivery is counted corrupted and changes nothing else exactly when it fails its sample; every other one changes the tracker |
| `WorkerProperties.OneSamplePerSend` | burnin/src/workers/base.ts:138-149 | an accepted message gives one latency sample exactly when its send time is stored, and uses it up |
| `WorkerProperties.DualWrite` | burnin/src/workers/base.ts:140-147 | once wired, and until a reset, the pattern's accumulator gets exactly the samples the worker's two accumulators get |
| `WorkerHealth.ReconnectDuplicatesBounded` | burnin/src/workers/base.ts:122-131 | over every run, resets included, at most 100 duplicates are put down to each reconnection |
| `WorkerHealth.RatesSeeEverySend` | burnin/src/workers/base.ts:97-102 | both rate trackers have seen every send since the last reset, in the same slots |
| `WorkerHealth.DowntimeIsTimeDown` | burnin/src/workers/base.ts:177-190 | downtimeSeconds is the time spent down since the last reset, also when started or stopped twice |
| `WorkerProperties.StepBalanced` | burnin/src/workers/base.ts:97-150 | every call and reset keeps the balance |
| `Worker.BaseWorker.RecordSend` | burnin/src/workers/base.ts:97-103 | counts the send, stores its time unless told not to, and records it in both rate trackers |
| `Worker.BaseWorker.RecordReceive` | burnin/src/workers/base.ts:105-150 | sample, track, count, time, in the order of the source, with the reconnect cooldown and the second write of a latency |
| `Worker.BaseWorker.LoadAndDelete` | burnin/src/timestampStore.ts:12-17 | gives the stored time and removes it |
| `Worker.BaseWorker.ResetAfterWarmup` | burnin/src/workers/base.ts:203-216 | every counter, count, producer, sample and slot is gone, and every older send time; the pattern's samples and the mark of a recent reconnection stay |
| `Worker.BaseWorker.RecordLatency` | burnin/src/workers/base.ts:140-147 | one sample to the worker's accumulator and one to the pattern's, if there is one |
| `TokenCacheModel.SingleFlightThroughoutExactly` | src/auth/token-cache.ts:25-138 | over whole runs, dispose included, the pending slot holds the one call that runs or settles and the timer slot the one live timer, at every moment, exactly when dispose comes only while no fetch is pending |
| `TokenCacheModel.SingleFlightAlways` | src/auth/token-cache.ts:25-62 | in every interleaving without dispose at most one provider call is in flight and one timer live, a live timer implies a cached token, and a resuming initiator clears its own slot |
| `TokenCacheTrace.CachedExactly` | src/auth/token-cache.ts:69-90 | over every run the cache holds the token of the last provider call answered, if it has no expiry or outlives 30 seconds, until invalidate, dispose or a refresh |
| `TokenCacheTrace.RefreshAlwaysArmed` | src/auth/token-cache.ts:79-120 | a token that expires is never held without a live refresh timer |
| `TokenCacheTrace.CallsStartExactly` | src/auth/token-cache.ts:25-62 | a provider call starts exactly when none is pending and a request finds nothing to serve or a live timer fires |
| `TokenCacheTrace.CallsEndExactly` | src/auth/token-cache.ts:51-95 | an answered call settles and its initiator frees the slot |
| `TokenCacheModel.CallsStartAlone` | src/auth/token-cache.ts:51-62 | a provider call starts only when none is running or settling |
| `TokenCacheModel.DisposeExactly` | src/auth/token-cache.ts:45-49 | after dispose the next fetch is a second call in flight exactly when one was in flight |
| `TokenCacheModel.KeptTokensOutliveMargin` | src/auth/token-cache.ts:70-81 | a fetched token stays cached exactly when it has no expiry or outlives the refresh margin |
| `TokenCacheModel.NothingServedUntilResolved` | src/auth/token-cache.ts:39-43 | after invalidate nothing is answered from the cache, over any run, until a provider call resolves |
| `TokenCacheModel.StepSingleFlightExactly` | src/auth/token-cache.ts:25-138 | every call, timer and continuation keeps single flight, dispose exactly when no fetch is pending |
| `TokenCache.TokenCache.GetToken` | src/auth/token-cache.ts:25-30 | the cached token while it lasts, else the one pending call, started if there is none |
| `TokenCache.TokenCache.LastKnownToken` | src/auth/token-cache.ts:32-37 | the cached token exactly while it is not expired |
| `PeakRate.SlidingRateTracker.Rate` | burnin/src/peakRate.ts:24-30 | the records of the last 30 slots, the open one included, over the slots closed, at most 30; 0 before the first is closed |
| `PeakRate.SlidingRateTracker.Record` | burnin/src/peakRate.ts:14-16 | one more in the open slot |
| `PeakRate.SlidingRateTracker.Advance` | burnin/src/peakRate.ts:18-22 | a new open slot; the ring still shows the last 30 |
| `PeakRate.SlidingRateTracker.Reset` | burnin/src/peakRate.ts:32-35 | an empty history, the ring position kept |
| `PeakRate.PeakRateTracker.Peak` | burnin/src/peakRate.ts:55-57 | the greatest 10-slot average at any advance since the reset |
| `PeakRate.PeakRateTracker.Advance` | burnin/src/peakRate.ts:47-53 | takes the average in before the slot closes |
| `PeakRate.PeakRateTracker.Record` | burnin/src/peakRate.ts:43-45 | one more in the open slot; the peak stands |
| `PeakRate.PeakRateTracker.Reset` | burnin/src/peakRate.ts:59-62 | no peak, an empty history |
| `PeakRate.IsPeakUnique` | burnin/src/peakRate.ts:47-57 | the peak is determined by the history |
| `Rings.ShowsTotal` | burnin/src/peakRate.ts:24-30 | the whole ring, in whatever rotation, adds up to the latest slots of the full history |
| `Rings.ShowsAdvanced` | burnin/src/peakRate.ts:18-22 | advancing drops the oldest slot and no other |
| `PeakRate.Clamped` | burnin/src/peakRate.ts:80-82 | whole microseconds from 1 to 10 seconds, rounded to the nearest |
| `PeakRate.SampledSummarises` | burnin/src/peakRate.ts:83-90 | the samples stay a sub-multiset of the inputs, as many as the inputs up to 50000 |
| `PeakRate.ReservoirExactly` | burnin/src/peakRate.ts:84-90 | with 50000 samples the new one takes the place the draw falls on among as many places as there are inputs, and is dropped when that is beyond the samples |
| `PeakRate.AllKept` | burnin/src/peakRate.ts:84-90 | the samples are all the inputs exactly up to 50000 of them |
| `PeakRate.LatencyAccumulator.Record` | burnin/src/peakRate.ts:79-92 | appends while there is room, then replaces the sample drawn or none |
| `PeakRate.LatencyAccumulator.PercentileMs` | burnin/src/peakRate.ts:95-103 | the nearest-rank percentile of the samples, the extremes outside (0, 100], 0 without samples; sorting keeps the samples |
| `Percentiles.IndexIsNearestRank` | burnin/src/peakRate.ts:101-102 | the computed index holds the least sample that at least p percent of the samples do not exceed |
| `Percentiles.NearestRankUnique` | burnin/src/peakRate.ts:101-102 | there is only one such sample |
| `WarmupPoolModel.SuccessExactly` | burnin/src/engine.ts:823-853 | warm-up succeeds only with every channel taken by one worker and warmed in one to three attempts, exactly when the pool has a worker or there is nothing to warm |
| `WarmupPoolModel.ErrorsAreReal` | burnin/src/engine.ts:823-853 | a reported channel was tried three times and never warmed |
| `WarmupPoolModel.OutcomesExactly` | burnin/src/engine.ts:827-839 | over every run a channel is warmed exactly when its last attempt succeeded, reported exactly when three attempts failed, and never tried again after either |
| `WarmupPoolModel.TakesExactly` | burnin/src/engine.ts:823-826 | a worker at its loop test takes the next channel exactly when there is one and no error is listed |
| `WarmupPoolModel.SizeExactly` | burnin/src/engine.ts:843-846 | as many workers as channels and the configured parallelism allow, none when that is not positive |
| `WarmupPoolModel.RunInv` | burnin/src/engine.ts:823-846 | in every interleaving a task is untaken, held by one worker, warmed or reported |
| `WarmupPool.WarmupPool.Finish` | burnin/src/engine.ts:847-851 | normal return exactly without errors |
| `SizeDistribution.DrawsPerIndex` | burnin/src/payload.ts:95-102 | with non-negative weights exactly weights[i] of the draws from 1 to the total select index i |
| `SizeDistribution.DrawUniform` | burnin/src/payload.ts:96 | each draw from 1 to the total has its own stretch of the random numbers, all of the same length |
| `SizeDistribution.SelectsStretch` | burnin/src/payload.ts:95-102 | they are the stretch of draws that weights[i] adds |
| `SizeDistribution.DrawSelects` | burnin/src/payload.ts:95-102 | every draw up to the total selects an index |
| `SizeDistribution.OneIndexPerDraw` | burnin/src/payload.ts:95-102 | every draw up to the total selects one index and no other |
| `SizeDistribution.SelectsOnce` | burnin/src/payload.ts:95-102 | no draw selects two indices |
| `SizeSpec.SpecReadBack` | burnin/src/payload.ts:86-92 | reading the text of a list of sizes and weights gives the list back, for every conversion of texts that reads decimal numbers |
| `SizeSpec.SpacedPairRead` | burnin/src/payload.ts:87-88 | spaces around a pair do not matter |
| `SizeDistribution.SizeDistribution.constructor` | burnin/src/payload.ts:86-93 | the pairs the text reads as, a missing or malformed part as NaN, and the total of the weights, NaN if one is |
| `SizeDistribution.SizeDistribution.SelectSize` | burnin/src/payload.ts:95-102 | the size at the selected index; the last size when the draw lies beyond the weights or a weight is NaN |

## Left out

- gRPC transport, marshalling, retry, logging, telemetry, metrics and configuration: plumbing around the state modelled here. Of the metrics only the count of duplicates put down to a reconnection is kept.
- The worker's backpressure check and message size, its abort controllers, and the client loops of the workers for each pattern.
- `consumeQueue`, and any claim that a handle makes progress: batches that arrive with no waiter are dropped, and `nackAll` does not poll again.
- `ackRange` and `nackRange` sequence lists, message bodies and `lastResponseMetadata`: passed through without effect on the state.
- Application calls made from inside error and close handlers, except that a stream's error handler may run other events before the stream is marked broken.
- `RateLimiterProperties.TokenBucketBound`: tokens, rates and times are real numbers; floating-point rounding is not modelled. The same holds for rates, averages and percentiles.
- A reorder window of 0 or less, or not an integer, which the configuration would pass on.
- The timestamp store's text key: a pair of producer and number stands for it. Timer delays and backoff have no effect on the order of events, which is arbitrary.
- The callback dispatcher behind a subscription: what is proved ends at its `dispatch`; it may still drop events when told to, and runs callbacks with its own concurrency.
- Subscription groups: the server then splits the stored events between members, against the assumption above.
- A token provider that calls back into the cache.
- Frames written by the queue stream carry a batch and a message index that the broker does not see; they only let the theorems name the message.
- Random numbers are arbitrary inputs; nothing is said about distributions beyond counting draws.
- `SizeDistribution.SizeDistribution.constructor`: the conversion of a text to a number is a parameter; its values are integers or NaN, not fractions.
- JSON encoding and padding of payloads, and the rest of the burn-in engine.
