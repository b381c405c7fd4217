# Krampus: verified models of the stateful protocols

Krampus is a chat backend. This project models the parts of it whose correctness depends on
whole runs: protocols over tables, maps, channels and clocks, where calls interleave, processes
die between two statements, and messages are delivered more than once.

Every component has the same shape. A value type holds the state, and functions on it say what
one statement or one call does. A class has the fields the Go code updates, and its methods are
proved to do exactly what those functions say. Lemmas about the functions then state what holds
after any sequence of steps. SQL statements are atomic steps on maps and sequences. Time is an
integer number of nanoseconds that never goes backwards. Failures (of the database, the broker,
a connection, a commit) and random draws are parameters. Where a theorem needs some of them not to
happen, its statement says so, and so does its row below; what no model has is under Left out.

| file | what it is about |
|---|---|
| `SearchProjection.dfy` | how an event changes the search table, and why redelivery is harmless |
| `EventLog.dfy` | polling consumer, checkpoints, dead letters, replay, rebuild |
| `LiveRebuild.dfy` | a rebuild beside a live consumer and a growing log |
| `MessageWrite.dfy` | the write path of a message under any interleaving |
| `Outbox.dfy` | the outbox table and the worker that drains it |
| `MessageDelivery.dfy` | the write path and the outbox worker together |
| `RetryQueue.dfy` | retry rows, backoff, dead letters |
| `Registry.dfy` | the two connection indexes, fan-out, delivery of a job |
| `RegistryLocks.dfy` | the same indexes, one lock region at a time |
| `RateLimiter.dfy`, `SpamProtector.dfy`, `TwoFactor.dfy` | the three limiters over time |
| `RateLimiterLocks.dfy` | the rate limiter, one lock region at a time |
| `Leases.dfy` | partition leases shared by any number of nodes |
| `Uploads.dfy` | chunked uploads: missing chunks, merging, finishing |
| `FilterQuery.dfy` | message filters as SQL text, and what that text selects |
| `RoomCache.dfy` | rooms behind a cache with background fills |
| `Wrappers.dfy` | Option and the time units |

`dafny verify dfyconfig.toml` checks everything.

## What the proofs found in the code

Each of these is a lemma below. Where it names a condition with "exactly" or "if and only if",
both directions are proved.

- A batch of the consumer that holds only malformed `message_created` events never moves the
  checkpoint, so a full batch of them blocks the consumer for good (`DrainsIff`, `StuckForever`).
- A replay whose reading of a batch ends before the first row, for whatever reason, takes this for
  the end of the log and reports success (`ReplayedIff`, `RebuildCutShort`).
- A rebuild stops at the first malformed event, on a table it has truncated, so it gets through a log
  if and only if no event of it is malformed (`GetsThroughIff`). Beside a live consumer it is sure to
  get through and to end in the right table exactly if, besides that, the creates of each message that
  no delete follows agree on room and user (`SureIff`). One that stops leaves the right table for sure
  exactly if what lies behind it changes nothing and these creates agree (`SureStoppedIff`).
- A message whose sender died between saving it and writing its outbox event never gets the
  event (`EventPossibleIffOwned`).
- One hundred outbox events that always fail starve everything that is newer (`PublishedIff`).
- A retry row does not store the connection id, and a job read back carries the empty one, so a
  retried delivery finds no connection and goes to the dead letters (`RetriesOnlyDeadLetter`).
- A registration that comes between the moment an unregistration empties an index entry and the
  moment it drops the key is lost from that index (`StepKeepsIff`, `LateDrop`).
- The limits on e-mail codes hold for users whose calls do not overlap. Calls that overlap have no
  bound: any number of checks may fail and leave the counter at 1, or all be right and all get
  tokens, and any number of sends may be let through (`OverlappingChecks`, `OverlappingSends`).
  What goes past the limits is accounted for: for one code exactly (`ThreeOnCodeIff`), for a span of
  ten minutes by a bound (`FailuresBound`), and further tokens come exactly from reads that precede
  earlier ones (`FurtherTokensIff`).
- A check of the rate limiter that stalls for ten minutes between taking its bucket and asking it can
  make an eviction show; one that takes less than nine minutes and 57 seconds cannot
  (`StalledChecksShow`, `EvictionUnobservable`).
- A reading of chunk rows that breaks off goes unnoticed: the missing list then holds indices that are
  stored, and a session may be finished on its first chunks, but only if no more were expected
  (`MissingIsComplement`, `FinalizeIff`).
- With the reaction filter set, the database refuses the query (`SelectsIff`).
- Counting chunk rows agrees with the list of missing chunks exactly when no row lies outside the
  file (`CountTestIff`).
- `UpdateRoom` for a room that is not stored succeeds and caches a phantom, which stays until the
  entry is written or dropped (`UpdateOfMissingRoom`).

## Where the documentation and the code differ

The models follow the code.

- `docs/EventSourcing.md:91` says leases are taken with `FOR UPDATE SKIP LOCKED`; the code
  inserts and does nothing on conflict. The lease table is not in `sql/schema/init.sql`.
- `docs/EventSourcing.md:56,87` names the tables `domain_events` and `event_checkpoints`; the
  code uses `events` and `projection_checkpoints`.
- `docs/EventSourcing.md:95` says a rebuild starts from a snapshot; it truncates and replays
  from sequence 0.
- `docs/EventSourcing.md:113` says event processing is deduplicated by an idempotency key; the
  consumer uses none. Redelivery is harmless for another reason (`PrefixesAbsorbed`).
- `docs/MessageFlow.md:26` says the outbox row is written in the same transaction as the
  message; they are separate statements on separate connections.
- `docs/MessageFlow.md:60` says failed deliveries are retried with exponential back-off; see
  `RetriesOnlyDeadLetter`.
- `docs/MessageFlow.md:83` says the rate limiter uses Redis; it is a map in memory.
- `internal/search/service/consumer.go:27-39`, the search projection that is wired in, handles
  only `message_created`. The model follows `MessageProjection`, which also deletes.

## Model

| member | source | states |
|---|---|---|
| SearchProjection.Indexer.IndexMessage | internal/search/service/indexer.go:21-65 | upsert: a first insert takes room, user and content; a repeated one changes the content only; a refused write changes nothing |
| SearchProjection.Indexer.DeleteMessage | internal/search/service/indexer.go:67-84 | the row of this id is gone, every other row stays |
| SearchProjection.Indexer.Handle | internal/search/service/message_projection.go:27-41 | which events fail (undecodable payload, or a refused write for the two known types) and what the table is then; other event types succeed untouched |
| SearchProjection.FoldMalformed | internal/search/service/message_projection.go:27-41 | events that cannot be decoded leave the table alone, however many |
| SearchProjection.FoldIsPointwise | internal/search/service/indexer.go:29-84 | the table after a block, seen at one message id, depends only on that id's row before: the reference the redelivery proof works with |
| SearchProjection.RowSurvives | internal/search/service/indexer.go:29-65 | over a block without a delete an existing row keeps its first room and user and ends with the last content |
| SearchProjection.DeleteForgets | internal/search/service/indexer.go:67-84 | a block with a delete gives the same row whatever was there before |
| SearchProjection.BlockTwice | internal/search/service/indexer.go:29-84 | delivering a whole block twice, from any table, is delivering it once |
| SearchProjection.PrefixesAbsorbed | internal/search/service/indexer.go:29-84 | any number of broken-off deliveries of a block followed by the whole block leave what the block alone leaves |
| SearchProjection.EventDoes | internal/search/service/message_projection.go:27-41 | what one event does to any message's row: its own content in the first room, gone, or nothing |
| SearchProjection.FailsIff | internal/search/service/message_projection.go:27-41 | a dispatch fails if and only if it is a message_created that cannot be decoded, or the database refuses a write that it needs |
| EventLog.PendingIsSuffix | internal/events/service/consumer.go:64-71 | on a log in sequence order, what the query offers is exactly the part behind the events the checkpoint covers |
| EventLog.BatchIsSlice | internal/events/service/consumer.go:64-73 | a batch is a contiguous slice of the log from the checkpoint on; a short batch reaches the end |
| EventLog.Consumer.Process | internal/events/service/consumer.go:53-130 | a tick is the state function Tick: rows handled in order, failures to the dead letters, the checkpoint set to the last row that succeeded, and only if the commit succeeds, while the rows handled stay handled |
| EventLog.TickPositions | internal/events/service/consumer.go:80-121 | in log positions: a tick handles rows p to p+n, and committing covers exactly the rows up to the last success; all rows of the batch behind that failed |
| EventLog.CheckpointSafety | internal/events/service/consumer.go:80-130 | in every reachable state each event at or below the checkpoint was dispatched without error or is in the dead letters (dead-letter inserts succeeding) |
| EventLog.CheckpointWithinLog | internal/events/service/consumer.go:108-121 | in every reachable state the checkpoint is 0 or the sequence of an event in the log |
| EventLog.CheckpointMonotone | internal/events/service/consumer.go:105-121 | no step, however it fails, moves the checkpoint back |
| EventLog.RedeliveryRejoins | internal/events/service/consumer.go:82-106 | redelivering any stretch from the checkpoint keeps the table one redelivery away from the true one |
| EventLog.CommitRejoins | internal/events/service/consumer.go:105-121 | moving the checkpoint keeps that too, when the rows it skips changed nothing |
| EventLog.RunConverges | internal/events/service/consumer.go:53-122 | the inductive invariant of all runs of appends, ticks, crashes and lost commits |
| EventLog.ConsumerConverges | internal/events/service/consumer.go:53-122 | at-least-once gives the exactly-once table: after any such run, a consumer that has caught up holds the fold of the whole log |
| EventLog.DrainsIff | internal/events/service/consumer.go:100-108 | polling catches up if and only if no full batch of consecutive malformed events stands before a good one |
| EventLog.StuckForever | internal/events/service/consumer.go:100-108 | once the next full batch is malformed, no run, with any faults, moves the checkpoint again |
| EventLog.Dispatched | internal/events/service/projector.go:17-24 | the length of the longest prefix that succeeds: every event before it does, the one at it does not |
| EventLog.DispatchedIs | internal/events/service/projector.go:17-24 | that property determines the number |
| EventLog.ReplayEngine.Replay | internal/events/service/replay.go:19-72 | for all outcomes of its queries, readings and dispatches it terminates, dispatches a prefix of the events behind the start, each once and in order, and reports what Replayed says; the result is one unbatched fold of that prefix |
| EventLog.ReplayedIff | internal/events/service/replay.go:30-71 | it reports an error if and only if a query, a scan or a dispatch fails, and it reports success with events left over if and only if some reading ends before its first row while events remain |
| EventLog.RebuildCutShort | internal/events/service/replay.go:37-68 | the input that shows it: a first reading without a row, on a log with events |
| EventLog.ReplayedSucceeds | internal/events/service/replay.go:56-61 | everything counted as dispatched succeeded, at the moment it was dispatched |
| EventLog.CleanReplay | internal/events/service/replay.go:19-72 | with a database that works and any batch size of at least 1, the replay succeeds if and only if no event is malformed, and then it has dispatched everything |
| EventLog.PendingIsExactlyTheLaterEvents | internal/events/service/replay.go:21-30 | those events are exactly the events of the log with a larger sequence, in increasing order |
| EventLog.PendingAfter | internal/events/service/replay.go:56-62 | moving the cursor to an event's sequence leaves exactly the events after it |
| EventLog.ReplayEngine.RebuildSearchProjection | internal/events/service/rebuild.go:25-43 | truncate, then from the empty table the fold of what the replay dispatches, and its verdict |
| EventLog.RebuildMatchesConsumer | internal/events/service/rebuild.go:25-43 | a rebuild that dispatches the whole log gives the table of any consumer that has caught up; success means that unless a reading was cut short; with a database that works it succeeds, in full, if and only if no event is malformed |
| EventLog.RunSplits | internal/events/service/consumer.go:82-106 | in every run, with any faults, the dead letters grow by exactly those of the rows handled, and the table is the fold of exactly the rows that were dispatched without error, step by step and in order |
| EventLog.DeadLetterPlaces | internal/events/service/consumer.go:100-106 | the dead letters of a batch are exactly its rows that fail and whose insert is stored, each once and in their order |
| EventLog.OnlyMalformedDeadLetters | internal/events/service/consumer.go:100-106 | in a run in which no dispatch write is refused every dead letter is a malformed event of the log and no malformed event is delivered; a log without one leaves no dead letter |
| LiveRebuild.RunKeeps | internal/events/service/rebuild.go:25-43 | the invariant of every interleaving of rebuild rows, its end or stop, consumer rows, commits, restarts and appends: the last event of a message that both have passed decides its content, the last of either once the consumer has passed, and rooms come from creates that stand |
| LiveRebuild.GetsThroughIff | internal/events/service/replay.go:56-58 | a rebuild can get through a log if and only if no event of it is malformed |
| LiveRebuild.ReplayGetsThroughIff | internal/events/service/replay.go:19-72 | with a database that works the replay in batches succeeds if and only if a rebuild can get through |
| LiveRebuild.EndsInFold | internal/events/service/rebuild.go:25-43 | when the rebuild got through and the consumer has nothing left, the table is the fold of the log, if standing creates of a message agree on room and user |
| LiveRebuild.StoppedLeaves | internal/events/service/replay.go:32-58 | when the rebuild has stopped behind some rows and the consumer has nothing left, each message shows what its last event left, or what the last one the rebuild reached left, in the room of a create that stands in either |
| LiveRebuild.OvertakenByConsumer | internal/search/service/indexer.go:29-65 | the interleaving in which the consumer's create comes first and its room stays |
| LiveRebuild.OvertakenByRebuild | internal/search/service/indexer.go:29-65 | the one in which a create behind which only the consumer still has a delete comes last and stays |
| LiveRebuild.SureIff | internal/events/service/rebuild.go:25-43 | beside a live consumer and with a database that works, every rebuild gets through and ends in the fold if and only if no event is malformed and standing creates agree |
| LiveRebuild.SureStoppedIff | internal/events/service/replay.go:19-72 | a rebuild that stops behind e rows, whatever stops it, always leaves the fold if and only if the fold of the e rows is the fold of the log and the creates standing in either agree; beside a consumer with nothing left to deliver it leaves the fold of the e rows |
| LiveRebuild.RestartRereads | internal/events/service/consumer.go:53-121 | a restart takes the consumer back to where it last committed, whatever lay between |
| MessageWrite.MessageService.Process | internal/message/service/messageService.go:66-151 | the result and the three tables after one call, for each point at which it can fail |
| MessageWrite.ProcessIsRun | internal/message/service/messageService.go:91-144 | one uninterrupted call is a run of the concurrent machine and leaves no call behind |
| MessageWrite.EveryRunKeeps | internal/message/service/messageService.go:91-144 | the invariant of every interleaving, including calls that stop after any statement: at most one live call owns an id, and what it has written so far is in the tables |
| MessageWrite.AtMostOnce | internal/message/storage/idempotencyRepository.go:22-65 | in every run each id has at most one message row and at most one outbox event, every event's id is in the deduplication table, every id there is a saved message, and an event says what its message's row says |
| MessageWrite.OrphanForever | internal/message/service/messageService.go:99-144 | a saved message whose call is gone without writing the event never gets one, in any continuation |
| MessageWrite.EventPossibleIffOwned | internal/message/service/messageService.go:99-144 | a saved message without an event can still get it if and only if the call that saved it is still running |
| MessageWrite.ResendIff | internal/message/service/messageService.go:91-144 | sending again after an error succeeds if and only if the first call did not stop between the message and its key; the event exists in the end if and only if the first call wrote all or nothing |
| MessageWrite.StoresGiven | internal/message/service/messageService.go:66-144 | a message with a timestamp is stored as given, under its own id; one without gets the fresh id and this moment; key and event name the stored id |
| MessageWrite.PostedTwice | internal/message/service/messageService.go:66-144 | posting a message with a timestamp again, with any fresh ids, succeeds and adds nothing; without a timestamp both are stored |
| MessageWrite.RefusedAsInvalidIff | internal/message/domain/message.go:78-94 | in terms of the message given: it is invalid if and only if an id, user or room is missing or its time is set and not in (0, now + 5 min] |
| MessageWrite.EndsOf | internal/message/service/messageService.go:66-144 | every other end of a call: its answer, and how much of the three writes it leaves |
| MessageDelivery.DrainsSavedMessages | internal/message/service/outboxWorker.go:74-110 | in every run of interleaving calls and ticks that stop anywhere, every row the worker drains is of a saved message, no two are of one message, and one is marked published only after the broker has accepted it |
| MessageDelivery.FinishedIsPublishedIff | internal/message/service/messageService.go:140-144 | a message whose call writes its last statement is published within as many full ticks as there are publishable events up to it, whatever runs meanwhile, if and only if its row can be published and fewer than 100 rows that cannot are older |
| Outbox.OutboxWorker.SaveEvent | internal/message/storage/OutboxRepo.go:27-54 | appends one unpublished row and changes nothing else |
| Outbox.OutboxWorker.GetUnpublishedEvents | internal/message/storage/OutboxRepo.go:56-116 | the unpublished rows of the query's answer, in its order, as far as the reading gets |
| Outbox.OutboxWorker.Update | internal/message/storage/OutboxRepo.go:118-156 | an update by id changes the one row with this id |
| Outbox.OutboxWorker.HandleEvent | internal/message/service/outboxWorker.go:81-108 | published only after an accepted publish; a failed decode, load or publish bumps the retry count if that update goes through; a failed mark changes nothing |
| Outbox.OutboxWorker.Process | internal/message/service/outboxWorker.go:74-110 | the table after a tick, row by row, however far the tick gets, and which publishes the broker has accepted |
| Outbox.NothingLost | internal/message/service/outboxWorker.go:74-110 | in every run, ticks stopping anywhere, no event disappears or becomes unpublished again, and one is marked published only after an accepted publish |
| Outbox.GoodIsSelected | internal/message/storage/OutboxRepo.go:63-78 | with fewer than 100 older failing events, the 100 oldest unpublished events hold the event or an older publishable one |
| Outbox.OlderAreSelected | internal/message/storage/OutboxRepo.go:63-78 | an answer that holds an event holds every older unpublished one |
| Outbox.TickProgress | internal/message/service/outboxWorker.go:74-110 | a tick that reads its whole answer strictly reduces the publishable events up to a pending one |
| Outbox.PublishedIff | internal/message/service/outboxWorker.go:74-110 | an event is published within as many full ticks as there are publishable events up to it, with newer events stored in between, if and only if it can be published and fewer than 100 failing events are older |
| Outbox.HandledDoes | internal/message/service/outboxWorker.go:74-110 | a publish that is marked is published now; each failure that is counted adds one retry; the event itself stays |
| Outbox.RetriesAreCounted | internal/message/service/outboxWorker.go:74-110 | in every run a row's retry count is the number of its failures that were counted |
| RetryQueue.DelayBounds | pkg/retry/backoff.go:9-25 | the delay of attempt a lies in [2^a s, 1.5 * (2^a + 0.999) s) for all random draws |
| RetryQueue.BackoffPositive | internal/message/service/retryWorker.go:94-96 | the bound given to the random generator is always positive |
| RetryQueue.RetryWorker.GetReadyJobs | internal/message/storage/retryStorage.go:49-73 | the rows as jobs, rows whose payload does not decode skipped, the connection id empty |
| RetryQueue.RetryWorker.Delete | internal/message/storage/retryStorage.go:75-81 | the queue without the pair's rows |
| RetryQueue.WithoutRows | internal/message/storage/retryStorage.go:75-81 | that is: every row of the pair goes and no other row |
| RetryQueue.RetryWorker.ProcessJob | internal/message/service/retryWorker.go:67-102 | one job: deleted, dead-lettered and deleted, or enqueued again in a new row at the next attempt |
| RetryQueue.RetryWorker.ProcessBatch | internal/message/service/retryWorker.go:60-103 | a batch is the jobs of the snapshot one after the other, although earlier ones delete rows of later ones |
| RetryQueue.JobConservesIff | internal/message/service/retryWorker.go:67-102 | a pair survives a job, queued or recorded, if and only if it is not given up with its dead letter unstored and its rows deleted |
| RetryQueue.BatchConserves | internal/message/service/retryWorker.go:60-103 | after a batch every pair that had a row is delivered, in the dead letters or still queued, as long as dead letters can be stored |
| RetryQueue.BatchOnPair | internal/message/service/retryWorker.go:60-103 | over a batch, a pair is recorded if and only if it was or some job records it, and unqueued if and only if some job removes its rows and no later one puts one back |
| RetryQueue.BatchLosesIff | internal/message/service/retryWorker.go:67-102 | a queued pair is lost in a batch if and only if nothing records it, some job gives it up with its dead letter unstored and its rows deleted, and no later job enqueues it again |
| RetryQueue.LostWasDropped | internal/message/service/retryWorker.go:74-91 | a pair lost in a batch was given up by some job whose dead letter was not stored |
| RetryQueue.AttemptsInRange | internal/message/adapters/WebSocketManager.go:465-522 | in every reachable state of workers, batches and broadcasts each retry row is at attempt 1 to 4 and each job in the channel at 0 |
| RetryQueue.FatalBatch | internal/message/service/retryWorker.go:74-81 | a batch whose deliveries all fail for good moves all its pairs to the dead letters |
| RetryQueue.RetryAddsRow | internal/message/service/retryWorker.go:83-101 | a retryable job below attempt 4 adds exactly one row, at the next attempt a, due within [2^a s, 1.5 (2^a + 0.999) s) from now |
| RetryQueue.DelaysAttained | internal/message/service/retryWorker.go:92-94 | both bounds are sharp: draws that meet the least and the greatest delay |
| RetryQueue.JobEnds | internal/message/service/retryWorker.go:67-91 | success, a fatal error or attempt 4 removes exactly the pair's rows and records the pair in the right place |
| RetryQueue.GivenUpIff | internal/message/service/retryWorker.go:57-102 | over any jobs, a pair whose deliveries all fail retryably is dead-lettered if and only if one of its jobs stood at attempt 4, and is queued until then |
| RetryQueue.ClimbsToDeadLetter | internal/message/service/retryWorker.go:83-102 | round after round from attempt 1: after the job at attempt n a row stands at n + 1, and after the fourth the pair is dead and unqueued |
| RetryQueue.NotGivenUpEarly | internal/message/service/retryWorker.go:83-98 | in every run of workers and batches, whatever the database refuses: without a fatal delivery all four waits must pass, so no batch of the next 30 seconds gives the pair up |
| RetryQueue.JobsAre | internal/message/storage/retryStorage.go:49-73 | the jobs of a reading are those of its rows that decode, with the row's pair and attempt |
| RetryQueue.WorkDoes | internal/message/adapters/WebSocketManager.go:481-520 | what a delivery worker leaves: delivered, put back at the next attempt in exactly 2^a s, dead from attempt 4, or lost if and only if the insert it needs is refused |
| RetryQueue.ChannelIsFifo | internal/message/adapters/WebSocketManager.go:261-281 | in every run the jobs taken out and those still waiting are the broadcast ones, in their order |
| Registry.ConnectionManager.Register | internal/message/adapters/WebSocketManager.go:136-162 | both indexes get the connection under its user and under its room |
| Registry.ConnectionManager.SubscribeToRoom | internal/message/adapters/WebSocketManager.go:607-636 | the room's map gets the connection, other rooms stay |
| Registry.ConnectionManager.Unregister | internal/message/adapters/WebSocketManager.go:164-197 | both indexes lose the connection, and a user or room map that becomes empty goes with it |
| Registry.ConnectionManager.UnsubscribeFromRoom | internal/message/adapters/WebSocketManager.go:638-658 | the room index's part of that |
| Registry.RegisterRepresents | internal/message/adapters/WebSocketManager.go:136-162 | registering adds exactly this client to the set both indexes represent |
| Registry.UnregisterRepresents | internal/message/adapters/WebSocketManager.go:164-197 | unregistering removes exactly this client from it, leaving no empty map |
| Registry.IndexesAgree | internal/message/adapters/WebSocketManager.go:136-197 | after any run of whole calls, clients having unique ids, both indexes hold exactly the plain set of registered clients and no inner map is empty |
| Registry.SharedIdAgreesIff | internal/message/adapters/WebSocketManager.go:151-159 | after two registrations the indexes agree if and only if the clients do not share an id in different rooms |
| RegistryLocks.StepKeepsIff | internal/message/adapters/WebSocketManager.go:136-197 | one lock region of any call at a time: a step keeps an index right if and only if it is not a drop of a key that somebody has added to, or is about to add to |
| RegistryLocks.UnsafeDropLoses | internal/message/adapters/WebSocketManager.go:181-189 | such a drop hides a registered client or leaves one to be added out of reach |
| RegistryLocks.IndexesAgree | internal/message/adapters/WebSocketManager.go:607-658 | after any interleaving of lock regions without such a drop both indexes find exactly the clients whose registration has reached them, and hold no empty entry when no call is under way |
| RegistryLocks.LateDrop | internal/message/adapters/WebSocketManager.go:168-190 | the interleaving of two calls that loses a registered client |
| Registry.ConnectionManager.CollectRoom | internal/message/adapters/WebSocketManager.go:237-259 | in whatever order the maps are walked, exactly the room's websocket clients, each once |
| Registry.ConnectionManager.BroadcastRealtime | internal/message/adapters/WebSocketManager.go:222-284 | one non-blocking send for each websocket client of the room and for no other |
| Registry.FanOutIsExact | internal/message/adapters/WebSocketManager.go:261-281 | with room in the channel each such client gets exactly one job, behind what was queued, and nobody else gets any |
| Registry.ConnectionManager.FindClient | internal/message/adapters/WebSocketManager.go:581-605 | the client under this user and id, or none |
| Registry.ConnectionManager.ProcessDelivery | internal/message/adapters/WebSocketManager.go:660-700 | an unknown connection is an error that is not retried; otherwise the outcome of the send |
| Registry.ConnectionManager.DeliverNext | internal/message/adapters/WebSocketManager.go:465-522 | a worker's turn on the head of the channel, and when the worker ends |
| Registry.RetriesOnlyDeadLetter | internal/message/service/retryWorker.go:67-81 | after any registrations of clients with non-empty ids, a retry batch delivers nothing: every pair it takes up ends in the dead letters |
| Registry.JobsReachClients | internal/message/adapters/WebSocketManager.go:261-281 | each job of a broadcast names the message and stands at attempt 0, its user and connection id lead to that very client, and its delivery gives what the send gives; jobs are added in turn while there is room |
| Registry.DeliveryIs | internal/message/adapters/WebSocketManager.go:660-700 | an unknown connection fails for good, a known one gives what the send gives |
| RateLimiter.RateLimiter.Check | internal/message/service/rateLimiterService.go:26-43 | the verdict of the key's bucket (a new one starts full), its new level and the time of use |
| RateLimiter.RateLimiter.Cleanup | internal/message/service/rateLimiterService.go:60-70 | exactly the keys idle for more than ten minutes are removed, whatever the order of the walk |
| RateLimiter.IdleIsFull | internal/message/service/rateLimiterService.go:45-58 | each bucket of the table has refilled long before it counts as idle |
| RateLimiter.EvictionUnobservable | internal/message/service/rateLimiterService.go:26-70 | in every run every verdict is that of a limiter that never evicts (checks that share a key sharing their limits) |
| RateLimiter.KeyInjective | internal/message/service/rateLimiterService.go:27-30 | without a colon in user ids a key determines the user and the type |
| RateLimiter.NumericIdsAgree | internal/message/service/rateLimiterService.go:27-30 | so runs of numeric user ids meet the condition of the eviction theorem |
| RateLimiter.SharedKeyShows | internal/message/service/rateLimiterService.go:27-43 | a witness that the condition is needed: with a colon in a user id, which the numeric ids never hold, an eviction can change a verdict |
| RateLimiter.AdmissionBound | internal/message/service/rateLimiterService.go:26-70 | in any interval a key is admitted at most burst + rate * length times, across evictions |
| RateLimiterLocks.StepKeepsIff | internal/message/service/rateLimiterService.go:29-70 | one lock region at a time: a step keeps the buckets alike to those of a limiter that never evicts if and only if it evicts none that has not refilled or that a check is about to ask |
| RateLimiterLocks.EvictionUnobservable | internal/message/service/rateLimiterService.go:26-70 | in every interleaving in which no check stalls for more than nine minutes and 57 seconds each verdict is that of a limiter that never evicts |
| RateLimiterLocks.StalledChecksShow | internal/message/service/rateLimiterService.go:29-43 | two checks that stall for ten minutes and a cleanup after which a third is let through that should not be |
| RateLimiterLocks.CheckInOneStep | internal/message/service/rateLimiterService.go:26-43 | when the two steps of a check follow one another, they are the one-step check of RateLimiter, in maps and verdict |
| RateLimiterLocks.SameCleanup | internal/message/service/rateLimiterService.go:60-70 | the cleanup is that of RateLimiter |
| RateLimiter.TightAt | internal/message/service/rateLimiterService.go:26-43 | at any moment there is an interval over which what was admitted and what is left add up to burst + rate * length exactly |
| RateLimiter.RefusedIff | internal/message/service/rateLimiterService.go:26-70 | a check is refused if and only if admitting it would exceed burst + rate * length over some interval that ends now: the limiter refuses nothing else |
| RateLimiter.FirstChecks | internal/message/service/rateLimiterService.go:45-58 | of the checks at one moment a new key lets through exactly the first 10, 2, 5, 3 or 50, by type |
| RateLimiter.ChecksAfterSecond | internal/message/service/rateLimiterService.go:45-58 | a second later the drained bucket holds as many again, but one only for files |
| RateLimiter.CheckDoes | internal/message/service/rateLimiterService.go:26-43 | a check asks its own key's bucket and touches no other key |
| RateLimiter.CleanupDoes | internal/message/service/rateLimiterService.go:60-70 | exactly the keys used in the last ten minutes stay, with their buckets |
| SpamProtector.SpamProtector.Allow | internal/moderation/service/spam.go:23-52 | the verdict over the pruned list and the list stored, unpruned when refused |
| SpamProtector.StoredIsEnough | internal/moderation/service/spam.go:29-51 | in every run the stored list and the full history agree on what is recent now and at any later time |
| SpamProtector.PrunedListSuffices | internal/moderation/service/spam.go:29-46 | so the verdict is the one from counting every allowed message ever |
| SpamProtector.AllowedIsHistory | internal/moderation/service/spam.go:23-52 | over whole runs the code lets through exactly what the unpruned reference lets through |
| SpamProtector.WindowBound | internal/moderation/service/spam.go:23-52 | in every run every half-open minute holds at most 20 allowed messages of a user |
| SpamProtector.AllowDoes | internal/moderation/service/spam.go:23-52 | a message is allowed if and only if fewer than 20 lie in the last minute; it is then the newest of its user's, and other users' stay |
| TwoFactor.TwoFA.SelectTwoFaCodeByUserID | internal/sqlc/two_fa.sql.go:76-106 | a newest code among the user's unused and unexpired ones, or none if there is none |
| TwoFactor.TwoFA.UsersSendEmailCode | internal/auth/service/twofaService.go:49-96 | a call that runs alone, with each failure it can meet: three codes in a quarter of an hour refuse a fourth; otherwise one fresh code that lives five minutes |
| TwoFactor.TwoFA.VerifyCode | internal/auth/service/twofaService.go:98-160 | a call that runs alone, with each failure: the refusals in the code's order; a mismatch costs one attempt, a match marks the code used |
| TwoFactor.SendIsRun | internal/auth/service/twofaService.go:69-88 | such a send is a run of the statements and leaves no call behind |
| TwoFactor.VerifyIsRun | internal/auth/service/twofaService.go:104-159 | such a check is a run of the statements, and issues tokens exactly when its result says so |
| TwoFactor.RunKeeps | internal/auth/service/twofaService.go:69-144 | the invariant of every interleaving of statements, with calls stopping and updates refused: room for a code when it was counted, three attempts at most, tokens from used codes, and each failed comparison accounted for |
| TwoFactor.FurtherTokensIff | internal/sqlc/two_fa.sql.go:108-117 | the step that marks a code and issues its tokens, in any run: they are further tokens of the code if and only if others were issued since the call read the row, and the row is marked already, which the update does not test, if and only if it was marked since |
| TwoFactor.ThreeOnCodeIff | internal/sqlc/two_fa.sql.go:119-133 | in every run a code has at most three failed comparisons if and only if what refused, abandoned or overwritten updates left uncounted, and what is still to be written, fits into its remaining attempts |
| TwoFactor.ComparableBound | internal/auth/service/twofaService.go:69-85 | in every run at most three codes can be compared within ten minutes, and one more for each send that another one overtook |
| TwoFactor.FailuresBound | internal/auth/service/twofaService.go:69-144 | in every run no ten minutes hold more than nine failed comparisons of a user, plus three for each overtaken send, plus what is uncounted |
| TwoFactor.RefusalNeedsOvertaking | internal/auth/service/twofaService.go:104-112 | in every run the refusal for five recent attempts means that at least two sends were overtaken |
| TwoFactor.NineFailuresAtMost | internal/auth/service/twofaService.go:69-144 | in every run in which the user's calls do not overlap, and leave no comparison uncounted, no ten minutes hold more than nine failed comparisons |
| TwoFactor.TokensOnce | internal/auth/service/twofaService.go:127-159 | in every such run each of the user's codes yields tokens at most once |
| TwoFactor.RecentAttemptsNeverReached | internal/auth/service/twofaService.go:104-112 | in every such run the count behind the refusal for five recent attempts is at most three, and the refusal is never given |
| TwoFactor.OverlappingChecks | internal/auth/service/twofaService.go:114-144 | for every n, n overlapping checks that all fail on one code and leave its counter at 1, or are all right and all get tokens |
| TwoFactor.RefusedUpdates | internal/auth/service/twofaService.go:131-135 | for every n, n checks one after the other that all fail with the counter left at 0, their updates being refused |
| TwoFactor.OverlappingSends | internal/auth/service/twofaService.go:69-85 | for every n, n overlapping sends that are all let through |
| TwoFactor.OverlappingSendsAreRefused | internal/auth/service/twofaService.go:104-112 | five overlapping sends with a wrong guess each do reach the refusal for recent attempts |
| TwoFactor.SentCodeVerifiesIff | internal/auth/service/twofaService.go:49-159 | after any run in which the user's calls do not overlap: a code that lives, is unused and has had fewer than three failed comparisons may get its tokens if and only if no live code is newer, and surely gets them if and only if it is the only newest; no other code does |
| TwoFactor.UsedNeverPicked | internal/sqlc/two_fa.sql.go:76-117 | once a code is used it stays so in every continuation, and no later query finds it |
| TwoFactor.SendDoes | internal/auth/service/twofaService.go:69-88 | a send is refused if and only if three codes are from the last quarter of an hour, as a set of rows; else exactly one fresh row, good for five minutes |
| TwoFactor.SendFails | internal/auth/service/twofaService.go:69-88 | which failures are reported, and that a failing e-mail leaves the code stored |
| TwoFactor.VerifyDoes | internal/auth/service/twofaService.go:114-160 | the right code marks this row used and gives its user's tokens; a wrong one adds one attempt, and attempts and those reported as left make three |
| TwoFactor.VerifyRefuses | internal/auth/service/twofaService.go:98-126 | each refusal if and only if its test fails first; refusals change nothing |
| TwoFactor.VerifyFails | internal/auth/service/twofaService.go:98-160 | what each failing statement reports and leaves; tokens that cannot be made leave the code used |
| Leases.Ownership.AcquirePartition | internal/events/service/ownership.go:22-56 | succeeds if and only if the partition is free, and a lease that exists is untouched |
| Leases.Ownership.RenewLease | internal/events/service/ownership.go:58-79 | only the holder's heartbeat moves |
| Leases.Ownership.ReleasePartition | internal/events/service/ownership.go:81-102 | only the holder's lease goes |
| Leases.Ownership.ReleaseExpiredLeases | internal/events/service/failover.go:21-38 | exactly the leases more than 30 seconds old go |
| Leases.HeartbeatIsLastRefresh | internal/events/service/ownership.go:28-79 | in every run a held lease carries the time of its holder's last acquire or renewal |
| Leases.Handover | internal/events/service/failover.go:25-30 | if a partition one node held is acquired later, then in between that node released it or a sweep came more than 30 s after its last acquire or renewal |
| Leases.HandoverTime | internal/events/service/failover.go:25-30 | without a release the next acquisition comes more than 30 s after the last refresh |
| Leases.KeepsIffRenewsInTime | internal/events/service/ownership.go:28-102 | a node that does not release keeps its lease to the end of the run, whatever other nodes do, if and only if no sweep finds its last refresh older than 30 s |
| Leases.RenewsOftenKeeps | internal/events/service/ownership.go:28-79 | a node that makes its renewals at most 30 s apart up to the end of the run, which it can see by itself, never loses a lease that it does not release |
| Leases.AcquireDoes | internal/events/service/ownership.go:22-56 | a free partition goes to the caller with this moment's heartbeat; a held one, and every other, stays |
| Leases.RenewDoes | internal/events/service/ownership.go:58-79 | the holder's heartbeat becomes now; another node's call changes nothing |
| Leases.ReleaseDoes | internal/events/service/ownership.go:81-102 | the holder's release frees the partition for the next acquire; another node's changes nothing |
| Leases.ExpiryDoes | internal/events/service/failover.go:21-38 | exactly the leases with a heartbeat at most 30 s old stay, unchanged |
| Uploads.UploadService.UploadChunk | internal/files/service/service.go:43-81 | a wrong checksum, a stored index or a refused query is refused and changes nothing; otherwise one row is added |
| Uploads.UploadService.GetChunks | internal/files/service/repository.go:81-139 | the session's rows in the order of their indices, as far as the reading gets; an error only for a failed query or scan |
| Uploads.SortedMembers | internal/files/service/repository.go:100 | that order lists each of them exactly once |
| Uploads.UploadService.MissingChunks | internal/files/service/verify.go:7-57 | the list Missing of the rows that were read, in whatever order they came |
| Uploads.MissingIsComplement | internal/files/service/verify.go:45-55 | that list is the strictly increasing complement in [0, total) of the indices that were read |
| Uploads.UploadService.Finalize | internal/files/service/finalize.go:41-131 | the first error in the code's order, the transaction's and the reading's among them; the session is completed only without one, other sessions and all chunks stay |
| Uploads.FinalizeIff | internal/files/service/finalize.go:77-131 | it completes if and only if the reading brings the expected number, every object is present and the in-order concatenation of what was read has the hash; what was read are then the first so many chunks, and all of them if and only if as many were expected as are stored |
| Uploads.BothTestsIff | internal/files/service/integrity.go:11-21 | of the rows read: nothing missing and the right count together hold if and only if the indices are exactly [0, total) |
| Uploads.CountTestIff | internal/files/service/integrity.go:11-21 | with the right count, nothing is missing if and only if no index is out of range |
| Uploads.CompleteIffCount | internal/files/service/integrity.go:11-21 | with all indices in range, nothing is missing if and only if the count is right (pigeonhole) |
| Uploads.UploadsStoreParts | internal/files/service/service.go:43-81 | after any uploads in any order the rows are those that arrived with a right checksum and were not refused, and each holds its part |
| Uploads.RoundTrip | internal/files/service/finalize.go:101-108 | reading back in full and merging gives the file, whatever the order of the uploads and whatever repeats, corrupt or refused attempts and other sessions lie between |
| Uploads.UploadedInFull | internal/files/service/finalize.go:41-131 | then nothing is missing, and the session can be finished if and only if the hash is that of the file and the reading brings all of it |
| Uploads.UploadDoes | internal/files/service/service.go:43-81 | each refusal if and only if its test fails first; else the given bytes, size and checksum stand at the index and nothing else changes |
| Uploads.FinalizeRefuses | internal/files/service/finalize.go:41-131 | each error if and only if its test is the first to fail |
| FilterQuery.QueryBuilder.Add | internal/search/service/query_builder.go:18-32 | one condition and one argument are appended, together |
| FilterQuery.QueryBuilder.Build | internal/search/service/query_builder.go:34-46 | no text without conditions, else WHERE and the conditions joined with AND; the arguments in order |
| FilterQuery.BuildFilters | internal/search/service/indexer.go:168-262 | the conditions of the filters that are set, numbered from 1 whatever the builder held, and their arguments, in the code's order |
| FilterQuery.AtoiItoa | internal/search/service/utils.go:5-11 | decimal numerals read back |
| FilterQuery.PlaceholderIs | internal/search/service/indexer.go:168-262 | with the reaction filter unset the i-th condition uses placeholder i and the i-th argument is its value |
| FilterQuery.ParseJoined | internal/search/service/query_builder.go:40-45 | the text parses back, at its blanks, to the conditions it was made of, in order |
| FilterQuery.HighestIs | internal/search/service/indexer.go:225-231 | the highest placeholder is the number of numbered conditions, so the bare one leaves an argument over |
| FilterQuery.AllHoldIffSatisfies | internal/search/service/indexer.go:168-262 | the rendered conditions hold of a row if and only if the filters that are set ask for it, the mention filter not being read |
| FilterQuery.SelectsIff | internal/search/service/indexer.go:168-262 | from a new builder, the text with its positional arguments selects exactly the rows the filters ask for if and only if the reaction filter is unset; otherwise the query is refused for every row |
| RoomCache.RoomService.GetRoom | internal/chat/service/roomService.go:42-55 | the cached room if the cache answers, else the stored one and a fill on its way, else an error |
| RoomCache.RoomService.IsRoomMember | internal/chat/service/roomService.go:57-99 | whether the user is among the members of the room so found |
| RoomCache.RoomService.CreateRoom | internal/chat/service/roomService.go:109-145 | what is refused, what is filled in, and the upsert, which keeps an existing row's type, owner and creation time |
| RoomCache.RoomService.UpdateRoom | internal/chat/service/roomService.go:147-153 | a stored row is overwritten and a missing one is not created; the cache is written either way |
| RoomCache.RoomService.DeleteRoom | internal/chat/service/roomService.go:155-160 | the row goes first, then the cache entry |
| RoomCache.StepKeepsIff | internal/chat/service/roomService.go:42-160 | with the room's fills finished, a step keeps cache and table in agreement if and only if it is safe: an update of a stored room, no failed cache write that leaves an older content behind |
| RoomCache.RunAgrees | internal/chat/service/roomService.go:42-160 | so every run of such steps keeps them in agreement |
| RoomCache.MemberSameWithoutCache | internal/chat/service/roomService.go:57-64 | after such a run a cached room is stored and has the same name, members, settings and avatar, and membership is the same with and without the cache |
| RoomCache.LateFillBringsRoomBack | internal/chat/service/roomService.go:122 | without the order a fill that finishes after a delete brings the room back |
| RoomCache.UpdateOfMissingRoom | internal/chat/service/roomService.go:147-153 | through every continuation that leaves the room's row and entry alone, an updated room is readable through the cache only if and only if it was not stored |
| RoomCache.RecreateAgreesIff | internal/chat/storage/roomStorage.go:52-73 | after creating over a stored room, cache and table agree on type, owner and creation time each if and only if the new value is the old one |
| RoomCache.CreatedRoom | internal/chat/service/roomService.go:109-145 | the stored row in terms of the room given: its name, members, settings and avatar, the owner alone for a group without members, type and owner and creation for a new row; other rows stay |
| RoomCache.MembersOfCreated | internal/chat/service/roomService.go:57-145 | after a create and its fill the members are exactly those given, or the owner of a group without any, with and without the cache |
| RoomCache.RefusedRoomIff | internal/chat/service/roomService.go:109-145 | refused if and only if id or owner is empty or the type is none of the four |
| RoomCache.UpdatedRoom | internal/chat/service/roomService.go:147-153 | what an update changes of the row and what it keeps; the cache takes the room |
| RoomCache.DeletedRoom | internal/chat/service/roomService.go:155-160 | the room is neither stored nor cached, no read finds it, and every other one stays |
| RoomCache.ReadFillsCache | internal/chat/service/roomService.go:42-55 | after a missed read and its fill the cache alone answers with the stored room |
| RoomCache.LeavesNoTrace | internal/chat/service/roomService.go:42-160 | refused calls and reads that the cache answers change nothing |

## Left out

- Fan-out over several projections: the projector is modelled with the one search projection.
- A log appended out of sequence order, and more than one consumer of the same name.
- The `created_at` column of the search table and the text search itself; `ReindexEntity`.
- Write outages during a dispatch in the convergence theorem: an event that fails then goes to the dead letters and is skipped, as `CheckpointSafety` says.
- LiveRebuild.SureIff: a dispatch of the consumer that the database refuses, which loses its row to the dead letters; the rebuild's own failures are its `Stop` step.
- The sending of the e-mail and the making of the tokens, beyond whether they succeed.
- Deletion of messages, the file store, the activity update and the broker behind the write path.
- Several outbox workers at once.
- Outbox.PublishedIff: an event either always can be published or never can, ticks read their whole answer, no other row was created at the event's moment, and rows stored later carry a later time (the time is taken just before the insert, so two processes could store in the other order); without that `NothingLost` still holds.
- Rounding in the token bucket, which counts in floating point; the model counts in exact integers.
- RateLimiter.RateLimiter.Check: is one step here, where the code gives its map lock back before it asks the bucket; RateLimiterLocks has the two steps.
- Overflow of the backoff for attempts beyond those `AttemptsInRange` allows.
- Registry.ConnectionManager.Register: is one step here, as are Unregister and the run theorem Registry.IndexesAgree; their lock regions are the steps of RegistryLocks, where objects hold sets of clients with unique ids.
- Clients that unregister before they register.
- SSE clients, whose id changes from call to call, so the two indexes use different keys for them; SSE replay.
- `broadcastDurable` and `SendToUser`, which queue jobs in the same way for the users who are not suppressed; acknowledgements and delivery status, which a later write overwrites.
- `LeaseRepository.AcquireLease`, which overwrites the owner and is not wired; rebalancing.
- The columns `verified` and `uploaded_at` of a chunk, the contents of the object store, and uploads of one index that overlap (the primary key refuses the second, as `InsertFails` does).
- FilterQuery.SelectsIff: is about a new builder; no code in the repository adds to a builder before `BuildFilters`, and no table in the schema has all the columns it names.
- The room object that a background fill shares with the caller of `CreateRoom`; room permissions and listings.
- HTTP handlers, WebSocket and SSE transport, Kafka, Redis, S3, media conversion, tokens and passwords, WebRTC, the front end: input, output and libraries.
- Polls, stickers, reactions, notifications, retention and moderation tools: single statements that would add easy members only.
