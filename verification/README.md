# Verification of personal_assistant's event, limiting, locking, ranking and metrics core

This project models, in Dafny 4.11, the parts of the repository whose correctness depends on
state that changes step by step, and proves properties of them over every input and every run.

- **SSE runtime.** `Registry` holds the three maps of the broker and says what it means for the
  subject and channel maps to be the grouping of the id map. `BrokerMachine` is the broker under
  concurrency: every call in progress is a thread with a program counter, a step is one lock
  operation, critical section, atomic access or channel operation, and any interleaving is a run.
  `BrokerSafety`, `BrokerProgress`, `BrokerDelivery` and `BrokerClosing` prove its invariants, deadlock
  freedom and termination, account for every delivery, and say what a call has closed when it returns.
  `Broker` is the same code as objects that update their fields. `EventStream` is the frame printer
  together with an interpreter written from sections 9.2.5 and 9.2.6 of the HTML Standard;
  `StreamWriter` is the response writer. `Replay` and `ReplayStore` are the Redis-backed replay log
  and the handler that replays before it registers; `ReplayClient` is a client over all its
  connections, which replays, registers, receives live events and loses the connection again.
- **Rate limiters.** `SlidingWindow` and `FixedWindow` are the two Lua scripts over a Redis key with
  an expiry. The sliding window's sorted set is refined to a plain log of admitted times.
- **Lock, outbox relay, stream consumer.** `RedisLock` is the lease protocol. `OutboxRelay` is
  publish-then-mark with failures and crashes between any two calls, `StreamGroup` the consumer
  group, `EventPipeline` the two joined by the stream, `MessageCodec` the field layout between them.
- **Ranking projection.** `ProjectionCodec` is the user hash, `RankingBoards` the denormalised
  sorted sets and the operations that keep them in step.
- **Parsing and aggregation.** `Duration` is the duration parser and its grammar, `MetricRollup` and
  `MetricStore` the metrics table with its upserts, roll-ups and cleanup, `MetricTotals` its columns as sums
  and maxima, `CleanupRuns`, `MetricCleanups`, `MetricRetention` and `MetricWeeks` what any number of cleanups
  leaves of what was added,
  `RuntimeSummary` the runtime summary with its percentiles. `Text` and `Wrappers` are shared primitives.

Where a property the code is meant to have does not hold of every input, the code is modelled as
it is, a lemma gives an input that shows it, and another says exactly when the property holds:

- registering an id that is already registered leaves a stale index entry unless the old
  connection was in the same bucket or in none (`Registry.InsertAgreesIff`; input:
  `Registry.ReusedIdBreaksAgreement`). Even then the old connection's close takes the new one out
  of the registry: it stays open, misses what is published to its subject or channel and is passed over by a drain
  (`Broker.Broker.CloseReplaced`, `Broker.Broker.PublishAndDrain`);
- an event id or name with a line end, or an id with NUL, is not read back
  (`EventStream.RoundTripIff`; input: `EventStream.LineFeedInIdInjects`);
- replay, then registration, is not gap-free. Nothing is lost or repeated exactly when no event lies
  between the end of the replayed page and what had been published at registration
  (`ReplayClient.ConnectionIsExactIff`, and for whole runs `ReplayClient.RunIsExactIff`). Inputs, all
  reached from the start: a backlog longer than the page (`ReplayClient.BacklogBeyondThePageIsLost`),
  an event published between replay and registration (`ReplayClient.PublishedInTheWindowIsLost`) or
  after both but appended before (`ReplayClient.PublishedAfterReplayIsRepeated`), and a page full of
  undecodable entries (`Replay.EmptyPageIff`; input: `ReplayClient.EventBehindABlockIsLost`). `Append`
  stores no undecodable entry, so over its runs there is no such page (`ReplayClient.AppendedRunHasNoBlock`);
  another writer of the stream can;
- the `Retry-After` header of a wait less than a second below the largest 64-bit duration wraps around
  and tells the client too short a wait (`SlidingWindow.HeaderRounding`, `SlidingWindow.WaitingForTheHeaderSufficesIff`);
- with a limit that is not positive the sliding window's wait is not kept
  (`SlidingWindow.RetryAfterIsKeptIff`; input: `SlidingWindow.ZeroLimitIsNeverKept`);
- a lock object whose renewal has failed does not start one again when it acquires the lock a second
  time without having been unlocked (`RedisLock.AcquiringStartsRenewalIff`; input:
  `RedisLock.SecondAcquisitionIsNotRenewed`);
- an event whose publishes all fail is given up for good, though the entity's comment
  (internal/model/entity/outbox_event.go:8) promises that none is lost (`OutboxRelay.CanBeSentIff`;
  input: `OutboxRelay.FailuresLoseTheEvent`). MySQL assigns from left to right, and the update lists
  the count before the status, so there the event is given up one attempt before the configured number;
- an event already marked published is sent again when another relay, which had fetched it before, records
  a failure afterwards: the failure's update does not look at the status (`OutboxRelay.CanBeSentAgainIff`;
  input: `OutboxRelay.LateFailureReopensTheEvent`);
- an entry whose handler failed is never handed out again (`StreamGroup.CanBeAckedIff`; input:
  `StreamGroup.FailedHandlerStrandsItsEntry`): the comment on the subscriber interface speaks of a
  retry, depending on the implementation, and this implementation reads new entries only;
- a message's two times, an empty id and metadata under the empty name do not arrive
  (`MessageCodec.RoundTripIff`, `MessageCodec.ArrivesButForTimesIff`; inputs: `MessageCodec.LossyMessages`);
- a ranking call that does not name the organisation a user leaves keeps a stale board entry
  (`RankingBoards.AgreementKeptIff`; input: `RankingBoards.MovedUserStaysOnOldBoard`);
- a board and the hash disagree about an identifier that is only white space
  (`RankingBoards.BoardsMatchHashIff`; input: `RankingBoards.BlankIdentifierSplitsBoardAndHash`);
- roll-ups in two steps agree with one step only from a day boundary (`MetricRollup.StepsAgreeIff`;
  input: `MetricRollup.MisalignedStartLosesRows`);
- a cleanup whose cut of the minutes falls inside a day makes the next one overwrite that day's row, and
  its week's, with a partial sum (`MetricRetention.DayIsCompleteIff`; input: `MetricRetention.CutDayIsWrong`).
  The configuration as shipped does so every night (`MetricRetention.ShippedCleanupsLose`). A week's row
  needs, besides, that the last weekly roll-up to see any of its days sees all of them, which, where days
  are kept longer than minutes and for a week at least, means that no cut of the days falls inside the week
  (`MetricWeeks.WeekIsCompleteIff` for every retention, `MetricWeeks.SeenTogetherIff`; inputs:
  `MetricWeeks.CutDayMakesWeekWrong`, `MetricWeeks.UnseenDayMakesWeekWrong`, `MetricWeeks.DaysSeenApartMakeWeekWrong`).
  Shorter retentions of the days, which the backend accepts, lose whole weeks
  (`MetricWeeks.ShortLivedDaysOverwriteTheWeek`, `MetricWeeks.ShortLivedDaysNeverReachTheWeek`).

## Model

| member | source | states |
|---|---|---|
| Registry.InsertAgreesIff | internal/infrastructure/sse/broker.go:89-101 | inserting a connection keeps both index maps the exact grouping of the id map, with no empty bucket, if and only if the id is new, or the connection has the subject, if any, and the channel, if any, of the one it replaces |
| Registry.BucketsByFields | internal/infrastructure/sse/broker.go:89-101 | in an agreeing registry the bucket of a subject above zero, or of a non-empty channel, is exactly the connections with that subject or channel in their own fields; subject zero and the empty channel have none |
| Registry.RemoveAgrees | internal/infrastructure/sse/broker.go:147-171 | removing an id keeps both index maps the exact grouping of what is left, dropping buckets that become empty |
| Registry.InsertWithinLimit | internal/infrastructure/sse/broker.go:82-95 | the test against MaxConnectionsPerSubject keeps every subject bucket within the limit |
| Registry.TooManyIff | internal/infrastructure/sse/broker.go:82-87 | a connection is refused for its subject exactly when it has one above zero, and at least as many registered connections as the limit have the same in their own fields |
| Registry.RemoveWithinLimit | internal/infrastructure/sse/broker.go:149-160 | a removal never takes a subject over its limit |
| Registry.ConnsDetermineIndexes | internal/infrastructure/sse/broker.go:89-101 | two registries that agree and hold the same connections are equal, so an empty id map means empty indexes |
| Registry.StatsAreExact | internal/infrastructure/sse/broker.go:286-295 | in an agreeing registry the keys of the index maps are exactly the subjects above zero and the non-empty channels among the connections' own fields |
| Registry.ReusedIdBreaksAgreement | internal/infrastructure/sse/handler.go:79-84 | a connection id chosen by two clients of different subjects breaks the subject index |
| BrokerSafety.ReachableInv | internal/infrastructure/sse/broker.go:64-178 | the lock, once, registry and drain invariants hold in every reachable state of every interleaving |
| BrokerSafety.IndexAgreement | internal/infrastructure/sse/broker.go:81-101 | in every reachable state the bucket of a subject or channel is exactly the registered connections with that subject or channel in their own fields, none for subject zero and the empty channel, no bucket is empty, and no subject exceeds the limit |
| BrokerSafety.DrainSafety | internal/infrastructure/sse/broker.go:306-313 | when the BeginDrain call that won the compare-and-swap has returned the registry is empty, and no later run of any calls makes it non-empty |
| BrokerProgress.LockHoldersNeverWait | internal/infrastructure/sse/broker.go:172-177 | a call that holds the broker lock can always take its next step: Close is never entered under the lock |
| BrokerProgress.NoDeadlock | internal/infrastructure/sse/connection.go:145-159 | in every reachable state with a call in progress some call can take a step |
| BrokerProgress.EveryCallReturns | internal/infrastructure/sse/broker.go:221-313 | a run that starts no new call has a bounded number of steps, however the calls interleave, and it is at rest if and only if every call has returned |
| BrokerProgress.CallsCanReturn | internal/infrastructure/sse/broker.go:221-313 | from every reachable state the calls in progress can be run until all have returned |
| BrokerProgress.DrainCompletes | internal/infrastructure/sse/broker.go:306-313 | a state with draining begun in which nothing can step any more has an empty registry |
| BrokerProgress.ConnectionFifo | internal/infrastructure/sse/connection.go:118-131 | in every reachable state what was written is a prefix of what was accepted, accepted is written plus in flight plus queued, and the queue is within its capacity |
| BrokerDelivery.PublishAccounts | internal/infrastructure/sse/broker.go:221-251 | every publish that returned delivered to or dropped each connection of its snapshot, the dropped counter is the sum of all drops, and all deliveries together are the events that the connections have accepted |
| BrokerDelivery.SnapshotIsOfThoseConcerned | internal/infrastructure/sse/broker.go:329-363 | the snapshot of a publish, revocation or drain plans exactly the connections then registered whose own subject or channel it is for, each once |
| BrokerClosing.ClosedIffCloseIsUnderWay | internal/infrastructure/sse/connection.go:145-159 | in every reachable state a connection is closed if and only if a Close of it is complete or past its first step; one that is not yet registered is open |
| BrokerClosing.ReturnedMeansClosed | internal/infrastructure/sse/broker.go:267-313 | when a RevokeSubject or the BeginDrain call that won the swap has returned, whatever ran between, every connection that was registered for its subject, or at all, when it took its snapshot is closed and gone from the registry |
| BrokerClosing.RevokeCompletes | internal/infrastructure/sse/broker.go:267-273 | with no call in progress RevokeSubject can be called and run until it has returned, with that effect |
| BrokerClosing.RegisterTakesEffect | internal/infrastructure/sse/broker.go:64-111 | where nobody holds the lock, a Register call on its own inserts its connection, open, if and only if the broker is not draining and its subject has fewer connections than the limit |
| Broker.Link.Enqueue | internal/infrastructure/sse/connection.go:118-131 | an event is accepted exactly when the connection is open and the queue has room, and is then appended |
| Broker.Broker.Register | internal/infrastructure/sse/broker.go:64-111 | for any connection, the four outcomes in the order of their tests, the registry unchanged on an error and inserted into otherwise, the callback installed, and the registry sound afterwards if and only if the id and the object are new to it or replace one of the same buckets |
| Broker.Broker.UnregisterInternal | internal/infrastructure/sse/broker.go:144-178 | removes the id from all three maps, and closes the connection when asked, keeping an earlier close reason |
| Broker.Broker.Close | internal/infrastructure/sse/connection.go:145-159 | the first close sets the reason and calls back into the broker, a second does nothing |
| Broker.Broker.CloseReplaced | internal/infrastructure/sse/broker.go:103-106 | closing a connection whose id another has taken over unregisters the other, which stays open |
| Broker.Broker.PublishAndDrain | internal/infrastructure/sse/broker.go:194-313 | an open but unregistered connection gets neither an event published to its subject nor one published to its channel, and outlives a drain that empties the registry |
| Broker.Broker.BeginDrain | internal/infrastructure/sse/broker.go:306-313 | the first call closes every registered connection with reason drain and leaves an empty registry, a second changes nothing |
| Broker.Broker.RevokeSubject | internal/infrastructure/sse/broker.go:267-273 | closes exactly the registered connections that have the subject, with the given reason, keeps all others, and returns their number; subject zero has none |
| Broker.Broker.OfferAll | internal/infrastructure/sse/broker.go:232-238 | each connection of the snapshot takes the event exactly when it is still open and its queue has room; the others are listed in order |
| Broker.Broker.Kick | internal/infrastructure/sse/broker.go:240-251 | each refusing connection is counted, and whatever is registered under its id by then is closed and unregistered, nothing else |
| Broker.Broker.Deliver | internal/infrastructure/sse/broker.go:221-251 | for any snapshot, closed or unregistered connections included: delivered plus newly dropped is its size, those with room have the event at the end of their queue, and exactly the ids of the others are gone from the registry |
| Broker.Broker.Publish | internal/infrastructure/sse/broker.go:221-251 | the same for any event, where a nil one does nothing |
| Broker.Broker.PublishToSubject | internal/infrastructure/sse/broker.go:194-197 | delivered plus newly dropped is the number of registered connections that have the subject, none for subject zero; exactly those get the event at the end of their queue or, when it is full, are dropped, and all others and their queues are untouched |
| Broker.Broker.PublishToChannel | internal/infrastructure/sse/broker.go:201-204 | the same for the registered connections that have the channel, none for the empty one |
| Broker.Broker.ReadStats | internal/infrastructure/sse/broker.go:286-295 | reports the number of connections, of distinct subjects above zero and of distinct non-empty channels in their fields, and of drops |
| EventStream.EncodeEvent | internal/infrastructure/sse/writer.go:276-312 | the printed frame: retry, id, event and data lines, carriage returns dropped, nothing for a nil event; what it means for a client is stated in RoundTripIff |
| EventStream.WithoutCRIff | internal/infrastructure/sse/writer.go:297-303 | the printed data are exactly the data's characters other than carriage returns, each picked once and in order |
| EventStream.RoundTripIff | internal/infrastructure/sse/writer.go:276-312 | for any interleaving of events and heartbeats the standard's interpreter dispatches exactly those events in order, with type, id, retry and the data's characters other than carriage returns, if and only if ids and names are single lines and ids hold no NUL |
| EventStream.LineFeedInIdInjects | internal/infrastructure/sse/writer.go:283-296 | an id that contains a line feed is read back differently |
| StreamWriter.HttpStreamWriter.Write | internal/infrastructure/sse/writer.go:136-163 | a write succeeds exactly when header flush, deadline, all characters and flush do; the response then grows by exactly that frame, otherwise by as much of it as was taken, or by nothing when the header's flush or the deadline failed |
| StreamWriter.ClientReadsWhatWasSent | internal/infrastructure/sse/writer.go:82-107 | until a write fails, a client reads exactly the events written, in the sense of RoundTripIff, if and only if all were clean |
| Replay.ReadInvertsIdText | internal/infrastructure/sse/replay_redis.go:112-115 | an entry id survives being printed into an event and read back as a Last-Event-ID |
| Replay.LessIff | internal/infrastructure/sse/replay_redis.go:152-158 | entry ids are in the order of their 128-bit value, time first |
| Replay.PageIsSlice | internal/infrastructure/sse/replay_redis.go:152-193 | a page is exactly the decodable entries from the client's position up to the last one within the limit |
| Replay.EmptyPageIff | internal/infrastructure/sse/replay_redis.go:167-177 | a page is empty exactly when nothing decodable is left or a page-long block of undecodable entries comes first |
| ReplayClient.ReplayKeeps | internal/infrastructure/sse/replay_redis.go:137-197 | a replay of any page size never makes a client miss, repeat or reorder an event |
| ReplayClient.DeliverKeepsIff | internal/infrastructure/sse/broker.go:232-238 | a live event keeps a client up to date if and only if it is the first one the client does not have |
| ReplayClient.RunIsExactIff | internal/infrastructure/sse/handler.go:60-84 | over any run of appends, publications, reconnects, registrations and disconnects, in any order, a client has every event once and in order throughout if and only if each live delivery is of the first event it does not have |
| ReplayClient.RegistrationIsExactIff | internal/infrastructure/sse/handler.go:79-84 | a newly registered client misses and repeats nothing, whatever is then appended and published in stream order, if and only if it is past just the events already published |
| ReplayClient.ConnectionIsExactIff | internal/infrastructure/sse/handler.go:60-84 | a connection misses and repeats nothing if and only if no event lies between the end of its replayed page and what was published by its registration |
| ReplayClient.AppendedRunHasNoBlock | internal/infrastructure/sse/replay_redis.go:77-116 | over every run from the start in which only Append writes, no page of any size is full of undecodable entries |
| ReplayClient.AppendedConnectionIsExactIff | internal/infrastructure/sse/handler.go:60-84 | a connection after any run in which only Append wrote misses and repeats nothing if and only if its page ends where the entries published by its registration end |
| ReplayClient.EnoughReconnectsGetAll | internal/infrastructure/sse/replay_redis.go:137-197 | over any run of appends, publications, reconnects, registrations and disconnects whose live deliveries are each of the next event: once a client has reconnected, with pages of any positive sizes, as often as it was entries behind the end of a stream, it has every event of that stream, unless a page-long block of undecodable entries exists |
| ReplayClient.AppendedReconnectsGetAll | internal/infrastructure/sse/replay_redis.go:137-197 | where only Append writes, without exception |
| ReplayClient.PassedIsLost | internal/infrastructure/sse/handler.go:60-84 | a published event that the client is past without having it never reaches it in any later run |
| ReplayClient.BlockedIsLost | internal/infrastructure/sse/replay_redis.go:167-177 | in front of such a block a client never gets what was published behind it, only what is published live from then on |
| ReplayClient.BacklogBeyondThePageIsLost | internal/infrastructure/sse/handler.go:60-84 | a reachable client with a backlog of two and a page of one that has lost the second for good |
| ReplayClient.PublishedInTheWindowIsLost | internal/infrastructure/sse/handler.go:73-84 | a reachable client that has lost an event published between its replay and its registration |
| ReplayClient.PublishedAfterReplayIsRepeated | internal/infrastructure/sse/handler.go:60-84 | a reachable client that has received an event twice |
| ReplayClient.EventBehindABlockIsLost | internal/infrastructure/sse/replay_redis.go:167-177 | a reachable client in front of an undecodable entry that never gets the event behind it |
| ReplayStore.RedisReplayStore.Append | internal/infrastructure/sse/replay_redis.go:77-116 | only a durable event is stored, at the end of its channel's stream and no other channel's; every stored entry stays decodable; live and stored ids match if and only if the event had no id or that very one |
| ReplayStore.RedisReplayStore.StreamsAreDistinct | internal/infrastructure/sse/replay_redis.go:212-218 | two channels share a stream exactly when they are the same up to white space around them |
| ReplayStore.RedisReplayStore.ReplayAfter | internal/infrastructure/sse/replay_redis.go:137-197 | the page after the trimmed last id, from the beginning without one, of at most a hundred events for a non-positive limit, and an error for an unreadable id |
| ReplayStore.Serve | internal/infrastructure/sse/handler.go:36-91 | the outcomes in order, a refused registration included; what is written is the visible part of the backlog, cut where a write fails, and the id registered is the client's trimmed one or a new one |
| SlidingWindow.WindowBound | pkg/ratelimit/sliding_window.go:19-43 | over every run on a non-decreasing clock, every half-open interval one window long holds at most limit admitted requests |
| SlidingWindow.LimiterBound | pkg/ratelimit/sliding_window.go:71-118 | for a limiter's own log: every half-open interval no longer than the configured window, or a minute for a window below a millisecond, holds at most limit admitted requests |
| SlidingWindow.RetryAfterIsExact | pkg/ratelimit/sliding_window.go:30-38 | after a rejection every request before now plus retry_after is rejected and the first one from then on is allowed |
| SlidingWindow.RetryAfterIsKeptIff | pkg/ratelimit/sliding_window.go:30-38 | the request at now plus retry_after is allowed if and only if the limit is positive |
| SlidingWindow.ZeroLimitIsNeverKept | pkg/ratelimit/sliding_window.go:30-38 | with limit zero the first request is rejected and told to wait nothing, and rejected again |
| SlidingWindow.HeaderRounding | internal/middleware/rateLimitMW.go:154-163 | in 64-bit arithmetic the header never shortens the wait if and only if the wait is not within a second of the largest duration; it then adds less than a second exactly when the wait is positive; a wait that is not positive, or is that long, gives one second; it reads back as a number |
| SlidingWindow.WaitingForTheHeaderSufficesIff | internal/middleware/rateLimitMW.go:154-163 | a client that waits the header's seconds, with nothing admitted meanwhile, is allowed if and only if that rounding does not wrap around, and then waits less than a second too long |
| SlidingWindow.ScoresCount | pkg/ratelimit/sliding_window.go:26-28 | with unique members the size of the sorted set is the number of log entries after the cut |
| SlidingWindow.OldScoresAreGone | pkg/ratelimit/sliding_window.go:40-42 | by the time the key's expiry passes, everything it held is out of the window |
| SlidingWindow.SlidingWindowKey.Eval | pkg/ratelimit/sliding_window.go:19-43 | the script answers as the plain log does: allowed, current count and retry_after, whether or not Redis has dropped the expired key |
| SlidingWindow.SlidingWindowLimiter.Allow | pkg/ratelimit/sliding_window.go:71-118 | the result for one identifier in terms of the log: allowed, the current count, the remaining count clipped at zero and retry_after, for the configured window in whole milliseconds, or a minute for one below a millisecond; a failed call has no result, and has admitted the request if only its answer was lost |
| FixedWindow.LifetimeBound | pkg/ratelimit/ratelimit.go:21-33 | over every run each lifetime of the key admits at most limit requests |
| FixedWindow.WindowBound | pkg/ratelimit/ratelimit.go:21-33 | over every run any half-open interval one window long admits at most twice the limit less one |
| FixedWindow.WindowBoundIsTight | pkg/ratelimit/ratelimit.go:21-33 | for every positive limit and window a run that admits exactly that many |
| FixedWindow.LimiterBound | pkg/ratelimit/ratelimit.go:72-101 | for a limiter's own log: every half-open interval of whole seconds no longer than the configured window, or a minute for a window below a second, holds at most twice the limit less one |
| FixedWindow.Limiter.Allow | pkg/ratelimit/ratelimit.go:72-101 | the counter's step and the result: allowed exactly when the request is admitted, the remaining count, and as retry-after the configured window in whole seconds, or a minute for one below a second; a failed call has no result, and has counted the request if only its answer was lost |
| RedisLock.LeaseExclusion | pkg/redislock/concurrency_lock.go:102-127 | over all runs of lock, renew, unlock and waiting, a value's lease is live exactly when it is the value stored at the key, so never two at once |
| RedisLock.MovesTakeEffect | pkg/redislock/concurrency_lock.go:102-238 | taking a free key and renewing one's own give a live lease that lasts the full TTL, unlocking ends one's own, and nothing else changes anything |
| RedisLock.RenewedTtlIsNeverShorter | pkg/redislock/concurrency_lock.go:240-249 | the renewed TTL in whole seconds is at least the configured one and less than a second longer |
| RedisLock.LeaseNeverLapses | pkg/redislock/concurrency_lock.go:189-209 | with every renewal less than a third of the expiration late, the value is at the key after every step of any run, for any number of renewals |
| RedisLock.AcquiringStartsTheSchedule | pkg/redislock/concurrency_lock.go:102-127 | taking a free lock establishes what the previous row assumes of the stored value |
| RedisLock.AcquiringStartsRenewalIff | pkg/redislock/concurrency_lock.go:130-141 | over any history of a lock object, acquiring leaves it with a running renewer if and only if none has stopped by itself since the last release |
| RedisLock.LockIsHeldWhileRenewed | pkg/redislock/concurrency_lock.go:102-209 | over every run of one lock object and its key in which renewals are less than a third of the expiration late: while a renewer runs the key holds the value and its next renewal extends that by a full expiration, and acquiring the free lock leaves a running renewer if and only if none has stopped by itself since the last release |
| RedisLock.SecondAcquisitionIsNotRenewed | pkg/redislock/concurrency_lock.go:130-209 | a run of the object and its key, with every renewal in time: it acquires, a renewal fails, it acquires again; no renewer runs, and another value holds the lock that it has not released |
| RedisLock.LateRenewalCanLoseTheLock | pkg/redislock/concurrency_lock.go:189-209 | a renewal just beyond that slack can find another owner |
| RedisLock.Lock.TryLock | pkg/redislock/concurrency_lock.go:102-141 | the stored value, whether a renewer is started, and the error for a lost or refused command; a command whose answer is lost may still have taken the lock |
| RedisLock.Lock.Unlock | pkg/redislock/concurrency_lock.go:152-186 | deletes the key only if it holds this lock's value, leaves it alone otherwise, and stops renewing in every case |
| RedisLock.Lock.Renew | pkg/redislock/concurrency_lock.go:189-238 | extends the key only if it holds this lock's value; on success the lock is held for another full expiration, and any failure ends the renewing |
| OutboxRelay.PublishedHasEntry | internal/infrastructure/outbox/processor.go:104-142 | under every interleaving of failures and crashes of any number of relays, a row marked published has a stream entry |
| OutboxRelay.CanBeSentIff | internal/infrastructure/outbox/processor.go:93-142 | a created event can still get an entry if and only if it has one, a relay holds it, or it is due |
| OutboxRelay.CanBeSentAgainIff | internal/infrastructure/outbox/processor.go:104-142 | an event can get one more entry on the stream if and only if it is due, or some relay holds it and has yet to send it, or can still record a failure that makes it due |
| OutboxRelay.MarkedIsSentNoMore | internal/repository/system/outboxRepo.go:39-48 | once its mark is executed an event that no other relay holds is published, with its retries unchanged, and in every later run is never due and never sent |
| OutboxRelay.LateFailureReopensTheEvent | internal/repository/system/outboxRepo.go:50-71 | a reachable state in which a second relay has recorded its failure after the first had published and marked: the published event is due and can be sent again |
| OutboxRelay.FailuresLoseTheEvent | internal/repository/system/outboxRepo.go:50-71 | for every number of retries and either reading of the count in the update: the state after so many failed publishes is reachable, and a run can still send the event if and only if they are fewer than the attempts |
| OutboxRelay.RelayProcessor.Process | internal/infrastructure/outbox/processor.go:75-145 | the outcome of one poll; stream and rows after it, where in a fetch without repetitions each event's row is as its own outcome says (published and no longer due when it was sent and marked, pending or given up with one more retry when it was not sent, unchanged when the mark failed) and no other row changes |
| OutboxRelay.ProcessIsRun | internal/infrastructure/outbox/processor.go:104-142 | a call of Process is a run of one relay, so the results above apply to it |
| StreamGroup.GroupAccounts | internal/infrastructure/messaging/redis_subscriber.go:66-72 | over every run the delivered entries are a prefix of the stream split into pending and acknowledged, acknowledged implies the handler returned nil, no entry reaches a handler twice, and each consumer hands out entries in stream order |
| StreamGroup.FailedEntryStaysPending | internal/infrastructure/messaging/redis_subscriber.go:135-149 | an entry whose handler failed is pending in every later state and never handed out again |
| StreamGroup.FailedHandlerStrandsItsEntry | internal/infrastructure/messaging/redis_subscriber.go:135-149 | from the start, one failing call: the entry is pending and was called once after any later run |
| StreamGroup.CanBeAckedIff | internal/infrastructure/messaging/redis_subscriber.go:134-158 | an entry can still be acknowledged if and only if it is acknowledged, undelivered, or held by a consumer that has not crashed |
| StreamGroup.Subscriber.Poll | internal/infrastructure/messaging/redis_subscriber.go:56-160 | one turn of the loop: which entries become delivered, pending and acknowledged, and which calls the handler gets |
| StreamGroup.PollIsRun | internal/infrastructure/messaging/redis_subscriber.go:66-158 | that turn, whether its read is answered, fails or loses its answer, is a run of one consumer, so the results above apply to it |
| EventPipeline.PublishedIsAccountedFor | internal/infrastructure/outbox/processor.go:104-142 | over every run of relays and consumers together, an event marked published has an entry that is undelivered, pending, or acknowledged after its handler returned nil |
| MessageCodec.RoundTripIff | internal/infrastructure/messaging/redis_subscriber.go:165-196 | a message arrives as it was sent if and only if it has an id, no metadata under the empty name, and neither time set |
| MessageCodec.ArrivesButForTimesIff | internal/infrastructure/messaging/redis_subscriber.go:165-196 | all but the two times arrives if and only if there is an id and no metadata under the empty name |
| MessageCodec.TimesAreNotRead | internal/infrastructure/messaging/redis_publisher.go:62-68 | messages that differ only in their times arrive the same |
| MessageCodec.LossyMessages | internal/infrastructure/messaging/redis_subscriber.go:165-196 | one message for each thing that is lost |
| MessageCodec.DecodeOfEncode | internal/infrastructure/messaging/redis_subscriber.go:165-196 | what a subscriber reads of any message: the entry's id for an empty one, all metadata but the empty name's, and both times unset |
| MessageCodec.StampedKeeps | internal/infrastructure/messaging/redis_publisher.go:41-55 | adding the trace context never changes metadata the caller gave |
| MessageCodec.StampedIff | internal/infrastructure/messaging/redis_publisher.go:41-55 | under each name the caller's value if there is one, else the trace header or request id of that name if it is not empty, and nothing else |
| MessageCodec.Publish | internal/infrastructure/messaging/redis_publisher.go:31-82 | the message's new metadata and publication time, and which value is laid out under each field name |
| MessageCodec.ParseMessage | internal/infrastructure/messaging/redis_subscriber.go:165-196 | the parsed message, whatever order the fields are walked in, with both times unset |
| MessageCodec.PublishThenParse | internal/infrastructure/messaging/redis_publisher.go:31-82 | the two ends together: what arrives is never what was sent, since a published message has a time; all else arrives under exactly that condition |
| ProjectionCodec.NormalizeInvertsName | pkg/rankingcache/projection.go:183-192 | each platform's own name is read as that platform, so normalising is idempotent |
| ProjectionCodec.NormalizeIff | pkg/rankingcache/projection.go:183-192 | a text is read as a platform exactly when, trimmed, it is that platform's name in any casing; everything else is read as luogu |
| ProjectionCodec.FieldNamesAreDistinct | pkg/rankingcache/projection.go:16-33 | the fourteen field names of the hash are pairwise distinct |
| ProjectionCodec.HashValues | pkg/rankingcache/projection.go:85-115 | the written fields: exactly the known ones with the projection's printed values |
| ProjectionCodec.DecodeIff | pkg/rankingcache/projection.go:118-159 | a hash is refused exactly for user zero or without one of the two organisation fields; otherwise each part of the projection is read from the field of its own name |
| ProjectionCodec.ProjectionFromHash | pkg/rankingcache/projection.go:118-159 | the loops compute that projection, for any hash |
| ProjectionCodec.ReadAfterWrite | pkg/rankingcache/projection.go:118-159 | writing over any earlier hash content and reading back gives the projection with strings trimmed and organisation zero as none, negative scores included |
| ProjectionCodec.UnchangedIff | pkg/rankingcache/projection.go:85-159 | the hash returns a projection unchanged if and only if it is in normal form |
| ProjectionCodec.RewriteIsStable | pkg/rankingcache/projection.go:85-159 | writing back what was read is read the same again |
| RankingBoards.BoardKeysAreDistinct | pkg/rediskey/keys.go:26-33 | board keys of different boards differ, for any organisation and any platform text |
| RankingBoards.UserKeysAreDistinct | pkg/rediskey/keys.go:36-38 | user hash keys differ from each other and from every board key |
| RankingBoards.DedupeOrgIds | pkg/rankingcache/store.go:119-138 | the result holds exactly the non-zero listed organisations and the current one, each once |
| RankingBoards.SyncedAt | pkg/rankingcache/store.go:48-90 | after a sync the user's cleaned boards are what the projection says, and no other board or user changes |
| RankingBoards.DeletedAt | pkg/rankingcache/store.go:93-116 | after a delete the user is off the cleaned boards, and no other board or user changes |
| RankingBoards.AgreementKeptIff | pkg/rankingcache/store.go:48-116 | from agreeing boards, a call keeps agreement if and only if it names the organisation whose board the user leaves, when there is one |
| RankingBoards.MovedUserStaysOnOldBoard | pkg/rankingcache/store.go:48-90 | from empty boards, a sync that moves a user and names no organisation leaves the old entry |
| RankingBoards.BoardsAgree | pkg/rankingcache/store.go:48-116 | after any history of such calls a user is on a platform board exactly if active and bound, on exactly the current organisation's board if it is non-zero, with the projection's score |
| RankingBoards.BoardsMatchHashIff | pkg/rankingcache/projection.go:118-159 | the projection read back from the hash puts the user on the same boards if and only if no identifier of an active user is only white space |
| RankingBoards.BlankIdentifierSplitsBoardAndHash | pkg/rankingcache/projection.go:118-159 | an identifier of one space puts the user on a board that the hash denies |
| RankingBoards.RankingStore.WriteProjection | pkg/rankingcache/store.go:12-25 | merges the fields into the user's hash and leaves the others; reading it gives the normal form |
| RankingBoards.RankingStore.SyncProjectionRanks | pkg/rankingcache/store.go:48-90 | the pipeline's effect on the sorted sets, nothing for user zero |
| RankingBoards.RankingStore.DeleteProjection | pkg/rankingcache/store.go:93-116 | the pipeline's effect on the sorted sets and the removal of the hash, nothing for user zero |
| RankingBoards.RankingStore.RebuildAll | internal/service/system/cacheProjectionSvc.go:96-156 | whatever the cache held, after a rebuild the boards agree with the read models, the user hashes are theirs and hold exactly the fields their projections are written as, and the active states are theirs |
| RankingBoards.HashReadsBack | pkg/rankingcache/projection.go:118-159 | such a user hash reads back as its projection's normal form |
| Duration.ParseDuration | pkg/util/parse.go:14-59 | the destructive loops terminate and compute the specified result, including which error |
| Duration.AcceptsTheGrammar | pkg/util/parse.go:14-59 | a text is accepted if and only if trimmed it is a non-empty sequence of optional integers with units in the order d, h, m, s |
| Duration.DerivationIsUnique | pkg/util/parse.go:30-50 | an accepted text can be cut up in one way only |
| Duration.ReturnsTheWeightedSum | pkg/util/parse.go:40-46 | the result differs from the weighted sum by a multiple of 2^64, and is the sum itself if and only if it fits in 64 bits |
| Duration.ParseInvertsPrint | pkg/util/parse.go:14-59 | for every whole number of seconds a duration can hold, parsing its text in days, hours, minutes and seconds, each part left out when zero, gives it back |
| MetricRollup.AnyOrder | internal/repository/system/observabilityMetricRepo.go:23-58 | incrementing by the same rows in any order gives the same table |
| MetricRollup.AnySplit | internal/repository/system/observabilityMetricRepo.go:23-58 | incrementing in any split into batches gives the same table |
| MetricRollup.RegroupTwice | internal/repository/system/observabilityMetricRepo.go:150-173 | grouping a grouped table is grouping by the composed grouping |
| MetricRollup.FloorBounds | internal/repository/system/observabilityMetricRepo.go:217-226 | a minute, day or week bucket starts on its boundary, no later than the time and less than its span before it |
| MetricRollup.FloorIff | internal/repository/system/observabilityMetricRepo.go:217-226 | the bucket of a time is the only start of a day, or of a week on a Monday, that has the time within its span |
| MetricRollup.RollUpInSteps | internal/repository/system/observabilityMetricRepo.go:138-180 | minutes to days to weeks equals minutes to weeks from an open or day-aligned start |
| MetricRollup.StepsAgreeIff | internal/repository/system/observabilityMetricRepo.go:138-180 | the two agree on every table if and only if the start is open or day-aligned or the range is empty |
| MetricRollup.MisalignedStartLosesRows | internal/repository/system/observabilityMetricRepo.go:138-180 | for every range that starts inside a day, a table on which the two differ |
| MetricRollup.RollUpTwice | internal/repository/system/observabilityMetricRepo.go:60-95 | rolling up again with the absolute upsert changes nothing |
| MetricRollup.OverwriteListing | internal/repository/system/observabilityMetricRepo.go:60-95 | upserting the rows of an aggregate, in any order, puts it over the table |
| MetricTotals.IncrementAllTotals | internal/repository/system/observabilityMetricRepo.go:23-58 | after any increments a key's three counts are the sums, and its maximum the greatest, over what it held and the rows of its key; a key has a row exactly when it had one or is incremented |
| MetricTotals.AggregateTotals | internal/repository/system/observabilityMetricRepo.go:138-180 | a bucket's row has the three sums and the maximum of exactly the rows of the granularity within the range whose time lies in the bucket, and there is one exactly when there are such rows |
| MetricTotals.AggregateConserves | internal/repository/system/observabilityMetricRepo.go:138-180 | per subject, the three sums and the maximum over the selected rows are those over the aggregate's rows |
| MetricStore.Store.IncrementBatch | internal/repository/system/observabilityMetricRepo.go:23-58 | each key's row then holds the sums and the maximum over what it held and the non-nil rows of its key that were executed: those before the first failure; the outcome says whether all were |
| MetricStore.Store.UpsertAbsoluteBatch | internal/repository/system/observabilityMetricRepo.go:60-95 | the same for the overwriting upsert |
| MetricStore.Store.DeleteBeforeByGranularity | internal/repository/system/observabilityMetricRepo.go:182-215 | the batched loop deletes exactly the rows of the granularity before the cut if and only if the database gets through all its statements; otherwise it has deleted some of them, the earliest |
| MetricStore.StatementsIs | internal/repository/system/observabilityMetricRepo.go:182-215 | the loop takes one statement to see that nothing is left, and two for every thousand expired rows begun |
| MetricStore.Store.Rollup | pkg/observability/metrics/backend.go:505-537 | upserting the aggregate in batches of any size puts it over the table; a failed query changes nothing, and a failing upsert leaves the rows before it written |
| MetricStore.Store.RollupAndCleanup | pkg/observability/metrics/backend.go:445-495 | the table after the two roll-ups and the four deletions; whichever step fails, no row is deleted before both roll-ups are complete, and none that is not past its time |
| CleanupRuns.RowIsComplete | pkg/observability/metrics/backend.go:445-537 | over any number of cleanups of one pair of granularities, a coarse row is the roll-up of every fine row of its bucket there has been, if no cut falls inside the bucket |
| CleanupRuns.LateRowsOverwrite | pkg/observability/metrics/backend.go:505-537 | once a cleanup finds only one row of a bucket the coarse row counts that one alone |
| MetricCleanups.RoundIsCleanup | pkg/observability/metrics/backend.go:445-495 | a round of the runs below is what RollupAndCleanup does to the table it finds |
| MetricCleanups.TableOfRun | pkg/observability/metrics/backend.go:445-495 | over any run and for any retention, the minutes are those ever added, after the last cut; the days and weeks are all that was ever rolled up, each as last written, but for those past their time |
| MetricRetention.DayIsCompleteIff | pkg/observability/metrics/backend.go:445-495 | after any number of cleanups, a kept day row holds every minute of the day ever added and rolled up, whatever was added, if and only if no cleanup cut inside the day, in whole minutes, and left some of it to the next |
| MetricRetention.CutDayIsWrong | pkg/observability/metrics/backend.go:445-495 | for every such cut inside a day, two added minutes of which the day's row counts one |
| MetricRetention.DailyCleanupsLose | pkg/observability/metrics/backend.go:445-495 | cleanups a day apart at any time but midnight leave every day they cut into incomplete |
| MetricRetention.ShippedCleanupsLose | configs/configs.yaml:283-286 | so do nightly cleanups at ten past two with minutes kept for 45 days and days for 365 |
| MetricWeeks.WeekIsCompleteIff | pkg/observability/metrics/backend.go:445-495 | for every retention: a kept week row is complete, whatever was added, if and only if no cleanup cut the minutes inside one of its days and left some of it to the next, every day of it that has been rolled up was seen by some weekly roll-up, and the last roll-up that saw any of them saw all of them |
| MetricWeeks.SeenTogetherIff | pkg/observability/metrics/backend.go:445-495 | where days are kept longer than minutes and for a week at least, the days of a week are seen together if and only if no cleanup cut the days inside the week and left some of it to the next |
| MetricWeeks.TrueWeeksOfMinutes | pkg/observability/metrics/backend.go:445-495 | where minutes are kept a week or longer, complete means the roll-up of the added minutes themselves |
| MetricWeeks.CutDayMakesWeekWrong | pkg/observability/metrics/backend.go:445-495 | for every such cut inside a day, two added minutes of which the week's row counts one |
| MetricWeeks.UnseenDayMakesWeekWrong | pkg/observability/metrics/backend.go:445-495 | for every rolled-up day that no weekly roll-up sees, an added minute that is missing in its week |
| MetricWeeks.DaysSeenApartMakeWeekWrong | pkg/observability/metrics/backend.go:445-495 | for two days of a week of which only one is still seen, two added minutes of which the week's row counts one |
| MetricWeeks.ShortLivedDaysOverwriteTheWeek | pkg/observability/metrics/backend.go:445-495 | with minutes kept for 10 days and days for 5, two cleanups a day apart leave a week incomplete: each deletes the day row it has rolled up |
| MetricWeeks.ShortLivedDaysNeverReachTheWeek | pkg/observability/metrics/backend.go:445-495 | with minutes kept for 1 day and days for 5, a day row is deleted before it is old enough for a week |
| RuntimeSummary.ValueAtIsRank | internal/observability/query/service.go:708-720 | for every rank above zero and at most n, the value picked from the sorted durations has at least that many values at or below it and fewer strictly below |
| RuntimeSummary.RankIsUnique | internal/observability/query/service.go:708-720 | those two counts determine the value |
| RuntimeSummary.ReportedIsPercentile | internal/observability/query/service.go:708-720 | for every fraction p in (0, 1] the reported value is the p-percentile of the durations as they came |
| RuntimeSummary.SummaryIsOrdered | internal/observability/query/service.go:688-696 | P50, P95, P99 and the maximum are in order |
| RuntimeSummary.TotalIsPartitioned | internal/observability/query/service.go:668-682 | the total is the sum over the six statuses and the rows of no known status |
| RuntimeSummary.SummaryIs | internal/observability/query/service.go:661-704 | the summary's total, its six counts by trimmed status, the maximum and the three percentiles, each in terms of the rows and durations given |
| RuntimeSummary.SortSorts | internal/observability/query/service.go:689-689 | the sorted durations are in ascending order; as a multiset they are the durations given |
| RuntimeSummary.SortInPlace | internal/observability/query/service.go:689-689 | the caller's durations are sorted in place |
| RuntimeSummary.BuildRuntimeSeries | internal/observability/query/service.go:643-704 | one listed point with its mean for each row that is not nil, in order, and that summary of them |
| Text.AtoiInvertsPrintInt | pkg/rankingcache/projection.go:195-205 | a printed 64-bit integer reads back as itself and is not changed by trimming |
| Text.ParseUintInvertsPrint | pkg/rankingcache/projection.go:152-157 | a printed unsigned integer reads back as itself and is not changed by trimming |
| Text.TrimSpaceIff | pkg/rankingcache/projection.go:118-159 | trimming gives the one part of a text that has only white space before and behind it, and none at its own ends |
| Text.AtoiIff | pkg/rankingcache/projection.go:195-205 | an integer is read exactly from digits, leading zeros included, with or without a sign |
| Text.ValueOfBoth | pkg/rankingcache/projection.go:195-205 | digits count by position: those of a longer text count a power of ten more |

## Left out

- Real Redis and SQL: keys are maps, sequences, sorted sets and a clock; a script, a pipeline and a statement are one atomic step each. Relays append to one stream; in the code there is one per topic, and the results hold for each.
- Strings are sequences of characters. UTF-8, and what its decoder does with malformed bytes, is not modelled; `unicode.ToLower` is exact only where the lower case is ASCII.
- BrokerMachine assumes that a Register call brings a new connection with an id not used before; what a reused id does is stated in `Registry.InsertAgreesIff` and `Broker.Broker.CloseReplaced`. A connection closed before it is registered occurs in Broker only.
- Closing a connection's context, heartbeats that fail and the lock around the close reason are one step of Close in BrokerMachine, which also has no sending of terminal frames and no keep-alive timer.
- Broker.Broker.CloseAll: BeginDrain, RevokeSubject and Publish are stated for registered connections that are open and call back when they close, which every registration of an open connection gives.
- Write deadlines, flushing and header values of the response writer are reduced to whether they succeed.
- SlidingWindow: one non-decreasing clock and unique members are assumed; the limiter's clock is the application's.
- FixedWindow.Limiter.Allow: the key's expiry is in whole seconds and Redis may drop it late but not early; counters do not overflow.
- RedisLock.Lock.TryLock: the client's rounding of a TTL below a millisecond, LockWithRetry's repetition and the mutex around the renewal flag are not modelled, nor is a renewer caught in the middle of a renewal by an unlock and a new acquisition. Nothing is claimed about the critical section of a holder whose renewal failed: it is not told.
- OutboxRelay: order by creation time and the batch size of the fetch, error texts, and the contents of the message other than its id. The relay's lock plays no part in the results, which hold for any number of relays at once.
- StreamGroup: claiming another consumer's pending entries, trimming and deleting the stream; the code does none of them.
- MessageCodec: a time is unset or a text, and values other than strings do not occur; tracing spans and context ids are parameters.
- RankingBoards.RankingStore.SyncProjectionRanks: scores are integers, while the code converts them to float64, which is exact up to 2^53. Concurrent syncs of one user are not modelled.
- RankingBoards.RankingStore.RebuildAll: the scan that finds the keys of a prefix is one step, no command fails, and the cached active states do not expire. Read models have distinct, non-zero user ids.
- Duration: `ParseUint` of the same file, which has no loop.
- MetricRollup: time zones of the database session (buckets are in UTC), soft deletion, overflow of the sums, and `Query`.
- MetricStore.Store.DeleteBeforeByGranularity: the order of rows with the same start, and the early return for a blank granularity or zero time.
- MetricStore.Store.RollupAndCleanup: the flush of the buckets in memory before it, which is an IncrementBatch, and their merging back when it fails.
- MetricCleanups.InTime: the clock does not go back, and a minute arrives before a cleanup has cut it off; cleanups that fail partway (what they leave is stated in RollupAndCleanup) are not part of the runs.
- RuntimeSummary: percentiles use real arithmetic; the doubles 0.95 and 0.99 lie just below their fractions, which the ceiling hides for any list that fits in memory. The format of the listed times is left out.
- Replay: JSON is an injective codec of the stored fields.
- ReplayClient: one client and one stream; a filter that hides events, and a full queue, which drops the connection, are not part of it. `ReplayClient.RunIsExactIff` allows publication in any order, while the results about one connection assume it in stream order.
- ReplayStore.Serve: authorisation, the event filter and the writer are parameters; registration itself is the broker's.
- HTTP controllers, routing, the other middlewares, configuration, crawler clients, storage drivers, CRUD repositories, trace and metric collection: plumbing or foreign libraries, which would add only easy members.
