# Verified model of the GoCart outbox and its neighbours

This project models the stateful core of the GoCart server in Dafny and proves what it promises: the transactional
outbox (business transactions insert `PENDING` rows, any number of publishers claim, publish and mark them, an
administrator requeues `FAILED` ones), `WithTransaction`, the migrator, the Kafka producer and consumer with their
dead letters, the fixed-window rate limiter, and the Redis lock and counter scripts.
`dafny verify dfyconfig.toml` checks everything.

## How the outbox is modelled

`OutboxMachine` is a concurrent machine. One label is one atomic step: a clock tick, a committed insert, a requeue, or a
step of some publisher's poll cycle (begin, claim, reject, publish, dead-letter, mark, commit, abort). Every outcome that
the code does not control is part of the label, so a statement about all label sequences is a statement about all
schedules, failures, crashes and cancellations of any number of publishers. The state has the committed table, the row
locks, the open cycles with their uncommitted writes, and an append-only broker log in which main and dead-letter
publishes are tagged apart even if the topics coincide. `OutboxInvariant` proves the invariant of every step;
`OutboxDelivery`, `OutboxDeadLetters`, `OutboxTiming` and `OutboxProgress` derive the promises over whole runs;
`OutboxSchedules` and `OutboxDuplicates` construct the runs that show where a stronger promise fails.

`Postgres`, `OutboxStore`, `KafkaProducer` and `OutboxPublisher` are the code itself: savepoint by savepoint, statement by
statement, write by write and event by event. `OutboxPublisher` proves that every execution of `processOnce`, interleaved with arbitrary steps of
others, is a run of the machine, so the run theorems are theorems about that code; `CommittedBodyIsInsert` and
`Table.RequeueFailed` tie the machine's insert and requeue steps to the code in the same way.

The other modules: `Durations` (the backoff loop in 64-bit arithmetic), `Seconds` (a delay as a double and its decimal
text), `WithTransaction`, `OutboxLegacy` (tables without the newer columns), `MigrationMachine` and `MigrationRunner`, `RateLimiter`, `KafkaHeaders`, `KafkaConsumer`,
`RedisLock`.

## Assumptions

- PostgreSQL: a failed statement makes every later one fail until a rollback to a savepoint; committing a failed
  transaction rolls it back; releasing a savepoint keeps its row locks; `NOW()` is the transaction's start; a claim sees
  the latest committed version of a row; an update waits for a row lock.
- All publishers of one table share one MaxRetries of at least 1. Their other settings may differ.
- Parsing a payload is a deterministic partial function, so a row holds the result of parsing instead of bytes.
- Migration files have distinct names and stay the same, in whatever order a run lists them, and scripts have no effect
  outside their transaction.
- Requests reach the rate limiter's critical section in the order of their clock readings.
- Each Redis command and script is one step; INCR reads only the canonical decimal form of a 64-bit integer.
- Times and durations are integers: nanoseconds in Go, microseconds in the database, milliseconds in Redis. Seconds as a
  double are modelled exactly: correctly rounded division and addition, and six decimals rounded half to even.
- In a table with the newer columns these are filled with their defaults when a statement does not name them
  (services/merchant-service/migrations/000008_create_outbox_events.sql:16-22).

## Where the code does less than one might expect

- Retry spacing between two attempts on a row is guaranteed if and only if the first one's mark and the second one's claim
  both take their primary forms (`SpacingExactly`), whatever else falls back. The fallback statements run after any
  error, not only on older tables: a fallback claim ignores `next_retry_at`, and a fallback mark leaves it as it was.
  `EarlyClaims` says exactly which claims are early, and `EarlyAttempt` and `SpacingLost` give the runs.
- A delay is stored in microseconds by way of a double and `%f`. Under 2^23 seconds (97 days) that is the nearest
  microsecond (`NearestMicro`), so a pause can fall short by up to half a microsecond: `PauseCoversDelay` says exactly when,
  and at a half the double decides (`TiesGoEitherWay`). No 64-bit delay is off by more than 2.5 microseconds (`AnyMicro`).
- A fallback insert into a newer table loses the event's headers unless they are empty (`HeadersKept`).
- The backoff loop computes min(base·2^n, max) for every n if and only if no doubling below the cap leaves 64 bits
  (`BackoffExact`); otherwise the first doubling that does not fit gives a negative delay (`BackoffOverflows`), which is
  stored as one second. With base above max the first delay is base, and all others are max if and only if 2·base fits
  (`BackoffAboveCap`).
- README.md:125 of the repository promises no duplicate publishing across instances. No row is ever in two open batches,
  but a cycle that is acknowledged and then rolled back publishes again, as often as that happens (`DuplicatesHappen`).
  `AcknowledgementAccounting` counts these exactly, and consumers that honour the idempotency key see each event once
  (`ExactlyOnceByKey`).
- `processOnce` returns nil after a rollback exactly when the first event to stop its loop is parseable, the cycle's context
  is alive throughout, and the publish reports a cancellation all the same (`ProcessOnce`: the ending `Silent`).
- A nil result of `RequeueFailed` is too small exactly when its first statement was carried out, its answer was lost, and
  some row matched (`Table.RequeueFailed`).
- The limiter admits up to 2·max−1 requests in one closed window-long interval, and for all limits this is reached
  (`LessThanTwiceTheLimit`, `BoundIsReached`). A Retry-After computed two seconds or more after the window ended is
  negative (`RetryAfterSuffices`).
- The consumer submits a message's offset also when the message was neither handled nor dead-lettered. `SafeExactly` gives
  the exact condition for a message to be safe, `DispositionExactly` that of each ending, and `MessagesGetLost` runs that
  lose any message: without a producer, with a refused dead letter, and after a cancelled wait.
- A counter with a time to live under a millisecond never counts: its key is deleted at once (`ShortTtlNeverCounts`).

## Model

| member | source | states |
|---|---|---|
| `Durations.RetryDelay` | pkg/outbox/publisher.go:146-154 | the loop with its early exit computes the recursive capped doubling in wrapping 64-bit arithmetic |
| `Durations.BackoffIsCappedDoubling` | pkg/outbox/publisher.go:146-154 | for 0 < base <= max and doublings that fit, the delay after n failures is min(base * 2^n, max) |
| `Durations.BackoffExact` | pkg/outbox/publisher.go:146-154 | the closed form holds for all n if and only if no doubling below the cap leaves 64 bits |
| `Durations.BackoffOverflows` | pkg/outbox/publisher.go:149-151 | the first doubling that does not fit makes the delay negative |
| `Durations.SmallCapsFit` | pkg/outbox/publisher.go:149-151 | a cap below 2^62 ns rules overflow out for every base |
| `Durations.BackoffMonotone` | pkg/outbox/publisher.go:146-154 | delays never shrink with the retry count and stay between base and max |
| `Durations.BackoffAboveCap` | pkg/outbox/publisher.go:146-154 | with base above max, the delay is base at the first failure and max ever after if and only if 2 * base fits 64 bits |
| `Seconds.SecondsClose` | pkg/outbox/store.go:180 | the error of the double that stands for a delay: half a unit in the last place of the sum and of the fraction |
| `Seconds.NearestMicro` | pkg/outbox/store.go:206-212 | under 2^23 s, rounding twice and formatting once still gives the nearest microsecond |
| `Seconds.WholeMicro` | pkg/outbox/store.go:206-212 | under 2^32 s whole microseconds come out as they went in |
| `Seconds.AnyMicro` | pkg/outbox/store.go:206-212 | no 64-bit delay is off by more than 2.5 microseconds |
| `Seconds.FormattedCovers` | pkg/outbox/store.go:206-212 | for every delay, the exact condition on the double for the pause to cover the delay |
| `Seconds.PauseCoversDelay` | pkg/outbox/store.go:180-212 | under 2^23 s the stored pause is at least the delay if and only if no fraction below half a microsecond was dropped and a half was not rounded down |
| `Seconds.TiesGoEitherWay` | pkg/outbox/store.go:206-212 | 2500 ns are rounded up and 3500 ns down |
| `Seconds.WholeMicros` | pkg/outbox/store.go:206-212 | bases and caps of whole microseconds under 2^32 s lose nothing in any pause |
| `OutboxTypes.Normalised` | pkg/outbox/publisher.go:32-52 | each setting is kept unless it is not positive, and then it is 50, 5, one second or one minute; the dead-letter topic is kept; the result is usable |
| `OutboxTypes.Outgoing` | pkg/outbox/publisher.go:132-138 | the event id is the payload's, or the row's own if it names none; an aggregate id that is missing comes from the row; the body is kept |
| `OutboxTypes.DeadLetterTopic` | pkg/outbox/publisher.go:167-170 | empty only if neither topic is set; a topic made up from the row's own topic differs from it |
| `OutboxInvariant.WriteClimbs` | pkg/outbox/publisher.go:113-202 | what a cycle writes is one mark of a pending row it holds: published, or one failure further, facts unchanged |
| `OutboxInvariant.CommittedRow` | pkg/outbox/store.go:141-232 | although no mark checks the status, a commit changes only pending rows the cycle itself has locked |
| `OutboxInvariant.RequeueNeverBlocks` | pkg/outbox/store.go:236-272 | a requeue never waits for a publisher, since failed rows are never locked |
| `OutboxInvariant.InvKept` | pkg/outbox/publisher.go:94-205 | every step of every actor keeps locks = open batches, held rows pending and unchanged, the ladder, the row count, the log's facts and the acknowledgement ledger |
| `OutboxInvariant.RunInv` | pkg/outbox/publisher.go:94-205 | the invariant holds after every run |
| `OutboxDelivery.AcknowledgementAccounting` | pkg/outbox/publisher.go:94-205 | in every reachable state, acknowledged main publishes of a row = 1 if it is PUBLISHED + those of rolled-back cycles + those of open cycles |
| `OutboxDelivery.QuiescentExactlyOnce` | pkg/outbox/publisher.go:94-205 | with nothing rolled back or open, a published row was acknowledged once and any other never |
| `OutboxDelivery.StepRemembers` | pkg/outbox/store.go:141-232 | no step drops a row, changes its facts, touches a published row or shortens the broker log |
| `OutboxDelivery.RunRemembers` | pkg/outbox/store.go:141-272 | the same over whole runs |
| `OutboxDelivery.PublishedForever` | pkg/outbox/store.go:141-170 | a PUBLISHED row has an acknowledged publish and is the same row after any continuation |
| `OutboxDelivery.CountsMatchInserts` | pkg/outbox/store.go:276-293 | in every reachable state the three status counts add up to the rows the run inserted |
| `OutboxDelivery.BatchesExclusive` | pkg/outbox/store.go:71-118 | a row in an open batch is committed, pending, exactly as read, in no other open batch and only once in its own |
| `OutboxDelivery.OneKeyPerRow` | pkg/outbox/publisher.go:132-140 | all broker messages for a row, main or dead-letter, by any instance, carry one envelope and one key: the payload's event id, or the row's own if it names none |
| `OutboxDelivery.FilledKeysDiffer` | pkg/outbox/publisher.go:136-138 | rows whose payloads name no event id have keys of their own |
| `OutboxDelivery.DeliveredOnce` | pkg/kafka/producer.go:54-61 | dropping repeated keys from a log leaves each main key once, and nothing else |
| `OutboxDelivery.DeliveredGrows` | pkg/kafka/producer.go:54-61 | what was delivered is neither taken back nor reordered as the log grows |
| `OutboxDelivery.ExactlyOnceByKey` | pkg/outbox/publisher.go:132-140 | with distinct keys per row, the deduplicated main log has no repeats, only table rows, every PUBLISHED row, and only grows |
| `OutboxDeadLetters.DlqKept` | pkg/outbox/publisher.go:166-183 | every step keeps: dead-letter tries match rows failed or about to fail in open cycles, and failures in committed ones |
| `OutboxDeadLetters.ThresholdsAgree` | pkg/outbox/publisher.go:166-183 | for a parseable row with a configured topic or one of its own, a committed cycle tried to dead-letter it exactly when its commit made it FAILED |
| `OutboxDeadLetters.DeadLettersAddressed` | pkg/outbox/publisher.go:167-177 | in every reachable state a dead letter lies in its publisher's configured topic, or if that is empty in its row's topic followed by ".dlq" |
| `OutboxDeadLetters.RetryLadder` | pkg/outbox/store.go:185-199 | in every reachable state a row is FAILED exactly when retry_count = MaxRetries, never above; PUBLISHED rows have published_at |
| `OutboxTiming.TimedKept` | pkg/outbox/store.go:81 | every step, whatever forms its statements take, keeps: next_retry_at is the pause end of the last attempt marked in full, and primary claims wait for it |
| `OutboxTiming.ChainSpans` | pkg/outbox/publisher.go:146-183 | attempts each separated by their pause span at least the sum of the pauses |
| `OutboxTiming.AttemptsSpaced` | pkg/outbox/store.go:206-212 | in every run the attempts since a row was queued number its retry count, call for their computed pauses, and are spaced by them wherever mark and next claim are primary |
| `OutboxTiming.FailureTakesItsTime` | pkg/outbox/publisher.go:146-183 | a FAILED row whose own statements were primary took at least the sum of its first MaxRetries - 1 pauses |
| `OutboxTiming.DelaysKept` | pkg/outbox/publisher.go:146-183 | in nanoseconds: an attempt so spaced is at most half a microsecond early for delays under 97 days, 2.5 for any other, and on time for whole microseconds |
| `OutboxTiming.EarlyClaims` | pkg/outbox/store.go:71-118 | in every reachable state a claim comes before the last attempt's own pause is over if and only if the fallback query runs, or that attempt's mark fell back and the older pause is over |
| `OutboxTiming.EarlyAttempt` | pkg/outbox/store.go:100-117 | from every state with a waiting free parseable row, last try or not, a cycle that can claim it makes an attempt that is too early |
| `OutboxTiming.SpacingLost` | pkg/outbox/store.go:220-226 | for a fallback mark, a fallback claim or both, such a run from the empty table, for every new due row and every configuration with two tries |
| `OutboxTiming.SpacingExactly` | pkg/outbox/store.go:71-118 | the forms of a mark and the next claim guarantee spacing in every run if and only if both are primary |
| `OutboxSchedules.OneRowCycleRuns` | pkg/outbox/publisher.go:94-205 | a cycle on one due row runs through in all forms, acknowledged or refused, with its dead letter on a last try: row settled and free, message logged, attempt recorded |
| `OutboxDuplicates.LostCycleRuns` | pkg/outbox/publisher.go:103 | a cycle that crashes after its publish was acknowledged leaves the message and nothing else |
| `OutboxDuplicates.DuplicatesHappen` | pkg/outbox/publisher.go:94-205 | for every new parseable row and every n, a run that acknowledges its publish n + 1 times and ends with it PUBLISHED |
| `OutboxProgress.CommitWorks` | pkg/outbox/publisher.go:113-204 | a commit of a non-empty batch strictly lowers the sum over pending rows of MaxRetries - retry_count |
| `OutboxProgress.RunWorks` | pkg/outbox/publisher.go:113-204 | without inserts and requeues, settling commits plus remaining backlog never exceed the backlog at the start |
| `OutboxProgress.BacklogDrains` | pkg/outbox/publisher.go:113-204 | at most rows * MaxRetries settling commits are possible, and after the backlog's number of them nothing is pending |
| `Postgres.Tx.Savepoint` | pkg/outbox/store.go:35-38 | opens a level of undoable writes and locks, or fails and leaves the transaction aborted |
| `Postgres.Tx.Release` | pkg/outbox/store.go:47-49 | keeps all writes and locks, or fails and leaves the transaction aborted |
| `Postgres.Tx.RollbackTo` | pkg/outbox/store.go:51 | drops exactly the savepoint's writes and locks and makes the transaction usable again if it succeeds |
| `Postgres.Tx.SelectForUpdate` | pkg/outbox/store.go:78-86 | locks rows at the current level, some of them possibly even if it fails |
| `OutboxStore.WriteWithFallback` | pkg/outbox/store.go:34-64 | the savepoint pattern writes the newer row, or the older one with no trace of the first try, or aborts the transaction |
| `OutboxStore.Insert` | pkg/outbox/store.go:23-65 | adds the event's row under its own or a minted id on one of the two paths, each column as given, set or defaulted, and keeps all earlier writes; a taken id or a broken path aborts |
| `OutboxStore.HeadersKept` | pkg/outbox/store.go:53-61 | a fallback insert into a newer table stores what the newer statement would if and only if the event has no headers to lose |
| `OutboxStore.MarkPublished` | pkg/outbox/store.go:141-170 | published_at is now, updated_at too in the primary form, all other columns but the status are kept; or the transaction is aborted; a missing row is no error |
| `OutboxStore.MarkFailedWithBackoff` | pkg/outbox/store.go:179-232 | both statements together write the counter, the status it calls for and, in the primary form, next try and update time, and no other column; or the transaction is aborted; a missing row is an error that changes nothing |
| `OutboxStore.WriteStatus` | pkg/outbox/store.go:196-231 | the second statement of a failure mark: on top of the bumped counter, the whole mark or an aborted transaction |
| `OutboxStore.MarkFailed` | pkg/outbox/store.go:173-175 | the same columns with a next try in one second |
| `OutboxStore.SelectDue` | pkg/outbox/store.go:78-86 | returns due, unlocked, distinct rows, oldest first, at most the limit, and leaves none behind that should have come first |
| `OutboxStore.ScanEvents` | pkg/outbox/store.go:120-137 | returns the rows in order, or an error exactly when one of them cannot be read or the answer breaks off |
| `OutboxStore.FetchAndLockPending` | pkg/outbox/store.go:71-118 | fails exactly on a broken path or reading; success is a correct selection by whichever query ran, on the table as it then was, writes intact, and locks on exactly the returned rows besides the earlier ones |
| `OutboxStore.FetchIgnoringBackoff` | pkg/outbox/store.go:102-117 | the same for the fallback query alone |
| `OutboxStore.StatusCountsSum` | pkg/outbox/store.go:276-293 | the three status counts partition the table |
| `OutboxStore.RequeueTouches` | pkg/outbox/store.go:237-253 | the rows that change are exactly the FAILED ones whose aggregate type and event type equal the filters given; status, count and, in the primary form, both times are reset, all other columns kept |
| `OutboxStore.RequeueMoves` | pkg/outbox/store.go:236-272 | exactly the number of matching rows moves from FAILED to PENDING; PUBLISHED is unaffected |
| `OutboxStore.Table.RequeueFailed` | pkg/outbox/store.go:236-272 | the new table column by column and the count for every pair of answers and anything others do between the statements, and the exact condition for a nil result's count to be the rows moved |
| `OutboxStore.CountByStatus` | pkg/outbox/store.go:276-293 | an error exactly when the query, a scan or the answer fails; otherwise each status that occurs is counted exactly, and only those are listed |
| `OutboxPublisher.OthersLeaveAlone` | pkg/outbox/publisher.go:17-20 | no step of another actor touches a cycle's own record |
| `OutboxPublisher.NextIsFresh` | pkg/outbox/store.go:71-118 | in every reachable state the row a cycle marks next is still the committed row it scanned |
| `OutboxPublisher.ReachableLocks` | pkg/outbox/store.go:71-118 | in every reachable state an open cycle has locked exactly its batch |
| `OutboxPublisher.SelectedIsClaimable` | pkg/outbox/store.go:78-98 | what the claim query returns is a claim the machine allows, with the scanned events as batch |
| `OutboxPublisher.Publisher.constructor` | pkg/outbox/publisher.go:32-52 | the publisher works with the defaulted configuration |
| `OutboxPublisher.Publisher.MarkEventFailed` | pkg/outbox/publisher.go:183-186 | the store's failure mark and the machine's are one step; an error is passed over with the transaction doomed |
| `OutboxPublisher.Publisher.MarkEventPublished` | pkg/outbox/publisher.go:199-201 | likewise for the published mark |
| `OutboxPublisher.Publisher.SendEvent` | pkg/outbox/publisher.go:140 | what the producer leaves at the broker is the machine's publish step |
| `OutboxPublisher.Publisher.SendDeadLetter` | pkg/outbox/publisher.go:171-180 | likewise for the dead letter, after which others may act; its failure is passed over |
| `OutboxPublisher.Publisher.HandleRefusal` | pkg/outbox/publisher.go:146-186 | a refused event is delayed, dead-lettered on its last try, marked failed, and the cycle goes on |
| `OutboxPublisher.Publisher.PublishEvent` | pkg/outbox/publisher.go:140-201 | gives up exactly on an error under an ended context or a cancellation, silently exactly on a cancellation while the context is alive; otherwise the event is handled |
| `OutboxPublisher.Publisher.HandleEvent` | pkg/outbox/publisher.go:113-202 | the cycle stops exactly when its context ended or a publish was cancelled; otherwise the event has its final row |
| `OutboxPublisher.Publisher.HandleBatch` | pkg/outbox/publisher.go:113-202 | stops exactly if some event stops the loop, silently exactly if the first such does so with the context alive; otherwise the whole batch is handled, and aborted exactly if a mark broke |
| `OutboxPublisher.Publisher.ClaimBatch` | pkg/outbox/publisher.go:105-108 | fails exactly on a broken path or reading, and then rolls back; otherwise the fetched events are the machine's batch and the transaction's locks the machine's |
| `OutboxPublisher.Publisher.FetchBatch` | pkg/outbox/publisher.go:105-108 | the fetch among others: what it selected is what the query that counts should find in the table by then |
| `OutboxPublisher.Publisher.FinishCycle` | pkg/outbox/publisher.go:204 | commits every final row, or rolls back exactly when a mark broke or the commit was declined |
| `OutboxPublisher.Publisher.RunClaimed` | pkg/outbox/publisher.go:109-204 | how a claimed cycle ends is determined exactly by its events and its commit, with all rows final or none |
| `OutboxPublisher.Publisher.ProcessOnce` | pkg/outbox/publisher.go:94-205 | every execution among any others is a run of the machine; a committed cycle leaves each row, column by column, published at its start or one failure further as the broker's reply demands; exactly when the claim fails, when the result is nil, and when nil follows a rollback |
| `WithTransaction.Database.Execute` | pkg/outbox/store.go:23-65 | a statement of the body adds its write or aborts the transaction |
| `WithTransaction.Database.WithTransaction` | pkg/database/postgres.go:134-155 | all writes or none for every body, ending and failure; nil exactly when everything succeeded; a swallowed error leaves nothing |
| `WithTransaction.WrittenAddsOne` | pkg/outbox/store.go:23-65 | an insert, fallback or not, adds exactly one new due row and loses no earlier write |
| `WithTransaction.AllCounted` | pkg/database/postgres.go:134-155 | "all" has exactly as many new rows as there were inserts, and every earlier one unchanged |
| `WithTransaction.AllInserted` | pkg/outbox/store.go:23-65 | "all" has for each insert a fresh, due row under an id unused before, about its event |
| `WithTransaction.AllWritten` | pkg/database/postgres.go:134-155 | "all" has the last write to every cell and nothing that was not written |
| `WithTransaction.CommittedBodyIsInsert` | pkg/database/postgres.go:134-155 | a committed body is one insert step of the outbox machine, of exactly as many rows as it made Insert calls |
| `OutboxLegacy.ErasureCommutes` | pkg/outbox/store.go:34-64 | erasing the newer columns commutes with each of insert, published mark, failure mark and requeue, in either form |
| `OutboxLegacy.LegacyAgrees` | pkg/outbox/store.go:201-231 | any sequence of writes, each in either form, gives the same rows, statuses and retry counts on both schemas |
| `MigrationMachine.NameCommitted` | pkg/database/migrator.go:79-99 | a file's name is among the committed versions exactly when it lies in the applied prefix |
| `MigrationMachine.CommitKept` | pkg/database/migrator.go:150 | a commit, applied or not, reported or not, keeps the prefix and all other runs in step |
| `MigrationMachine.RecordKept` | pkg/database/migrator.go:146-148 | at most one run at a time has an uncommitted version row, and it is that of the next file |
| `MigrationMachine.RunInv` | pkg/database/migrator.go:101-151 | the invariant holds after every interleaving |
| `MigrationMachine.MigrationsApplyAPrefix` | pkg/database/migrator.go:101-196 | versions are a prefix of the name-sorted files, increasing and below all names left out; the schema is the fold of exactly that prefix; a run that returned nil left all files applied |
| `MigrationMachine.LessExactly` | pkg/database/migrator.go:191-193 | names are compared at the first place where they differ, shorter ones first |
| `MigrationRunner.SortFiles` | pkg/database/migrator.go:191-193 | sorted by name and a permutation |
| `MigrationRunner.LoadMigrationFiles` | pkg/database/migrator.go:158-196 | a sorted list with every file as often as the listing has an entry of its name and content that is no directory and ends in ".sql"; an error exactly when the listing fails or one cannot be read |
| `MigrationRunner.LoadableExactly` | pkg/database/migrator.go:167-189 | which entries must be readable: those that are no directory and end in ".sql" |
| `MigrationRunner.SortedUnique` | pkg/database/migrator.go:191-193 | with distinct names, the list depends on the set of files only, not on the listing order |
| `MigrationRunner.LoadsTheFiles` | pkg/database/migrator.go:158-196 | whatever order the directory is listed in, a run works from the one sorted list |
| `MigrationRunner.ApplyMigration` | pkg/database/migrator.go:135-151 | script and version row commit together among any interference, or the run fails; undisturbed it succeeds |
| `MigrationRunner.RecordVersion` | pkg/database/migrator.go:146-150 | the version row and commit; a duplicate version fails the run |
| `MigrationRunner.RunFiles` | pkg/database/migrator.go:113-127 | passes every file, skipping applied ones, or ends the run at the first failure |
| `MigrationRunner.RunMigrations` | pkg/database/migrator.go:101-133 | nil implies that every file is applied and that the versions are exactly the names of this run's listed .sql entries, whatever other runs did; alone and undisturbed, a run returns nil |
| `MigrationRunner.AllApplied` | pkg/database/migrator.go:132 | in every interleaving a run that ended well left all versions and the whole schema |
| `RateLimiter.Normalised` | pkg/middleware/ratelimit.go:53-74 | each limit is kept unless it is not positive, and then it is 100 requests or one minute |
| `RateLimiter.Limiter.Handle` | pkg/middleware/ratelimit.go:81-116 | the critical section decides by and updates the request key's record alone |
| `RateLimiter.Limiter.HandleAll` | pkg/middleware/ratelimit.go:81-116 | a whole trace gets the decisions of the specification |
| `RateLimiter.WindowLedger` | pkg/middleware/ratelimit.go:88-114 | what holds of one key and one interval after every trace: the current window's share and the older ones' |
| `RateLimiter.LessThanTwiceTheLimit` | pkg/middleware/ratelimit.go:88-114 | every closed interval of one window's length admits at most 2 * max - 1 requests per key |
| `RateLimiter.WindowsKeepTheLimit` | pkg/middleware/ratelimit.go:88-114 | a window has admitted exactly its count, never more than max |
| `RateLimiter.BoundIsReached` | pkg/middleware/ratelimit.go:88-114 | for all limits, a trace in time order and an interval of one window that admits 2 * max - 1 |
| `RateLimiter.KeysDoNotInterfere` | pkg/middleware/ratelimit.go:88-114 | a key's decisions and record are those of a limiter that sees its requests alone |
| `RateLimiter.ExemptChangesNothing` | pkg/middleware/ratelimit.go:83-86 | exactly /health, /ready and /metrics are exempt; they pass and change no record |
| `RateLimiter.RetryAfterSuffices` | pkg/middleware/ratelimit.go:104-110 | waiting the sent Retry-After outlasts the refusing window (section 10.2.3 of RFC 9110); it is non-negative exactly if computed within two seconds of the window's end |
| `RateLimiter.RetryAfterTight` | pkg/middleware/ratelimit.go:104-107 | while the window is open the Retry-After is at least a second and at most one second longer than needed |
| `KafkaHeaders.LookupFindsFirst` | pkg/kafka/producer.go:129-136 | a lookup finds the first header under a key, or the empty string |
| `KafkaHeaders.AtoiItoa` | pkg/kafka/producer.go:139-148 | parsing a printed 64-bit integer gives it back |
| `KafkaHeaders.DecimalDigits` | pkg/kafka/retry.go:79 | numbers are printed in base ten, most significant digit first |
| `KafkaHeaders.BuildDeadLetter` | pkg/kafka/retry.go:67-97 | the header loop builds the four failure headers followed by the kept ones in order |
| `KafkaHeaders.FailureLookups` | pkg/kafka/retry.go:72-97 | one dead-lettering: topic with the suffix, key and value kept, and lookups of the origin, the error and the time of failure |
| `KafkaHeaders.KeptAfter` | pkg/kafka/retry.go:82-87 | after n failures the kept headers are exactly the path newest first and then the originals' kept ones, in their order |
| `KafkaHeaders.HeadersAfter` | pkg/kafka/retry.go:75-87 | the whole header list after n failures, of length 3 + n more than what was kept of the original |
| `KafkaHeaders.LookupsAfter` | pkg/kafka/producer.go:129-136 | lookups of keys outside the bookkeeping ones give the same through any number of failures |
| `KafkaHeaders.CountAfter` | pkg/kafka/retry.go:73 | after n failures the attempt counter is MaxRetries + n |
| `KafkaHeaders.DeadLetterHistory` | pkg/kafka/retry.go:67-98 | after n failures the exact header list: the four of the last failure with count MaxRetries + n, the older path newest first, all originals in order; length, topic, key, value and other lookups |
| `KafkaConsumer.HandlingStops` | pkg/kafka/retry.go:38-53 | handlers stop at the first success, after max(1, MaxRetries) failures or at a cancelled wait, each exactly then |
| `KafkaConsumer.HandlingExactly` | pkg/kafka/retry.go:38-53 | which of success, cancelled wait and exhaustion the loop finds, exactly, in terms of the calls and waits alone |
| `KafkaConsumer.ExecuteWithRetry` | pkg/kafka/retry.go:29-64 | at most max(1, MaxRetries) calls, exactly that many if all fail and no wait is cancelled, and a write-off only after that many; disposition and dead letter; the waits total interval * (2^(calls-1) - 1) if each wait that is made fits 64 bits |
| `KafkaConsumer.PublishToDLQ` | pkg/kafka/retry.go:67-98 | one dead letter if there is a producer and its write succeeds, else none and a named error |
| `KafkaConsumer.Consumer.ProcessMessage` | pkg/kafka/consumer.go:104-124 | dead letter if any, then the disposition, then the offset |
| `KafkaConsumer.Consumer.Start` | pkg/kafka/consumer.go:72-113 | the deeds of one pass over the fetched messages; a second start changes nothing |
| `KafkaConsumer.FetchedExactly` | pkg/kafka/consumer.go:87-112 | the messages handled are those fetched before the first turn that ends the loop, and that turn's own if only its commit was cancelled |
| `KafkaConsumer.DispositionExactly` | pkg/kafka/retry.go:29-64 | a message ends in a given way if and only if it meets what justifies it: a first success, a first cancelled wait, or a bad envelope or all tries failed, with the dead-letter write's fate |
| `KafkaConsumer.SafeExactly` | pkg/kafka/consumer.go:104-111 | the exact condition for a message to be handled or dead-lettered when its offset is submitted |
| `KafkaConsumer.MessagesGetLost` | pkg/kafka/consumer.go:104-111 | for every configuration and message, runs that submit its offset though it was neither |
| `KafkaConsumer.Conservation` | pkg/kafka/consumer.go:87-124 | one justified disposition and one later offset per fetched message, in fetch order, and one dead letter per burial |
| `KafkaProducer.Publish` | pkg/kafka/producer.go:40-86 | what reaches the broker is one publish step of the outbox machine; at most max(1, MaxRetries) writes, and what the last makes the call return |
| `KafkaProducer.RepliedExactly` | pkg/kafka/producer.go:66-85 | exactly when Publish succeeds, is cancelled or fails, in terms of MaxRetries and of what its writes meet |
| `KafkaProducer.EndingEnds` | pkg/kafka/producer.go:71-83 | the loop ends at the first write that succeeds or finds the context over, or at the last of max(1, MaxRetries) |
| `KafkaProducer.EndingUnique` | pkg/kafka/producer.go:71-83 | the loop's ending is determined by what it meets |
| `KafkaProducer.WireCarriesKey` | pkg/kafka/producer.go:50-63 | topic, key and value of the broker message, and what a lookup of each of its six headers gives |
| `RedisLock.Server.SetNX` | pkg/redis/redis.go:245-250 | takes the lock exactly when no live value is there, with a lease within a millisecond of the duration asked for, or none for 0; a negative duration other than -1 ns is refused |
| `RedisLock.Server.ReleaseLock` | pkg/redis/redis.go:21-27 | deletes the key exactly while it holds the caller's token |
| `RedisLock.Server.IncrWithExpiry` | pkg/redis/redis.go:29-35 | counts, sets an expiry within a millisecond of the one asked for on the first count and keeps it on later ones; a non-number or a full counter is an error |
| `RedisLock.LiveIsLatestGrant` | pkg/redis/redis.go:245-250 | after every interleaving a stored lock is the latest grant, with its token and lease, unreleased |
| `RedisLock.ReleaseIsOwn` | pkg/redis/redis.go:273-287 | a successful release gives up the caller's own unexpired grant with no grant since |
| `RedisLock.LateReleaseFails` | pkg/redis/redis.go:273-287 | once others have been granted the lock and not the caller since, its release fails and changes nothing, whatever tokens are used elsewhere |
| `RedisLock.GrantLasts` | pkg/redis/redis.go:245-250 | an unreleased, unexpired grant stays in place whatever others do |
| `RedisLock.GrantsExclude` | pkg/redis/redis.go:245-250 | between two grants the first was released or ran out |
| `RedisLock.CounterCounts` | pkg/redis/redis.go:29-35 | with a time to live of at least 1 ms a counter always has its window's expiry and holds exactly the calls since the window began |
| `RedisLock.ShortTtlNeverCounts` | pkg/redis/redis.go:259-271 | a first call leaves a live counter if and only if its time to live is at least a millisecond |

## Left out

- The poll and ticker loop `Publisher.Start`, logging, metrics and tracing: they keep no state the properties speak of.
- SQL text and query assembly: each statement is a step on the table.
- Per-aggregate ordering: skipped locks and backoff do reorder events, so no order is claimed.
- Isolation between concurrent `WithTransaction` calls beyond the outbox rows, and savepoints a body opens itself.
- Row locks that updates and inserts take: a publisher updates only rows it has already selected for update.
- The `VARCHAR(255)` limit on versions, the `bigint` drop in `EnsureSchemaTable` and `DropAll`: assumed not to occur.
- `sort.Slice` is modelled as an insertion sort; with distinct names every sort gives the same list.
- The message time and the header timestamp format are uninterpreted strings.
- `DefaultKeyFunc`, response bodies and the sharing of one limiter between routes: the key is part of the request.
- Redis commands other than `SetNX` and the two scripts, connection handling, and nil-client errors.
- Protobuf and JSON encodings, JWT signing, one-time passwords, object storage, mail, health checks, CORS and the gateway:
  encoding, cryptography, network I/O and configuration, none of which the modelled protocols depend on.
- RateLimiter.LessThanTwiceTheLimit: stated for request times that do not decrease in lock order; the code reads the clock
  before it takes the lock.
