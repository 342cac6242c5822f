# Delivery and resilience protocols of ecom-lib-common, verified in Dafny

This project models the parts of the library that have to be right under concurrency and failure: the
transactional outbox and its processor, the per-consumer idempotency lease, the event store with its
snapshots, the Redis lock, and the circuit breaker, bulkhead and retry with their composition in the
executor. Three smaller cores are modelled as well: money as float amounts, the trusted proxy list and
the stored scope list of an API key. `dafny verify dfyconfig.toml` checks everything.

## How the models are built

Each module has the same three parts.

* **Steps.** Every critical section, SQL statement or Redis command is one function of the state it
  touches. Whatever the code does not decide is a parameter of the step: which processor moves, whether
  a publish succeeds, what time it is, whether a transaction rolls back. A crash of a processor is a
  rollback.
* **Histories.** A history is a sequence of steps of all parties, in any order that the steps allow.
  Events carry what the callers see (claim times, answers), so the main results are statements about
  every legal history: counts of publishes, marks, claims, successes, calls.
* **Objects.** The source's mutable objects are classes whose methods are proved equal to the steps, or
  loops proved against a specification. Where a method runs several statements, other parties may act
  between them (`Others`) and statements may fail, unless the object is declared to be alone. The circuit
  breaker object carries its own history, so the laws of the histories hold for it.

| file | source |
|---|---|
| `Outbox.dfy`, `OutboxProcessor.dfy` | `outbox/outbox.go`, `outbox/processor.go` |
| `Idempotency.dfy`, `Delivery.dfy` | `eventsourcing/idempotency.go`, its use of outbox ids, and the delivery limit of `nats/jetstream.go` |
| `EventStore.dfy` | `eventsourcing/postgres_store.go` |
| `RedisLock.dfy` | `lock/redis_lock.go` |
| `CircuitBreaker.dfy`, `Bulkhead.dfy`, `Retry.dfy`, `Executor.dfy`, `ExecutorProbes.dfy` | `resilience/` |
| `Money.dfy`, `TrustedProxies.dfy`, `Scopes.dfy` | `domain/money.go`, `middleware/trusted_proxies.go`, `auth/apikey_store.go`, `auth/apikey.go` |

Times are integers of one unit per module and clocks are monotone. Identifiers that the source draws as
random UUIDs (row ids, lock tokens) are distinct by hypothesis.

## Findings

* **"Completed is final" and "one handler at a time" need a time bound.** `Release` and `Complete` check no
  owner. `RowRecordsExactly` says what the row means in any run: completed if and only if somebody has
  completed it since the latest Release. `ExclusionBreaksExactly` says of every run of well-behaved consumers
  that two handlers are ever at work at once if and only if some claim won later than its own lease after
  the claim time of a handler still at work, so a caller with a shorter lease than the holder's also breaks
  exclusion. `OverrunUndoesCompletion` is such a run, in which the overrunning handler then deletes the row
  another delivery has completed. Until a takeover all the promises hold, however long handlers take
  (`PromisesHoldUntilTakeover`, `SuccessesUntilTakeover`); from every takeover on, a completed row can be deleted
  with no further claim (`TakeoverCanUndoCompletion`). A common lease that every handler keeps rules
  takeovers out (`AtMostOneHandler`, `SuccessesAccounted`).
* **The event store needs the index that only the SQL script creates.** The GORM model declares a plain
  index, so a table made by `AutoMigrate` has none that is unique; `WithoutIndexBothCommit` is a run in
  which two appends with the same expected version both commit. The script's table in turn has no
  `schema_version` column, which every insert of `Append` names, so the script alone does not serve either.
* **Appends trust the caller's version numbers** and check the aggregate of the first event only.
  `NumberingIsUpToCallers` says for every batch and every aggregate when the versions stay 1..latest, and
  `MisnumberedCommits` and `MisnumberedElsewhere` show appends that are accepted and break them.
* **Late results count towards closing the breaker.** The comment asks for three consecutive successes; the
  code counts any three results reported since the half-open entry, also of calls admitted before the
  breaker opened (`LateResultsCanClose`). `FewestProbesExactly` says when three probes are needed: from a
  half-open entry on, the breaker can be closed after at most n probes if and only if n >= 1 and n plus the
  number of calls that could still report a success at the entry is at least three. So three probes are
  needed exactly when no such call was there. `ResetTimeout` is read from the configuration and never used.
* **The bulkhead's active counter can pass the limit**, so `AvailableSlots` can be negative. It never passes
  the number of calls in flight (`RunningBounded`), and for every limit and every excess there is a run that
  reaches that (`ActiveCanExceedLimit`). The number of running functions cannot pass the limit.
* **Extending a Redis lock by less than a millisecond deletes it** and reports success, because the duration is
  cut to whole milliseconds and PEXPIRE with zero deletes the key. After a successful Extend the caller
  holds the lock if and only if the extension is at least a millisecond (`ExtendHoldsExactly`), and otherwise
  anybody can acquire it at once (`ExtendFreesExactly`, with the run `ExtendLosesTheLock`).
* **A scope that contains a comma can grant more after storage.** `GenerateAPIKey` accepts any scopes
  (`auth/apikey.go:69-97`), and `"a,*"` is read back as `"a"` and `"*"` (`CommaGrantsAll`). `HasScopeSurvives` says for
  which lists no answer changes: those that grant every piece between their own commas.
* **A money column keeps no currency**, so `Value` then `Scan` is the identity for ringgit only (`ScanRoundTrip`),
  and 2^51 cents is the best bound the float error model gives (`BoundIsTight`).

## Model

| member | source | states |
|---|---|---|
| Outboxes.Exclusion | outbox/outbox.go:116-146 | in every interleaving a row is locked by at most one processor, and a locked row is in the table and unprocessed |
| Outboxes.Bookkeeping | outbox/outbox.go:116-146 | marks, lost marks, publishes in flight and retry counts of a row, as counted on the history, match the table in every legal history |
| Outboxes.PublishesAccounted | outbox/outbox.go:116-146 | successful publishes = [processed] + rollbacks after a publish + [in flight]; the retry count is the number of committed failures |
| Outboxes.ProcessedWasPublished | outbox/outbox.go:108-146 | a processed row was published at least once, and exactly once if and only if no rollback lost one of its marks |
| Outboxes.CleanupIsSafe | outbox/outbox.go:193-197 | cleanup deletes only rows that were published and none that a transaction holds |
| Outboxes.GoneWasPublished | outbox/outbox.go:193-197 | a row that has left the table was published |
| Outboxes.ClaimsAccounted | outbox/outbox.go:116-146 | claims of a row = its mark + its recorded failures + rollbacks + [held now], in every legal history |
| Outboxes.RowRemembers | outbox/outbox.go:116-146 | in every legal history a row of the table holds when it was inserted, when its mark was committed, how many failures were, and what the latest committed failure said |
| Outboxes.CleanupExactly | outbox/outbox.go:193-197 | cleanup deletes exactly the rows whose mark was committed with a time before the cutoff |
| Outboxes.ClaimsExactly | outbox/outbox.go:116-127 | a free processor claims exactly an oldest row among those that are unmarked, failed less often than the cap, held by nobody and not excluded, all counted on the history |
| Outboxes.DueIsClaimed | outbox/outbox.go:101-104 | whatever has happened to a row, it can be claimed exactly while it is unmarked, under the cap and not held: a failed row is attempted again |
| Outboxes.RollbackGivesBack | outbox/outbox.go:108-114 | a transaction may roll back whatever it has done, and its row can then be claimed again |
| Outboxes.FailsExactlyCapTimes | outbox/outbox.go:101-104 | a row whose publishes all fail is handed over and fails until it has failed exactly cap times, and is never claimed afterwards |
| Outboxes.RetryCap | outbox/outbox.go:101-143 | with all caps at most M, retry count + [processed] stays at most M, and every held row may still be attempted |
| Outboxes.HandsBounded | outbox/outbox.go:101-146 | a row is handed to the publisher at most M + R times, where R counts the rollbacks of transactions that held it |
| Outboxes.ExhaustedRowStays | outbox/outbox.go:101-104 | a row that has failed as often as the cap allows stays in the table, unchanged and with its error, in every longer history, and is never claimed again |
| Outboxes.BudgetStep | outbox/outbox.go:116-146 | each committed claim strictly lowers the total of M - retry count over waiting rows; only an insert raises it, by M |
| Outboxes.CommitsBounded | outbox/outbox.go:101-146 | N inserted rows allow at most N * M committed claims in any history |
| OutboxProcessors.Normalize | outbox/processor.go:51-71 | batch size and cap are positive after the defaults, and positive settings are kept |
| OutboxProcessors.Database.ProcessNext | outbox/outbox.go:116-146 | of the table that its SELECT sees, among other transactions with their locks: takes an oldest unprocessed row under the cap that is neither excluded nor locked, and none only when none is; hands it over and marks it processed, or with its error and one more retry; reports an error exactly when a statement fails; alone it touches nothing else |
| OutboxProcessors.Oldest | outbox/outbox.go:119-127 | the selected row is claimable, not skipped, and none older is |
| OutboxProcessors.TransactionIsLegal | outbox/outbox.go:116-146 | a whole transaction is three legal protocol steps that leave the selected row marked and nothing locked |
| OutboxProcessors.PicksOldest | outbox/outbox.go:119-127 | the order of attempts means: no row twice, only claimable rows, oldest first, none older left behind |
| OutboxProcessors.Processor.ProcessBatch | outbox/processor.go:110-147 | terminates; whatever others do, no row is handed over twice in a tick and at most batchSize are, and a tick ends with fewer only when a statement fails or no unprocessed row under the cap is free; alone, exactly the oldest min(batchSize, n) of them are attempted |
| OutboxProcessors.TickSpendsBatch | outbox/processor.go:110-147 | a tick that passes a claimable row over spends its whole batch on rows no younger |
| OutboxProcessors.WaitingSpends | outbox/processor.go:110-147 | k ticks that pass a row over spend k batches of its rivals' remaining attempts, with newer inserts and cleanup between ticks |
| OutboxProcessors.BoundedDelay | outbox/processor.go:110-147 | a claimable row with p claimable rows ordered at or before it is attempted within p * M / B + 1 ticks, whatever publishes fail |
| Idempotency.EffectiveLease | eventsourcing/idempotency.go:183-186 | a lease that is not positive becomes two minutes; others are kept |
| Idempotency.RowRecordsExactly | eventsourcing/idempotency.go:57-246 | in every interleaving the row exists if and only if somebody has claimed or marked since the latest Release, and is completed if and only if somebody has completed it since: only a Release reopens an event |
| Idempotency.RowRemembers | eventsourcing/idempotency.go:57-246 | the row holds exactly the time of the claim or mark that opened the event since the latest Release, and of its completion |
| Idempotency.AnswersExactly | eventsourcing/idempotency.go:57-246 | every answer, from the history alone: a claim wins exactly on an event that is not open or was opened more than its lease ago and not completed; a losing claim hears "completed" or how long to wait, a second at least; Complete and CheckAndMark say what they found |
| Idempotency.ClaimRuns | eventsourcing/idempotency.go:170-225 | a delivery that starts to claim is answered from every reachable state, and then its handler is at work with its claim in the row, or it has left no trace, exactly as the history decides |
| Idempotency.PhasesRemember | eventsourcing/idempotency.go:183-225 | the statements of one claim agree on its time and lease, and a handler at work on its claim time |
| Idempotency.CompletedAnswerIsEarned | eventsourcing/idempotency.go:205-219 | "completed" is answered exactly when some delivery has completed the pair with no Release since, over every interleaving |
| Idempotency.ClaimTimeGrows | eventsourcing/idempotency.go:190-197 | without a release the row stays and its claim time only grows |
| Idempotency.AcquisitionsApart | eventsourcing/idempotency.go:183-203 | two acquisitions with no release between them are more than the later caller's lease apart |
| Idempotency.OneWinner | eventsourcing/idempotency.go:170-203 | a claim that finds the pair fresh or stale wins, and until a Release no other claim made within its own lease of it does, whatever clock reads, completions, answers and crashes come between |
| Idempotency.RetryAfterSuffices | eventsourcing/idempotency.go:217-224 | with the row unchanged a same-lease claim wins if and only if it is strictly after the lease, and any claim after RetryAfter is |
| Idempotency.ExclusiveStep | eventsourcing/idempotency.go:125-246 | each step of a disciplined consumer keeps one handler at work with its claim in the row; Complete finds a claim, Release removes the caller's own, completed rows stay |
| Idempotency.AtMostOneHandler | eventsourcing/idempotency.go:131-203 | if every handler ends within the common lease, at most one works at any time, in every run |
| Idempotency.DisciplinePays | eventsourcing/idempotency.go:125-246 | under that discipline Complete never reports a missing claim, Release removes only the caller's claim, a completed row never changes |
| Idempotency.PromisesHoldUntilTakeover | eventsourcing/idempotency.go:125-246 | the same promises in every run of proper consumers, with no time bound, as long as no claim has won over a handler still at work |
| Idempotency.TakeoverCanUndoCompletion | eventsourcing/idempotency.go:125-129 | from every such takeover some run of proper consumers, with no further claim, deletes a completed row |
| Idempotency.SuccessesUntilTakeover | eventsourcing/idempotency.go:227-246 | without takeovers successful handler runs = [completed] + [about to complete] + crashes between success and Complete, so at most one without such crashes |
| Idempotency.SuccessesAccounted | eventsourcing/idempotency.go:227-246 | so in particular when every handler ends within the common lease |
| Idempotency.HandlerRunsAsked | eventsourcing/idempotency.go:57-203 | in every interleaving a handler is put to work, by Claim or CheckAndMark, at most once for each delivery that asks |
| Idempotency.ExclusionBreaksExactly | eventsourcing/idempotency.go:177-203 | in every run of proper consumers, two handlers are ever at work at once if and only if some claim won later than its lease after the claim time of a handler still at work |
| Idempotency.OverrunUndoesCompletion | eventsourcing/idempotency.go:125-129 | a run of proper consumers in which two handlers are at work and the overrunning one's Release deletes a completed row |
| Idempotency.IdempotencyChecker.CheckAndMark | eventsourcing/idempotency.go:57-74 | inserts a completed row exactly when there was none, and says so; other rows untouched |
| Idempotency.IdempotencyChecker.Claim | eventsourcing/idempotency.go:183-225 | acquires exactly when the row is absent or an expired claim; otherwise answers for the row as the second statement finds it, with others acting in between |
| Idempotency.IdempotencyChecker.Complete | eventsourcing/idempotency.go:234-246 | completes exactly an in-flight claim and reports ErrNoClaim otherwise |
| Deliveries.HandlingBounded | nats/jetstream.go:246-256 | over processors and consumers together: a handler, of Claim or of CheckAndMark, is put to work on a row at most MaxDeliver * (M + R) times per consumer, for a retry cap M and R rollbacks of processors that held the row |
| Deliveries.AtMostOneSuccessPerConsumer | outbox/processor.go:149-166 | of those handler runs at most one succeeds while no delivery takes over from a handler at work, plus the ones lost to crashes after success, and none runs for a row never handed over |
| EventStores.FirstInsert | eventsourcing/postgres_store.go:77-100 | the unique index lets a transaction start inserting into an aggregate only while its version there is the next one and nobody else is inserting there |
| EventStores.AlwaysSound | eventsourcing/postgres_store.go:53-109 | for batches across any aggregates and any aggregate that callers number well: in every interleaving it is numbered 1..latest and at most one open transaction has inserted into it |
| EventStores.RowsAreCommittedBatches | eventsourcing/postgres_store.go:53-109 | an aggregate's rows are its events of the committed batches, whole and in commit order, in every interleaving; with versions exactly 1..latest when callers number it well |
| EventStores.CommitIsNext | eventsourcing/postgres_store.go:62-75 | only a batch that directly follows the committed events, in each of its aggregates, can commit |
| EventStores.OneBatchPerVersion | eventsourcing/postgres_store.go:320-322 | of racing appends no two committed batches ever share a version of an aggregate |
| EventStores.NumberingIsUpToCallers | eventsourcing/postgres_store.go:60-95 | for any batch, also across aggregates, and any aggregate: the stored versions stay 1..latest if and only if the batch numbers its events of that aggregate from latest + 1 |
| EventStores.MisnumberedCommits | eventsourcing/postgres_store.go:60-95 | an append of a single event of any version but 1 to the empty store is accepted and breaks the numbering |
| EventStores.MisnumberedElsewhere | eventsourcing/postgres_store.go:60-95 | so is one whose first event is right while a later one, of another aggregate, is not version 1 |
| EventStores.WithoutIndexBothCommit | eventsourcing/postgres_store.go:15-50 | without the unique index two appends with the same expected version can both commit |
| EventStores.LoadIsCommitted | eventsourcing/postgres_store.go:112-150 | whatever a load query returns is the concatenation of the committed batches from the asked version |
| EventStores.LoadGivesBack | eventsourcing/postgres_store.go:112-150 | in every reachable state a load gives the appended events of the aggregate from the asked version, field by field, with a missing schema version as 1 |
| EventStores.AppendThenLoad | eventsourcing/postgres_store.go:53-150 | a load right after an append gives the events of the batch back, field by field |
| EventStores.SnapshotIsLastSaved | eventsourcing/postgres_store.go:248-295 | the stored snapshot is the one saved last, whatever its version, unless a Delete has asked since for everything below a later version |
| EventStores.AbortLeavesNothing | eventsourcing/postgres_store.go:58-108 | an open append may end at any point without a trace |
| EventStores.SnapshotsStayFaithful | eventsourcing/postgres_store.go:248-266 | a snapshot that was the fold of the first v events when saved still is in every later state, also after an older one replaced a newer one |
| EventStores.SnapshotReplay | eventsourcing/postgres_store.go:269-288 | folding LoadFrom(v + 1) onto the stored snapshot equals folding the full Load, in every reachable state |
| EventStores.AppendIsLegal | eventsourcing/postgres_store.go:53-109 | a successful Append is a legal run of the protocol with the same rows |
| EventStores.LetInMeans | eventsourcing/postgres_store.go:320-322 | the index admits a batch if and only if no event has the key of a row or of an earlier event |
| EventStores.NextIsAdmitted | eventsourcing/postgres_store.go:77-100 | the index admits every batch that numbers each of its aggregates from the latest version on |
| EventStores.PostgresEventStore.InsertAll | eventsourcing/postgres_store.go:77-100 | the insert loop, with commits of others before each insert, yields the whole batch when the index admits it after what others have committed, and is refused only when it does not |
| EventStores.PostgresEventStore.Append | eventsourcing/postgres_store.go:53-109 | all or nothing on any batch while others commit: the batch is stored whole, with every field, after all that others committed; the version check decides on the rows it saw, the index on those before the batch, and it fails otherwise exactly when a statement does |
| EventStores.PostgresEventStore.LoadFrom | eventsourcing/postgres_store.go:117-150 | the matching rows in ascending version order, with every field, and a missing schema version as 1 |
| RedisLocks.HoldsExactly | lock/redis_lock.go:44-110 | in every timed run the client in the live key is exactly the one inside the validity of its last Acquire or Extend, not released, and the key expires when that ends |
| RedisLocks.AnswersExactly | lock/redis_lock.go:44-110 | every answer from what the clients have been told: an Acquire is granted exactly when nobody is inside its validity, a Release or an Extend exactly to the one who is |
| RedisLocks.SoleHolder | lock/redis_lock.go:44-110 | at most one client is inside its validity at any time |
| RedisLocks.OthersChangeNothing | lock/redis_lock.go:73-110 | meanwhile every Acquire, Release and Extend of anyone else is refused and changes nothing |
| RedisLocks.ExtendHoldsExactly | lock/redis_lock.go:94-110 | until its next call, a client whose Extend has succeeded holds the lock exactly for the whole milliseconds of the extension, so at the time of the answer if and only if that is at least one |
| RedisLocks.ExtendFreesExactly | lock/redis_lock.go:94-110 | right after a successful Extend another client's Acquire is granted if and only if the extension was less than a millisecond |
| RedisLocks.ExtendLosesTheLock | lock/redis_lock.go:94-110 | a run in which Extend answers ok and another client acquires at once |
| RedisLocks.BodiesDisjoint | lock/redis_lock.go:112-121 | two WithLock bodies on one key that end within their TTL never overlap |
| RedisLocks.OverrunOverlaps | lock/redis_lock.go:112-121 | a body that outlives its TTL can overlap another |
| RedisLocks.RedisLock.TryAcquire | lock/redis_lock.go:65-71 | succeeds exactly when the key is not live, and then holds it for the TTL |
| RedisLocks.RedisLock.AcquireWithRetry | lock/redis_lock.go:44-62 | for every script of failing commands and context ends: which outcome after which attempt follows from the script and from which attempts met a live key; a free key and a reachable server give the lock at the first attempt; success means holding for a full TTL, any other outcome not holding |
| RedisLocks.RedisLock.ReleaseLock | lock/redis_lock.go:74-91 | deletes the key exactly when it is live with the caller's token |
| RedisLocks.RedisLock.ExtendLock | lock/redis_lock.go:94-110 | succeeds exactly when the key is live with the caller's token, and then leaves the caller in it exactly when the extension is at least a millisecond |
| CircuitBreakers.Normalize | resilience/circuit_breaker.go:61-77 | each positive setting is kept, each other one becomes five failures or thirty seconds |
| CircuitBreakers.StateFollowsFailures | resilience/circuit_breaker.go:156-193 | the breaker is not closed if and only if failures >= MaxFailures, under all late results and resets |
| CircuitBreakers.ClosedCountsTrailingFailures | resilience/circuit_breaker.go:156-193 | while closed, the counter is the run of failures at the end of the history |
| CircuitBreakers.OpensExactly | resilience/circuit_breaker.go:156-168 | a closed breaker opens exactly on the result that completes MaxFailures failures in a row, and never goes half-open |
| CircuitBreakers.HalfOpenHistory | resilience/circuit_breaker.go:110-141 | a half-open breaker entered from open, stayed half-open, and saw no failure or reset and exactly its counted successes since |
| CircuitBreakers.ClosesExactly | resilience/circuit_breaker.go:178-193 | a breaker that is not closed closes exactly on a reset or on the third success since the latest half-open entry with no failure between |
| CircuitBreakers.ProbeBound | resilience/circuit_breaker.go:110-175 | from opening until it closes, admitted calls * min(1 second, Timeout) <= elapsed time, whatever late results arrive |
| CircuitBreakers.HalfOpenAfterTimeout | resilience/circuit_breaker.go:120-129 | an open breaker goes half-open exactly on an arrival more than Timeout after the latest failed result, and admits it |
| CircuitBreakers.AdmitsExactly | resilience/circuit_breaker.go:110-141 | from the history alone: a closed breaker lets every call through, an open one exactly those more than Timeout after the latest failure, a half-open one exactly those at least a second after the latest call let through; and which refusal each other call gets |
| CircuitBreakers.LateResultsCanClose | resilience/circuit_breaker.go:178-193 | a run in which the breaker closes after a single admitted probe |
| CircuitBreakers.CircuitBreaker.BeforeRequest | resilience/circuit_breaker.go:110-141 | adds an arrival to the object's history, and admits exactly the calls that this history lets through; a closed breaker admits all |
| CircuitBreakers.CircuitBreaker.AfterRequest | resilience/circuit_breaker.go:144-193 | adds a result to the object's history, which determines its fields |
| CircuitBreakers.CircuitBreaker.ResetBreaker | resilience/circuit_breaker.go:224-233 | adds a reset to the object's history: closed, counters cleared, times kept |
| Bulkheads.Normalize | resilience/bulkhead.go:52-62 | a positive limit is kept, any other becomes ten |
| Bulkheads.AlwaysCounted | resilience/bulkhead.go:84-140 | slots and counters count exactly the calls at the matching stages, in every interleaving of the sub-steps |
| Bulkheads.WaitingDecides | resilience/bulkhead.go:84-132 | a waiting call can take a slot exactly while fewer calls than the limit hold one; failing fast it is refused exactly otherwise, with a timer it may be refused or cancelled at any time |
| Bulkheads.RunningBounded | resilience/bulkhead.go:72-140 | at most MaxConcurrent functions run; active = slots - acquired not yet counted + released not yet uncounted, and is at most the number of calls in flight |
| Bulkheads.Quiescence | resilience/bulkhead.go:84-140 | when all calls are over, active = 0 and totalCalls = finished + rejected + cancelled |
| Bulkheads.ActiveCanExceedLimit | resilience/bulkhead.go:150-152 | for every limit M and every k there is a run with active = calls in flight = M + k |
| Bulkheads.AcquireIsLegal | resilience/bulkhead.go:84-98 | an uninterrupted acquire is a legal run with the counters the method leaves |
| Bulkheads.Bulkhead.Acquire | resilience/bulkhead.go:84-132 | counts the call; failing fast admits exactly when a slot is free, waiting exactly when one is and neither timer nor context comes first; says which of them refused, and counts rejections but not cancellations |
| Bulkheads.Bulkhead.Release | resilience/bulkhead.go:135-140 | gives back the slot and the count |
| Retries.Normalize | resilience/retry.go:40-61 | each valid setting is kept, each other one becomes its default |
| Retries.ExecuteWithContext | resilience/retry.go:71-118 | at most MaxAttempts calls; all but the last were retried, the context was live before each, and the result is what the last attempt or the context gave |
| Retries.ExplanationUnique | resilience/retry.go:71-118 | that description determines the result and the number of calls |
| Retries.CallsExactly | resilience/retry.go:71-133 | under a context that never ends the function is called until it succeeds, fails with an error that a non-empty list does not hold, or has used up its attempts, and its last answer is the result |
| Retries.AlwaysFailingUsesAllAttempts | resilience/retry.go:94-117 | an always failing retryable function is called exactly MaxAttempts times and its last error returned |
| Retries.DelayBounds | resilience/retry.go:136-150 | the delay is between 0 and MaxDelay, jitter included, and within the jitter of the exponential backoff below the cap |
| Retries.DelayExactly | resilience/retry.go:136-150 | the backoff starts at the initial delay and is multiplied per attempt; the delay is the jittered backoff, and the maximum exactly when that is no shorter |
| Executors.BreakerLayer | resilience/executor.go:109-141 | the breaker inside the executor behaves as its own history says, so all breaker laws carry over |
| Executors.BulkheadLayer | resilience/executor.go:109-141 | and so does the bulkhead |
| Executors.CallHistory | resilience/executor.go:109-141 | each call's function calls, reports and success, counted on the history, match its state |
| Executors.CompositionLaw | resilience/executor.go:109-141 | over every interleaving: at most MaxAttempts calls per execution, exactly one report equal to the retry result, none of either after a refusal |
| Executors.AtMostMaxConcurrent | resilience/executor.go:132-141 | at most MaxConcurrent functions run at once inside the executor, in every interleaving |
| Executors.RetryIsLegal | resilience/executor.go:116-122 | whatever the retry loop does is a legal run of the call, with its result and number of calls |
| Executors.CallsBeforeOpening | resilience/executor.go:109-141 | for an always failing function, under concurrency, when the circuit opens the function was called exactly MaxFailures * MaxAttempts times plus the calls made by those still at work, which is none when nobody is |
| Executors.Executor.Execute | resilience/executor.go:109-141 | for every combination of enabled layers, with other calls in between: the bulkhead refuses exactly when no slot is free or the wait ends first, and says why; otherwise the call runs exactly when the breaker lets it through at the point where it asked; refusals call and report nothing, an admitted call later reports its retry result, and the slot is given back; alone, nothing else happens to either |
| ExecutorProbes.ThreeProbes | resilience/circuit_breaker.go:178-193 | a closing success is the third result since the half-open entry; admitted probes plus results of calls that could already succeed at the entry are at least three, and probes are a second apart: without such calls, three probes and two seconds |
| ExecutorProbes.FewestProbesExactly | resilience/circuit_breaker.go:178-193 | from any half-open entry the breaker can be closed after at most n probes if and only if n >= 1 and n plus the calls that could already succeed at the entry are at least three |
| ExecutorProbes.CanClose | resilience/executor.go:109-141 | the runs that reach that: late calls report, leave the bulkhead, and new probes enter a second apart |
| Moneys.Wrap | domain/money.go:291-292 | int64 wrap-around: in range, congruent, and the identity exactly in range |
| Moneys.CentsRoundTrip | domain/money.go:39-85 | cents to Amount to NewMoney is the identity below 2^51 cents for every rounding within the binary64 error |
| Moneys.BoundIsTight | domain/money.go:39-85 | at 2^51 cents some rounding within that error is a cent off |
| Moneys.JsonRoundTrip | domain/money.go:252-273 | the JSON round trip is the identity if and only if the currency is named |
| Moneys.ScanRoundTrip | domain/money.go:277-290 | Value then Scan is the identity if and only if the currency is MYR |
| Moneys.ScanInteger | domain/money.go:291-292 | an int64 column is read as whole units exactly while a hundred times it fits |
| Moneys.EveryFormIsRead | domain/money.go:260-309 | an amount given back as float, text or bare number is the same cents in ringgit, as an object in its currency; NULL and null are zero ringgit; other types and text that is no number are refused |
| Moneys.Round | domain/money.go:39-45 | to the nearest integer, halves away from zero |
| Moneys.Receiver.Scan | domain/money.go:282-309 | assigns the scanned value, or fails and leaves the receiver alone |
| Moneys.Receiver.Unmarshal | domain/money.go:260-273 | assigns the decoded value, or fails and leaves the receiver alone |
| Moneys.SumMoney | domain/money.go:338-352 | a sum exists if and only if all currencies equal the first, and is the exact total while no partial sum overflows |
| TrustedProxies.WithinIsInclusion | middleware/trusted_proxies.go:60-68 | the containment test on masked address and lengths is exact set inclusion |
| TrustedProxies.AcceptedExactly | middleware/trusted_proxies.go:44-75 | an entry is accepted if and only if its address set lies in one of the six ranges, if and only if every address in it is private |
| TrustedProxies.PrivateMeans | middleware/trusted_proxies.go:15 | an address is private exactly when its leading bits are those of 127, 10, 172.16 to 172.31 or 192.168, or of fc or fd, or it is ::1 |
| TrustedProxies.PrivateProxyList | middleware/trusted_proxies.go:44-75 | a blank setting trusts nobody; otherwise the list is accepted if and only if every entry parses and is accepted, and then holds the masked entries in order |
| TrustedProxies.AcceptedListMeans | middleware/trusted_proxies.go:44-75 | an accepted list trusts exactly the union of its entries, all private |
| Scopes.JoinScopes | auth/apikey_store.go:166-175 | the joining loop computes the comma separated form |
| Scopes.SplitScopes | auth/apikey_store.go:177-197 | the splitting loop computes the specified split |
| Scopes.JoinThenSplit | auth/apikey_store.go:166-197 | splitting a joined list gives the non-empty pieces between the commas of its scopes, in order, whatever they contain |
| Scopes.RoundTripExactly | auth/apikey_store.go:166-197 | that is the list itself if and only if no scope is empty and none contains a comma |
| Scopes.SplitJoinSplit | auth/apikey_store.go:166-197 | what was read from any stored text survives being stored again |
| Scopes.GrantsExactly | auth/apikey.go:131-147 | a wildcard grants itself and whatever starts with its prefix and colon, "*" everything, any other scope itself only |
| Scopes.GrantsTransitive | auth/apikey.go:131-147 | what a granted scope grants is granted too, wildcards included |
| Scopes.HasScopeSurvives | auth/apikey.go:131-147 | storage never revokes a plain scope, and changes no answer about one if and only if the list itself grants every piece between its commas |
| Scopes.EveryAnswerSurvives | auth/apikey.go:131-147 | no answer changes at all, not even about the empty scope or one with a comma, if and only if moreover the stored list grants every scope of the given one |
| Scopes.CommaGrantsAll | auth/apikey_store.go:166-197 | the list with the one scope "a,*" grants only that before storage and everything after it |
| Scopes.HasAnyScopeSurvives | auth/apikey.go:150-157 | HasAnyScope answers the same after storage for every list of plain required scopes if and only if the same condition holds |

## Left out

- Lock-free outbox helpers (`GetUnprocessedEvents`, `GetFailedEvents`, `MarkProcessed`, `MarkFailed`): unused by the processor; calling them beside it breaks its guarantees.
- A publish that reports an error after the broker stored the message: it counts as a failed publish; the handed-over log of `Deliveries` covers it on the consumer side.
- JetStream's duplicate window, redelivery timing, dead-letter routing and acknowledgements: a message is delivered at any times, at most MaxDeliver times to a consumer.
- Postgres stores timestamps in microseconds while the lease is computed in nanoseconds: all times are one integer unit.
- The second unique index of the event store, on event ids: a violation is one more way to abort, which every history allows.
- Isolation levels other than READ COMMITTED, and deadlocks between appends to several aggregates: a blocked insert simply does not happen yet.
- Replies of Redis lost after the command ran, TTLs that are not positive or not whole milliseconds, and clock jumps of the server.
- Panicking callbacks, overflow of statistics counters, NaN and infinity, `waitingTime`, logging.
- NewMoney: an amount outside int64 is wrapped, where the result of the Go conversion depends on the platform; no theorem is about such amounts.
- Float overflow and subnormal numbers: amounts stay inside the range of normal numbers.
- Parsing of addresses, numbers and JSON text, and invalid UTF-8 in scopes.
- `ExecutorGroup`, `BulkheadGroup`, `LockManager`, the other arithmetic of `Money` and the remaining packages: easy members or wrappers of libraries.
