# Verification of the background queues, the user cache, the rate limiter and the list endpoints

This project models the stateful parts of the starter kit in Dafny and proves what they keep over whole runs.
`dafny verify dfyconfig.toml` checks all of it.

| files | what they model |
|---|---|
| `GoInt.dfy` | int64 arithmetic and the retry delay |
| `JobTable.dfy`, `JobProtocol.dfy` | the `jobs` table and the database queue as a state machine over all workers |
| `JobSafety.dfy`, `JobOutcomes.dfy`, `JobSchedule.dfy`, `JobIsolation.dfy` | its properties over all jobs, and what becomes of one job |
| `JobHazards.dfy`, `JobLimits.dfy` | the runs that show why the hypotheses are needed, that the bounds are attained, and where they end |
| `JobSplitClaim.dfy` | the claim as a SELECT and a Save with other steps in between |
| `DatabaseDriver.dfy`, `QueueCore.dfy` | the driver object, the handler registry and the execution of a job |
| `PoolProtocol.dfy`, `WorkerPool.dfy`, `MemoryQueue.dfy` | the in-process pools around a buffered channel, the synchronous driver |
| `RedisQueue.dfy`, `RedisOutcomes.dfy` | the Redis list queue, and what becomes of one job there |
| `UserCache.dfy`, `UserRecords.dfy`, `CacheRace.dfy` | the user use cases with their read-through cache, what they do to later replies, and the cache under all interleavings |
| `RateLimit.dfy` | the per-IP limiter with its sweep |
| `SplitTrim.dfy` | the configuration's list parser |
| `Pages.dfy`, `PageTies.dfy` | paging through users, with one row order and with a new one for each query |

## How to read the model

* A protocol is a `State`, an `Event`, `Enabled` and `Apply`; `Valid` says that a sequence of events is a run and
  `Exec` gives its last state. Every event happens at one instant of one clock: a time that the code samples and the
  write that uses it are one step. Sections under a mutex and transactions are single steps.
* The Go objects are classes with the same fields. Their methods are proved against the functions that the state
  machines apply. For the database queue `DatabaseDriver.InterleavedRun` carries this to whole runs: any interleaving
  of the methods of any drivers and workers on one table leaves the table as the run of the state machine does. For
  the pools each critical section is a method and a step; their interleaving is the state machine's.
* `UserCache.CacheTransparency` allows requests with any clock readings from a time t on, in any order;
  `UserCache.UnobservableIff` asks about requests whose clock readings do not decrease.
* Clock readings, handler results, failures of the database or of Redis, and the ids and hashes handed out by
  libraries are parameters.
* The claim of the database queue is one atomic step, which is what its transaction gives on SQLite with a single
  connection (`pkg/database/database.go:121-123`). On other databases it is an assumption: the SELECT takes no row
  lock. `JobSplitClaim.dfy` drops it: mutual exclusion still holds if every Save finds its row as the SELECT read it
  (`UnchangedSavesExclude`), and fails from every state with a row to claim if two SELECTs come first
  (`SplitClaimOverlaps`).
* "Orderly" (`JobProtocol.OrderlyFor`) means, of one job in one run, that each final write to its row is made by the
  worker that was the last to claim it. "On time" (`JobProtocol.OnTime`) means that each final write of the run lands
  at most 600 s after its claim. Workers that never finish, crash, or lose their write are allowed in both. Every job
  is orderly in an on-time run (`JobSafety.OnTimeIsOrderly`), and a job that is never reclaimed is orderly in every run
  (`JobSafety.NeverReclaimedIsOrderly`). `JobHazards.LateWriterBreaksExclusion` is a run that breaks mutual exclusion
  because it is neither, and `JobHazards.ExclusiveWithinIff` says how late is too late. The rows below say which results
  suppose one of the two.
* `JobProtocol.Track` and the last fields of the other states are history: they record what happened and no step reads
  them.

## What differs from the documentation

* `pkg/queue/driver_database.go:205` and `README.md:337` announce retries after 2, 4, 8 s. The code waits 4, 8, 16 s.
* From attempt 33 on the int64 product overflows and the first such delay is negative. Retry delays are positive, and
  double, exactly when the attempt limit is at most 33.
* For the same reason a retry can get ahead of jobs that have waited longer, and the schedule of the retries ends, when
  limits above 33 are configured: `JobLimits.BypassBoundedIff` and `JobLimits.BackoffScheduleIff` say exactly when.
* The attempt limit of a database job is passed exactly when a claim takes its row with all attempts used up, because
  the claim query does not look at the limit; for an orderly job that is always the reclaim of a stale row
  (`JobSafety.LimitPassedIff`). With n crashes a job with limit m runs
  m + n times (`JobLimits.LimitAttained`).
* The Redis driver keeps its attempt limit exactly when that limit is 1. With any larger limit a failing job is retried
  forever, every 4 s, because the retry is a new message with no attempts.
* The memory driver panics exactly in the runs in which a dispatch, or a delayed one, comes after Stop.
* Deleting a user's cache key after a write keeps the old value out of the cache exactly when every reader that
  straddles the write has made its cache write before the delete (`CacheRace.WriteKeepsOutIff`); one that is later puts
  the old value back for ten minutes.
* `total_pages` is computed from the page size as sent, the window from the clamped one; they fit together exactly
  under the condition of `Pages.CoversIff`.
* The user list is ordered by `created_at` alone. If rows tie across a page boundary, a user can be shown twice and
  another one not at all (`PageTies.AlwaysCoversIff`).

## Model

| member | source | states |
|---|---|---|
| GoInt.BackoffExactIff | pkg/queue/driver_database.go:206-207 | the delay after attempt n, in int64 arithmetic, is 2^(n+1) s exactly when n <= 32 |
| GoInt.BackoffOverflows | pkg/queue/driver_database.go:206-207 | the delay after attempt 33 is a negative number of nanoseconds |
| GoInt.RetryDelaysPositiveIff | pkg/queue/driver_database.go:204-207 | all delays a job can be given are positive exactly when its attempt limit is at most 33 |
| GoInt.RetryDelaysDoubleIff | pkg/queue/driver_database.go:204-207 | each delay is twice the one before exactly when the attempt limit is at most 33 |
| JobTable.PickBelow | pkg/queue/driver_database.go:162-168 | the claim query returns the eligible row that comes first by available_at and id, and nothing only if no row is eligible |
| JobSafety.NoJobLost | pkg/queue/driver_database.go:95-97 | in every run, with crashes, lost and late writes, a dispatched job is still a row or one of its own handler runs returned nil |
| JobSafety.AttemptsCountRuns | pkg/queue/driver_database.go:177-183 | in every run the attempts column equals the number of handler runs, and name, payload, queue and limit never change |
| JobOutcomes.DelayIsKept | pkg/queue/driver_database.go:71-101 | a dispatched job keeps its queue, name, payload and limit; in every continuation no handler gets it before its delay is over, and until one gets it, it may be claimed exactly from then on |
| JobOutcomes.DeletedIff | pkg/queue/driver_database.go:195-228 | in every run the row of a dispatched job is gone exactly when a worker of it has made its final write after a nil result |
| JobOutcomes.SuccessIsFinal | pkg/queue/driver_database.go:195-199 | after such a write the job is gone in every continuation and is never handed to a handler again |
| JobOutcomes.FailureReschedules | pkg/queue/driver_database.go:204-227 | after an error the row stays; with attempts left it may be claimed exactly once the delay has passed, 2^(n+1) s after attempt n <= 32, and with none left never |
| JobOutcomes.OthersStay | pkg/queue/driver_database.go:195-228 | a final write changes no other row |
| JobSafety.MutualExclusion | pkg/queue/driver_database.go:158-193 | a worker within its lease whose job is orderly finds the row processing with exactly its own reservation, and no other worker within its lease holds the job; so in every on-time run no two of them share a row |
| JobSafety.OnTimeIsOrderly | pkg/queue/driver_database.go:158-228 | every job is orderly in every on-time run |
| JobSafety.NeverReclaimedIsOrderly | pkg/queue/driver_database.go:158-228 | a job that is never reclaimed is orderly in every run, however late any final write is |
| JobLimits.DeadlineIsOnTimeIff | pkg/queue/driver_database.go:190-193 | when handlers return within 60 s of their claim and the final write takes at most a given time more, all runs are on time exactly when that time is at most 540 s |
| JobSafety.AttemptAccounting | pkg/queue/driver_database.go:204-227 | an orderly job has attempts below the limit while pending and none left when failed, and its attempts exceed the limit at most by the stale reclaims since its last claim from pending |
| JobSafety.LimitPassedIff | pkg/queue/driver_database.go:163-177 | in every run a job runs more often than its limit exactly when some claim takes its row with all attempts used up; for an orderly job that is the reclaim of a stale row |
| JobLimits.LimitAttained | pkg/queue/driver_database.go:163-177 | for every limit m and every n an on-time run from the empty table hands a job with limit m to a handler m + n times, the last n after stale reclaims |
| JobSafety.FailingJobRunsExactlyMax | pkg/queue/driver_database.go:204-227 | in every run, a job that never succeeds and is never reclaimed stays in the table and has run exactly max_attempts times when it is failed |
| JobSafety.FailedAbsorbs | pkg/queue/driver_database.go:218-227 | the row of a failed job stays exactly as it is in every continuation in which the job is orderly |
| JobSafety.Recoverable | pkg/queue/driver_database.go:159-165 | a row that has not failed becomes claimable after some wait, a processing one at the latest just after its lease |
| JobSchedule.WorkIsBounded | pkg/queue/driver_database.go:154-231 | without dispatches, the claims of pending rows and the final writes of any run in which all jobs are orderly number at most the potential at its start, whatever stale reclaims happen |
| JobSchedule.QuiescentIff | pkg/queue/driver_database.go:197-227 | the potential is zero exactly when all rows that are left have failed |
| JobSchedule.BoundedBypass | pkg/queue/driver_database.go:162-168 | when no limit of the queue is above 33, then from the time a row is eligible and as long as it is neither claimed nor written by an earlier worker of its own, the other claims of its queue number at most the pending rows ahead of it plus the stale reclaims, whatever late writes other rows get |
| JobSchedule.OnTimeLeavesAlone | pkg/queue/driver_database.go:158-228 | in an on-time run an eligible row is written by nobody until it is claimed |
| JobLimits.BypassBoundedIff | pkg/queue/driver_database.go:204-217 | that bound holds in all runs whose limits are at most m exactly when m is at most 33 |
| JobLimits.OverflowJumpsAhead | pkg/queue/driver_database.go:204-217 | an on-time run of less than six hours with limit 34, in which a job that nothing is ahead of is overtaken by another after the thirty-third run of that one fails |
| JobSchedule.BackoffSchedule | pkg/queue/driver_database.go:204-217 | in every run and for every limit, run k <= 33 of a job that is never reclaimed starts no earlier than 2^(k+1) - 4 s after it first became available |
| JobLimits.BackoffScheduleIff | pkg/queue/driver_database.go:204-217 | run k keeps that schedule in all runs exactly when k is at most 33 |
| JobIsolation.QueueIsolation | pkg/queue/driver_database.go:83-93 | the steps of one queue in any run on the shared table are a run of that queue alone, with the same rows, claims and history |
| JobHazards.LateWriterBreaksExclusion | pkg/queue/driver_database.go:211-217 | a run with one late final write ends with two workers within their lease on one row |
| JobHazards.OverlapNeedsLateWrite | pkg/queue/driver_database.go:158-193 | two workers within their lease share a row only in runs that are not on time and in which some job is not orderly |
| JobHazards.ExclusiveWithinIff | pkg/queue/driver_database.go:158-217 | no run whose final writes come at most d after their claims ends with two workers within their lease on one row, exactly when d is at most the lease of 600 s |
| JobSplitClaim.UnchangedSavesExclude | pkg/queue/driver_database.go:158-184 | when the SELECT and the Save of a claim may have other steps between them, on-time runs in which each Save finds the row as it was read keep mutual exclusion |
| JobSplitClaim.SaveIsClaim | pkg/queue/driver_database.go:158-184 | a Save that finds its row unchanged is the claim of a row that is still eligible |
| JobSplitClaim.SplitClaimOverlaps | pkg/queue/driver_database.go:162-183 | otherwise, from every state with a row to claim, two idle workers can take it together in an on-time run: it runs twice and one run is not counted |
| DatabaseDriver.Driver.constructor | pkg/queue/driver_database.go:39-65 | the defaults of queue name, concurrency, attempt limit and poll interval |
| DatabaseDriver.Driver.DispatchDelayed | pkg/queue/driver_database.go:71-101 | adds one pending row with the given name, payload, queue and limit under the next id, available now or after the delay; on an encoding or insert error nothing changes |
| DatabaseDriver.Driver.Reserve | pkg/queue/driver_database.go:158-184 | claims the first eligible row: it is processing, has one more attempt and the time of the claim, and no other row changes; it claims nothing exactly when none is eligible or the transaction fails |
| DatabaseDriver.Driver.Settle | pkg/queue/driver_database.go:195-228 | after a nil result the row of the claimed id is gone, after an error it is pending with its delay or failed, and no other row changes; a failed write changes nothing |
| DatabaseDriver.Driver.ProcessNextJob | pkg/queue/driver_database.go:154-231 | one claim, one execution of its handler and one final write; the row is gone exactly when the handler exists and returned nil, unless the write failed; without a job nothing changes |
| DatabaseDriver.RoundOutcome | pkg/queue/driver_database.go:154-231 | what a turn leaves: the row gone, pending again with its delay, failed, or still processing when the write is lost; no other row changes and one handler is called |
| DatabaseDriver.Driver.WorkerLoop | pkg/queue/driver_database.go:126-151 | a worker takes turns, each as RoundOutcome says, until it sees the quit signal, at the head of its loop or while it waits after a turn that found no job or whose claim failed |
| DatabaseDriver.Driver.Start | pkg/queue/driver_database.go:107-124 | starts the configured number of workers once, and nothing when already running |
| DatabaseDriver.Driver.Stop | pkg/queue/driver_database.go:233-259 | stops once, reports a timeout, and panics exactly when a driver restarted after a Stop is stopped again |
| DatabaseDriver.RoundIsThreeSteps | pkg/queue/driver_database.go:154-231 | an undisturbed turn of a worker that gets a job is the steps claim, time passing, finish (or lost write) of the state machine, on time exactly when its write comes within 600 s or is lost |
| DatabaseDriver.InterleavedRun | pkg/queue/driver_database.go:71-231 | any interleaving of the methods of any number of drivers, also several of one queue, and their workers on one table leaves the table and the held claims as the run of the state machine does |
| QueueCore.MarshalPayload | pkg/queue/queue.go:74-90 | nil gives the empty JSON object, bytes and strings are taken as they are, and of other values only one without a JSON encoding is an error |
| QueueCore.Registry.Register | pkg/queue/queue.go:59-63 | sets the handler of one name and keeps the others |
| QueueCore.Registry.Get | pkg/queue/queue.go:66-71 | finds exactly the registered handler |
| QueueCore.ExecuteJob | pkg/queue/queue.go:93-113 | calls the registered handler once and returns its error, or calls nothing and reports a missing handler |
| PoolProtocol.Conservation | pkg/worker/worker.go:63-126 | in every state of every run the accepted jobs are those finished, in flight and buffered, and jobs are received in the order of acceptance |
| PoolProtocol.AcceptedIff | pkg/worker/worker.go:110-126 | in every reachable state a dispatch is accepted exactly when the pool is not stopped (and, with the guard, started) and the buffer has room; otherwise the job is dropped, or sent on the closed channel |
| PoolProtocol.DelayedIsDispatch | pkg/queue/driver_memory.go:65-80 | a delayed dispatch leaves the channel alone until its timer fires and is a dispatch then |
| PoolProtocol.ShutdownExactlyOnce | pkg/worker/worker.go:129-146 | when all workers have returned, every accepted job has run exactly once |
| PoolProtocol.ExitedMeansEmpty | pkg/worker/worker.go:76-90 | once one worker has exited the buffer stays empty and no job is accepted |
| PoolProtocol.GuardedNeverPanics | pkg/worker/worker.go:110-126 | the pool never sends on its closed channel |
| PoolProtocol.UnguardedPanicsIff | pkg/queue/driver_memory.go:47-63 | the memory driver sends on its closed channel exactly in the runs with a direct or delayed dispatch after Stop |
| PoolProtocol.DispatchAfterStopPanics | pkg/queue/driver_memory.go:47-63 | the run start, stop, dispatch panics with the memory driver and not with the pool |
| PoolProtocol.ShutdownIsBounded | pkg/worker/worker.go:76-90 | after Stop the workers take at most two steps per buffered job and three per worker |
| PoolProtocol.ShutdownProgress | pkg/worker/worker.go:63-92 | after Stop every worker that has not exited has a step to take |
| PoolProtocol.LoneWorkerFrom | pkg/queue/driver_memory.go:105-136 | a single worker finishes jobs in the order in which it receives them |
| WorkerPool.Pool.constructor | pkg/worker/worker.go:30-43 | defaults of concurrency and queue size; an empty, open, stopped pool |
| WorkerPool.Pool.Start | pkg/worker/worker.go:46-61 | adds the configured number of workers once, and nothing when already running |
| WorkerPool.Pool.Dispatch | pkg/worker/worker.go:110-126 | appends the job exactly when the pool is running and the queue has room, and says why it is refused otherwise |
| WorkerPool.Pool.Stop | pkg/worker/worker.go:129-138 | a running pool is stopped and closes both channels, once; a second cycle closes them twice |
| WorkerPool.Pool.Drain | pkg/worker/worker.go:76-90 | a worker that drains runs all buffered jobs in order and leaves the wait group |
| MemoryQueue.MemoryDriver.constructor | pkg/queue/driver_memory.go:28-45 | defaults of concurrency and queue size; an empty, open, stopped driver |
| MemoryQueue.MemoryDriver.Dispatch | pkg/queue/driver_memory.go:47-63 | appends the encoded job exactly when the channel is open and has room, reports a full buffer, panics on the closed channel, and changes nothing on an encoding error |
| MemoryQueue.MemoryDriver.DispatchDelayed | pkg/queue/driver_memory.go:65-80 | starts one timer for the encoded job that is due after the delay; the channel does not change |
| MemoryQueue.MemoryDriver.FireTimer | pkg/queue/driver_memory.go:71-79 | a delayed job is dispatched when it is due, with the payload bytes of its first encoding |
| MemoryQueue.MemoryDriver.CancelTimer | pkg/queue/driver_memory.go:75-77 | after Stop a waiting job can be given up, and the channel does not change |
| MemoryQueue.MemoryDriver.Stop | pkg/queue/driver_memory.go:138-147 | closes both channels once; a second cycle closes them twice |
| MemoryQueue.MemoryDriver.Drain | pkg/queue/driver_memory.go:119-133 | the drain loop makes the handler calls of the buffered jobs in order and ignores their errors |
| MemoryQueue.SyncDriver.Dispatch | pkg/queue/driver_sync.go:21-27 | makes the handler call of the job at once and returns its error |
| MemoryQueue.RunSynchronously | pkg/queue/driver_sync.go:21-27 | dispatching jobs one after the other through the synchronous driver makes exactly their handler calls, in order |
| MemoryQueue.LoneWorkerKeepsOrder | pkg/queue/driver_memory.go:105-147 | with one worker, the jobs finished by a clean Stop are the accepted ones in dispatch order |
| MemoryQueue.CallsInRunFinish | pkg/queue/driver_memory.go:105-136 | the handler calls of any run are those of the jobs it finishes, in that order |
| MemoryQueue.LoneWorkerRefinesSync | pkg/queue/driver_memory.go:105-147 | with one worker, the synchronous driver makes the handler calls of a run with a clean Stop when it is given the accepted jobs, in the same order |
| MemoryQueue.WorkersMakeEachCall | pkg/queue/driver_memory.go:105-147 | with any number of workers each handler call of the accepted jobs is made exactly as often |
| MemoryQueue.WorkersRefineSync | pkg/queue/driver_memory.go:105-147 | with any number of workers, the synchronous driver makes the handler calls of such a run as a multiset |
| RedisQueue.AttemptsNeverGrow | pkg/queue/driver_redis.go:86-93 | in every reachable state queued and timed messages have zero attempts and running ones one |
| RedisQueue.NeverGivenUp | pkg/queue/driver_redis.go:189-196 | with a limit of at least 2 the permanent failure branch is never taken |
| RedisQueue.RetryIsAFreshStart | pkg/queue/driver_redis.go:189-193 | every retry waits exactly 4 s and has attempts zero; with a limit of 1 nothing is retried |
| RedisQueue.RetriesNeverStop | pkg/queue/driver_redis.go:184-197 | for every limit of at least 2 and every n a run executes one failing job n times |
| RedisQueue.LimitHoldsIff | pkg/queue/driver_redis.go:184-197 | no job is run more often than the limit, in all runs, exactly when the limit is 1 |
| RedisQueue.PayloadUnchanged | pkg/queue/driver_redis.go:76-118 | every run of a job gets the name and payload bytes that were dispatched |
| RedisOutcomes.DelayIsKept | pkg/queue/driver_redis.go:76-118 | in every continuation of a dispatch no handler gets the job before its delay is over |
| RedisOutcomes.OneMessage | pkg/queue/driver_redis.go:76-197 | in every run a dispatched job has at most one message in the list, behind a timer or with a worker |
| RedisOutcomes.SuccessIsFinal | pkg/queue/driver_redis.go:184-197 | in every run a job whose handler has returned nil is never run again |
| RedisQueue.Driver.constructor | pkg/queue/driver_redis.go:48-70 | the key of the list, and the defaults of queue name, concurrency and attempt limit |
| RedisQueue.Driver.DispatchDelayed | pkg/queue/driver_redis.go:76-118 | pushes or times a message with zero attempts; a disabled client or an encoding error changes nothing |
| RedisQueue.Driver.WorkerTurn | pkg/queue/driver_redis.go:145-197 | takes the oldest element; a message is run and requeued through a new message if it failed below its limit, one that does not decode is dropped; a disabled client, a failed pop or an empty list changes nothing |
| UserCache.CacheTransparency | internal/usecase/user_usecase.go:148-220 | from a cache whose live entries at t are right, every sequence of requests clocked from t on, without a failed cache delete, is answered with Redis exactly as without |
| UserCache.UnobservableIff | pkg/redis/redis.go:147-171 | from time t on no sequence of requests tells the two apart exactly when every decodable cached user that has not expired at t is the one in the table |
| UserCache.FailedDeleteIff | internal/usecase/user_usecase.go:205-217 | a failed cache delete can be noticed from time t on exactly when the user was cached, the entry has not expired at t, and the change shows |
| UserCache.PlainKeepsRepoOk | internal/repository/gorm/user_repository.go:21-82 | every use case keeps ids and emails of the table unique |
| UserRecords.GetShows | internal/usecase/user_usecase.go:148-158 | GetByID answers the public columns of the user, or NotFound, and changes nothing |
| UserRecords.RegisterShows | internal/usecase/user_usecase.go:76-118 | Register succeeds exactly when email and id are free and the password can be hashed; the user is then answered as given and every other id as before |
| UserRecords.UpdateShows | internal/usecase/user_usecase.go:182-209 | Update succeeds exactly when the user exists and no other user has the new email; the user is then answered with the given name and email, or the old ones where empty, and every other id as before |
| UserRecords.DeleteShows | internal/usecase/user_usecase.go:211-220 | Delete succeeds exactly when the user exists, who is then not found; every other id is answered as before |
| UserRecords.AnswerStays | internal/usecase/user_usecase.go:148-220 | as long as no request is about a user, the user is answered as before |
| UserRecords.DeletedStaysDeleted | internal/usecase/user_usecase.go:148-220 | with Redis, after a delete whose cache delete does not fail, every later request about the user is answered NotFound as long as nobody registers under that id |
| UserRecords.ServedForTenMinutes | pkg/redis/redis.go:147-171 | an answer that was stored is given again for exactly ten minutes, whatever has become of the table, and the table is asked after that |
| UserCache.KeyInjective | internal/usecase/user_usecase.go:149 | different users have different cache keys |
| UserCache.Client.GetJSON | pkg/redis/redis.go:91-114 | found only for a live entry that decodes; a failed read or an undecodable value is an error, a missing or empty one is not |
| UserCache.Client.SetJSON | pkg/redis/redis.go:117-128 | stores value and expiry, or nothing when disabled or failing |
| UserCache.Client.Invalidate | pkg/redis/redis.go:77-87 | removes all the given keys and no other, or nothing when disabled or failing |
| UserCache.Client.Remember | pkg/redis/redis.go:147-171 | a hit is returned untouched; anything else returns the fallback's result and stores only a success |
| UserCache.UserUsecase.GetByID | internal/usecase/user_usecase.go:148-158 | the method is the cached step with Redis and the repository lookup without |
| UserCache.UserUsecase.Update | internal/usecase/user_usecase.go:182-209 | changes name and email where given and the time, exactly when the user exists and no other has the email; the cached step with Redis and the plain one without |
| UserCache.UserUsecase.Delete | internal/usecase/user_usecase.go:211-220 | removes the row and its cache entry, and reports NotFound exactly when there is none; the cached step with Redis and the plain one without |
| UserCache.UserUsecase.Register | internal/usecase/user_usecase.go:76-118 | adds the user as given or changes nothing; the method is the plain step, and ids and emails stay unique |
| UserCache.UserUsecase.FindByEmail | internal/repository/gorm/user_repository.go:39-48 | finds a user with that email if there is one |
| CacheRace.BoundedStaleness | pkg/redis/redis.go:147-171 | under every interleaving a user answered at t was the database row within [t - 10 min - d, t], and NotFound was true at that moment |
| CacheRace.BoundIsTight | internal/usecase/user_usecase.go:201-208 | even without failures a reader straddling a write can be answered with a row that was last current at the very start of that window |
| CacheRace.NoStraddlingNoStaleAnswer | internal/usecase/user_usecase.go:148-220 | in runs in which no cache delete fails and no row is written while a reader is between its database read and its cache write, every answer given while no delete is outstanding is the current row |
| CacheRace.StaysCurrentIff | pkg/redis/redis.go:147-171 | until the next write all answers are current exactly when the live entry and the values that readers are about to cache are the current row |
| CacheRace.DeleteKeepsOutIff | internal/usecase/user_usecase.go:205-217 | a successful cache delete makes all answers until the next write current exactly when no reader holds an outdated row to cache as the delete lands |
| CacheRace.WriteKeepsOutIff | internal/usecase/user_usecase.go:201-208 | after a write that changes the row, any steps of other requests, and the successful delete, all answers until the next write are current exactly when every reader that straddles the write has made its cache write before the delete |
| RateLimit.TransparentIff | internal/delivery/http/middleware/ratelimit.go:45-95 | the sweeping limiter answers every schedule like one that never forgets exactly when burst <= 0 or burst <= 180 * rps, whether sweeps come at any time or exactly every 180 s |
| RateLimit.WindowBoundedIff | internal/delivery/http/middleware/ratelimit.go:45-95 | every ip gets at most max(burst, 0) + rps * T requests in every window of length T, in all runs with sweeps at any time or exactly every 180 s, exactly under the same condition |
| RateLimit.SweepKeepsLevels | internal/delivery/http/middleware/ratelimit.go:63-73 | under that condition a sweep changes no ip's remaining tokens, now or later |
| RateLimit.IPRateLimiter.constructor | internal/delivery/http/middleware/ratelimit.go:29-43 | a limiter that knows no client yet |
| RateLimit.IPRateLimiter.GetLimiter | internal/delivery/http/middleware/ratelimit.go:45-61 | returns the known bucket or a new full one and records the time |
| RateLimit.IPRateLimiter.CleanupStaleClients | internal/delivery/http/middleware/ratelimit.go:66-72 | drops exactly the clients not seen for more than the interval |
| RateLimit.IPRateLimiter.Handle | internal/delivery/http/middleware/ratelimit.go:77-93 | passes everything when disabled, else passes exactly when the ip has a token, or is new and the burst is at least 1, and takes it |
| SplitTrim.SplitAndTrim | config/config.go:276-309 | the parser computes Parse |
| SplitTrim.ParsedItemsIff | config/config.go:276-309 | which items a text is parsed to: the trimmed strings of its JSON array, or the parts between the commas inside the brackets, if any, without white space and then quotes around each |
| SplitTrim.TrimIff | config/config.go:277-303 | trimming takes away exactly the characters of the cut set at both ends |
| SplitTrim.SplitJoins | config/config.go:299 | the parts joined by commas are the text again |
| SplitTrim.RoundTripIff | config/config.go:299-308 | a list joined by commas and white space, not looking like a bracketed one, is parsed back unchanged exactly when every item is non-empty, has no comma and no white space or quote at its ends |
| SplitTrim.BracketFormIff | config/config.go:283-308 | the same list in brackets, when it is not JSON, is parsed back on the same condition |
| SplitTrim.JsonFormIff | config/config.go:283-292 | a JSON array is returned unchanged exactly when every string in it is non-empty and has no white space at its ends |
| SplitTrim.CommaFormItems | config/config.go:299-308 | in comma form no item is empty or contains a comma |
| SplitTrim.NoEmptyItem | config/config.go:276-309 | no form ever yields an empty item |
| SplitTrim.QuotedPaddingSurvives | config/config.go:303 | items are not always trimmed: padding inside quotes stays |
| Pages.GetAll | internal/usecase/user_usecase.go:160-180 | the public columns of the users from (page - 1) * size on, size at most, in order, with page below 1 read as 1 and a size outside 1 to 100 as 10; the total counts all rows |
| Pages.CoversIff | pkg/response/response.go:51-65 | when all queries return the rows in one order, pages 1 to total_pages show every row once and in order exactly when the page size is 1 to 100, or larger with at most 10 rows, or below 1 with none |
| PageTies.AlwaysCoversIff | internal/repository/gorm/user_repository.go:50-64 | whatever order each query gives rows with equal created_at, pages 1 to total_pages show every row exactly once if and only if the page size fits in that way and no tie lies across a page boundary |
| Pages.PageSizes | internal/repository/gorm/user_repository.go:50-64 | every page but the last is full, the last is not empty, and later ones are |

## Left out

- GORM, the SQL dialects, go-redis, SMTP and HTTP: only an abstract table, list and key-value map with expiry remain.
- The JSON codec: decoding an encoded user or queue message is taken to give it back; in the list parser the JSON parser is a parameter.
- The columns `last_error`, `created_at` and `updated_at` of a job: no behaviour depends on them.
- Panics inside handlers and the use a handler makes of its context: a handler that ignores its deadline is simply one whose final write is late.
- A clock that differs between machines, and the time between sampling the clock and the write that uses it.
- Restarting a pool after Stop: the state machine of the pools has one Start/Stop cycle, with Stop called after Start has returned; the methods say when a second cycle closes a channel twice.
- The timeout of Stop in the pool's state machine: Stop may return earlier, the results are about the moment when all workers have returned.
- Messages that a crashed Redis worker has popped, and the polling delays of the Redis worker; messages that do not decode are in the driver's method but not in its state machine.
- Database errors in the user use cases, and the welcome job that Register dispatches.
- A use case that runs while another is between its database read and its write: only cache entries are modelled under interleaving.
- Floating point in the token bucket, which is real arithmetic here, and unlimited rates; the last-seen update and the token are taken in one step.
- The int64 range of page numbers, page sizes and row counts, and rows that are inserted or deleted between the queries of two pages.
- UserCache.Client.SetJSON: an expiration of 0 or -1, which Redis reads as no expiry; the use cases always pass ten minutes.
- Login, JWT, password hashing, logging, mail, seeding, migrations, health checks, CORS and the other middlewares: no property over several functions.
