# Distributed job scheduler: a verified model

The repository is a job scheduler. Jobs are rows of one PostgreSQL table; worker nodes
claim batches of them under `FOR UPDATE SKIP LOCKED`, run them in a bounded goroutine
pool and write the outcome back; a reaper returns jobs of dead nodes, a promoter releases
delayed jobs, and cron engines spawn jobs under a Redis lock. These Dafny modules model
that protocol and prove what it guarantees, over every run and every interleaving.

| module | part of the system |
|---|---|
| `Domain`, `Support`, `Ordering` | the job record; finite sets and sums; `ORDER BY ... LIMIT` as a loop |
| `Store`, `Stats`, `JobRepository` | the SQL statements on the jobs table as values, the status counts, and the table as an object |
| `ClaimProtocol` | `ClaimBatch` as a READ COMMITTED transaction of several steps, interleaved on many nodes |
| `Backoff`, `Executor` | retry delays in `int64`/`float64` arithmetic, and the write that ends an execution |
| `Lifecycle`, `LifecycleTheorems`, `JobEvents`, `Disturbances` | jobs, executions, crashes, lost writes, reaper, promoter and API together; what each event does to one job; runs in which a job is taken from its execution |
| `WorkerNode`, `WorkerService` | dispatcher, channel, worker goroutines and shutdown of one node: as a state machine, and as an object |
| `NodeTiming`, `Deployment` | how long a node can sit on a claimed job; the whole system on one clock, and the visibility timeout it needs |
| `LockProtocol`, `Locks` | the token lock over timed steps, and its methods without interference |
| `Cron`, `CronCluster` | one cron engine, and many |
| `Queues`, `JobService` | the queue order; enqueueing, manual retry and cancellation |

`dafny verify dfyconfig.toml` checks everything.

## Hypotheses, and where code and documentation differ

The model follows the code. Where the code does not keep a promise by itself, the exact
condition is proved, or each condition that is asked comes with a run that breaks the
promise without it.

* **Late reaps and stale retries.** The final writes (`WHERE id=$1`) have no guard on status
  or owner, the reaper looks at `claimed_at`, not at heartbeats, and a manual retry reads
  the row and then writes it unguarded, as a second statement. In every world of a run each
  execution is its job's only one and the one its row names *if and only if* no reap of the
  run finds an execution past the visibility timeout of its claim and no retry's write finds
  its job being executed (`SoleExactlyIfProper`; `SoleKeptExactly` step by step). The
  attempt and spacing accounts need, exactly, that the retry's write finds besides the
  attempts it read to make up for the claims (`InvKeptExactly`), and finished jobs stay
  finished if it finds the row still dead as it was read (`FinishedJobsStay`).
  `OverlongExecutionRunsTwice` and `SecondRetryDisturbs` are runs of the other kind, the
  latter without any reap. The row shapes (`Store.RunsKeepShape`) and recovery
  (`NoJobIsStranded`) need no hypothesis.
* **Visibility timeout.** If executions take at most T and claims return within L, a node
  has finished every job max(3T, L + T) after its claim's `NOW()`, for every concurrency and
  batch size; on a node with one worker that is reached. A visibility timeout of that many
  whole seconds keeps all reaps of the whole system in time (`Deployment.LongEnoughIsSole`).
* **Concurrency limit.** The running jobs are counted once, before the claim's rows are
  locked, so W nodes can exceed a queue's limit L by (W-1)·min(B, L); the bound is proved,
  and reached for every L, B and W.
* **`NOW()`** in a claim is the time its transaction began, which may lie before its commit.
* **A retry** puts a job back to `pending` with a later `run_at`, never to `scheduled`.
* **Jitter.** README and comments promise ±25%; the code draws up to, not including, half
  of the delay. `QuarterJitterOnlyForSmallDraws` says which draws keep the promise. A delay
  of exactly 1 ns on the jitter path makes `rand.Int63n` panic; nothing else does.
* **Release** is documented as an atomic script; it is a GET and a separate DEL. Over a
  whole run releases delete nothing but their own entries if and only if no DEL finds an
  entry in place after the release's own time to live (`NothingStolenExactlyInTime`). In a
  run where one did, a release that is in time can delete a foreign entry too, because its
  own was taken (`TimelyReleaseCanDeleteForeignEntry`); `ForeignDeletionHasACause` is the
  exact condition of a single DEL.
* **The cron lock does not deduplicate by itself.** It is released as soon as the job is
  inserted, its name contains the minute of the engine's tick, the due list is not read
  again under it, and insert and update are separate. However locks expire or are stolen, no occurrence
  fires twice if and only if every insert of the run is `Clean`: the engine's occurrence is
  still the definition's next one, no other engine has inserted for it and not yet
  advanced, and no update for it was lost (`FiresOnceExactlyIfClean`; the condition is at
  the insert, because an engine that has won the lock may still crash before it). The lock
  makes every insert clean if locks are held no longer than their time to live, winners
  find a `Fresh` list entry, engines busy with one definition are in the `SameMinute`, and
  every insert `KeepsUpdate`. For each of these four a run keeps the other three and fires
  one occurrence twice: `ExpiredLockFiresTwice`, `SecondFire` (two of them) and
  `TwoMinutesFireTwice`.
* **Idempotency keys.** A call returns a stored row's id if it found the row or if no row
  held the key when it inserted. Otherwise (overlapping calls, or a repeated *empty* key,
  which is never looked up) the insert does nothing and the caller gets an id that no row
  has.

## Model

| member | source | states |
|---|---|---|
| Store.StepKeepsShape | backend/internal/repository/postgres/job.go:200-314 | Any statement, a stale final write included, keeps the row shapes (running: claimed and started; pending, scheduled, cancelled: unclaimed; succeeded, dead: completed; never failed) and unique idempotency keys |
| Store.RunsKeepShape | backend/internal/repository/postgres/job.go:28-314 | The same over every run of statements from any number of processes |
| Store.StepKeepsRows | backend/internal/repository/postgres/job.go:28-314 | One statement loses no row and no identity column, does not enter `scheduled`, and only a claim of a pending row makes a row running |
| Store.RunsKeepRows | backend/internal/repository/postgres/job.go:28-314 | No run of these statements loses a row or changes its identity columns, and a job that has left `scheduled` never re-enters it |
| Store.RunsKeepColumns | backend/internal/repository/postgres/job.go:200-314 | Over every run run_at of a row changes only by a retry's write, attempt_count by that or its death, started_at by a claim, completed_at by a success or death |
| Store.WholeSecondsTruncate | backend/internal/repository/postgres/job.go:302-308 | The timeout's fraction of a second is cut off, toward zero |
| Stats.GetStats | backend/internal/repository/postgres/queue.go:152-175 | Each of the seven counts is the number of the queue's rows in that status, and they sum to the queue's rows |
| Stats.StatusesPartitionRows | backend/internal/repository/postgres/queue.go:152-175 | In every table the seven counts of a queue add up to its rows |
| Stats.QueueCountsSumToTotal | backend/internal/repository/postgres/queue.go:152-175 | The per-queue counts of a status, summed over all queues, are the rows of the table in that status |
| Stats.MovesCounts | backend/internal/repository/postgres/job.go:200-314 | A statement taking its rows from one status to another moves exactly the affected rows, per queue and in total, and no other count |
| Stats.PromoteMoves | backend/internal/repository/postgres/job.go:289-298 | Promoting n: scheduled loses n, pending gains n, all other totals stay |
| Stats.ReclaimMoves | backend/internal/repository/postgres/job.go:302-314 | Reclaiming n: running loses n, pending gains n, all other totals stay |
| Stats.ClaimMoves | backend/internal/repository/postgres/job.go:200-218 | A claim of k moves k of its own queue from pending to running and no other queue's counts |
| Stats.OnlyClaimsRun | backend/internal/repository/postgres/job.go:28-314 | No statement but a claim raises a queue's running count |
| Ordering.OrderBy | backend/internal/repository/postgres/job.go:163-198 | ORDER BY with LIMIT: distinct candidates, min(limit, candidates) of them, sorted, none left behind ranks ahead of one returned |
| JobRepository.JobStore.Insert | backend/internal/repository/postgres/job.go:28-59 | A row is stored exactly when its id is new and its key, if any, is free, with no lifecycle column set; otherwise nothing changes |
| JobRepository.JobStore.Update | backend/internal/repository/postgres/job.go:229-314 | Row by row the UPDATE has the effect of its WHERE and SET on the whole old table, and returns the number of rows hit |
| JobRepository.JobStore.MarkSucceeded | backend/internal/repository/postgres/job.go:229-236 | The row, whatever its status or owner, is succeeded and completed at the given time; all else stays |
| JobRepository.JobStore.MarkDead | backend/internal/repository/postgres/job.go:250-259 | The row, whatever its status or owner, is dead, completed at the given time, on one more attempt; all else stays |
| JobRepository.JobStore.ScheduleRetry | backend/internal/repository/postgres/job.go:262-270 | The row, whatever its status or owner, is pending, unclaimed, due at the given time on the given attempt; all else stays |
| JobRepository.JobStore.Cancel | backend/internal/repository/postgres/job.go:273-285 | Succeeds exactly for pending and scheduled jobs, changing that row's status only; refused, it changes nothing |
| JobRepository.JobStore.PromoteScheduled | backend/internal/repository/postgres/job.go:289-298 | Exactly the scheduled rows that are due become pending, with no other column changed; their number is returned, lost by scheduled and gained by pending |
| JobRepository.JobStore.ReclaimStale | backend/internal/repository/postgres/job.go:302-314 | Exactly the running rows claimed before the whole-second timeout become pending and unclaimed, with no other column changed; their number is returned |
| JobRepository.JobStore.ClaimBatch | backend/internal/repository/postgres/job.go:140-219 | Returns the best-ranked eligible unlocked jobs, min(batch, limit - running, eligible) of them, as they were read; makes exactly those running, for the worker since now; never passes the limit; an exhausted limit claims nothing, a negative size with room is an error |
| JobRepository.ClaimTakesTheBest | backend/internal/repository/postgres/job.go:163-198 | The batch is in descending priority, then ascending run_at; no eligible unlocked job left behind is strictly ahead of a claimed one; when all fit all are taken |
| ClaimProtocol.StepKeepsLocks | backend/internal/repository/postgres/job.go:163-198 | Every locked row stays eligible for its holder and is held by one transaction only |
| ClaimProtocol.CountGrantsTheRoom | backend/internal/repository/postgres/job.go:147-161 | A claim's LIMIT is its size up to the room counted; without room there is no transaction to go on |
| ClaimProtocol.CommitWritesItsRows | backend/internal/repository/postgres/job.go:200-218 | A commit makes exactly the locked rows running, for its node, since the transaction's NOW() |
| ClaimProtocol.EndingUnlocks | backend/internal/repository/postgres/job.go:140-146 | Commit and rollback free the transaction's rows and no others; a rollback writes nothing |
| ClaimProtocol.ClaimsSerialize | backend/internal/repository/postgres/job.go:140-219 | Every interleaving of claim transactions and other statements has the effect of a serial run with each claim atomic at its commit, on jobs pending and due there |
| ClaimProtocol.OverlappingClaimsAreDisjoint | backend/internal/repository/postgres/job.go:163-198 | Transactions in flight at once never hold the same job |
| ClaimProtocol.RunningJobsBounded | backend/internal/repository/postgres/job.go:147-161 | With W nodes, under every interleaving, running jobs of a queue ≤ L + (W-1)·min(B, L); exactly the limit for W = 1 |
| ClaimProtocol.BoundIsReached | backend/internal/repository/postgres/job.go:147-161 | From any cluster with room for at least one capped claim and enough due jobs some interleaving reaches that bound |
| ClaimProtocol.TightForEverySize | backend/internal/repository/postgres/job.go:147-161 | For every limit, batch size and number of nodes there is a run that reaches the bound |
| Backoff.NextDelay | backend/pkg/retry/backoff.go:47-92 | Step by step it computes the delay of `Delay`; with a base ≥ 0, for every int64 attempt and every overflow, 0 ≤ result ≤ max(base, effective cap) |
| Backoff.Jitter | backend/pkg/retry/backoff.go:65-73 | Panics exactly on a delay of one nanosecond; otherwise, while 3/2 of the delay fits, the result is within half of it, above or below as the coin says |
| Backoff.PanicsExactlyAtOneNanosecond | backend/pkg/retry/backoff.go:60-73 | A call panics if and only if the strategy is exponential with jitter and the unjittered delay is 1 ns; and there is such a call |
| Backoff.SafeForEveryAttempt | backend/pkg/retry/backoff.go:79-91 | Whatever overflows, the result is in range for a base ≥ 0, and a negative result can only be a negative base itself |
| Backoff.UnjitteredIsNominal | backend/pkg/retry/backoff.go:53-77 | When the nominal delay fits, wrapping, rounding and conversion leave it exact |
| Backoff.ExactWithoutJitter | backend/pkg/retry/backoff.go:47-92 | Without jitter the result is min(nominal delay, cap), whatever an overflowing conversion yields, if and only if nothing overflows or rounds, or that stays hidden behind the cap or the fallback to the base |
| Backoff.MonotoneWithoutJitter | backend/pkg/retry/backoff.go:47-92 | Without jitter a later attempt never waits less, when both delays are exact |
| Backoff.WrappedLinearDelayVanishes | backend/pkg/retry/backoff.go:57-58 | With overflow that fails: a linear delay of a day at attempt 1 is zero at attempt 4 |
| Backoff.JitterIsUnderHalf | backend/pkg/retry/backoff.go:65-73 | A jittered delay d' of d satisfies d/2 < d' < 3d/2 |
| Backoff.QuarterJitterOnlyForSmallDraws | backend/pkg/retry/backoff_test.go:73-86 | The promised ±25% holds if and only if the draw is at most a quarter of the delay; with the test's policy and attempt the delay can be 1 ns under 30 s, past its bound of 25 s |
| Backoff.JitteredExactly | backend/pkg/retry/backoff.go:59-91 | Under jitter the result is the nominal delay plus the drawn part on heads, minus it on tails, up to the cap; the base if the sum leaves int64 |
| Backoff.JitterOnTheCoinsSide | backend/pkg/retry/backoff.go:65-91 | Tails never lengthens the delay and heads never shortens it; the result stays under 3/2, and, while the cap allows, over 1/2, off by exactly the drawn part |
| Backoff.NegativeCapYieldsTheBase | backend/pkg/retry/backoff.go:79-91 | A negative cap makes every delay the base |
| Backoff.NegativeDelayYieldsTheBase | backend/pkg/retry/backoff.go:87-89 | A delay that comes out negative, as with a negative base, is replaced by the base |
| Backoff.RoundsToNearest | backend/pkg/retry/backoff.go:62-63 | The conversion to a float gives a nearest multiple of the unit of 53 significant bits, the even one on a tie |
| Backoff.WrappedLinearDelay | backend/pkg/retry/backoff.go:57-91 | A linear delay that wraps is replaced by the base if it comes out negative, else capped as usual |
| Backoff.NoAttemptIsTheFirst | backend/pkg/retry/backoff.go:47-52 | Attempts from zero down count as the first |
| Backoff.SecondsAreExact | backend/internal/worker/executor.go:84-89 | Every retry_delay_sec, in nanoseconds, survives the conversion to a float exactly |
| Backoff.DelayAtLeast | backend/internal/worker/executor.go:82-92 | The executor's k-th delay is at least nominal (fixed, linear) or more than half nominal (exponential), up to the cap |
| Backoff.ExecutorPolicyDoesNotPanic | backend/internal/worker/executor.go:84-92 | With retry_delay_sec ≥ 0 the executor's delay cannot panic if and only if the strategy is not exponential or the nominal delay fits int64 by attempt 1024 |
| Backoff.ExecutorDelay | backend/internal/worker/executor.go:82-92 | While it fits, the k-th retry waits retry_delay_sec seconds, k times that, or 2^(k-1) times that moved by the drawn part; never more than a day |
| Executor.Execute | backend/internal/worker/executor.go:28-110 | On the rows: without a handler, or failed on the last attempt, the job is dead on one more attempt, completed at that time; successful, it is succeeded on its attempts; failed before, it is pending and unclaimed on the next attempt, due one backoff later; no other row changes, and a panic writes nothing |
| Lifecycle.SoleKeptExactly | backend/internal/service/job/service.go:197-206 | An event leaves every execution its job's only one, matched by its row, if and only if it is not a reap that finds one overdue nor a retry's write that finds one of its job |
| Lifecycle.StepKeepsInv | backend/internal/worker/executor.go:59-110 | Every proper event keeps: one execution per job, matched by its row; the attempt account; the spacing account; the row shapes |
| Lifecycle.InvKeptExactly | backend/internal/service/job/service.go:197-206 | An event keeps all that if and only if it is no late reap, and no retry's write on an executed job or with attempts that do not make up for the claims |
| Lifecycle.OwnedRowUntouched | backend/internal/repository/postgres/job.go:229-314 | If executions are sole and the event is proper, nothing but its own final write touches the row of a live execution |
| LifecycleTheorems.SoleExactlyIfProper | backend/internal/repository/postgres/job.go:140-314 | In every world of a run each execution is its job's only one and its row is running, with that owner, claim time and attempt, if and only if no reap of the run finds an execution overdue and no retry's write finds its job being executed |
| LifecycleTheorems.FinishedRowStays | backend/internal/repository/postgres/job.go:229-314 | While executions are sole an event writes a finished row if and only if it is the write of a manual retry of it |
| LifecycleTheorems.FinishedJobsStay | backend/internal/service/job/service.go:197-206 | If retries' writes find their row still dead as they read it, succeeded and cancelled rows are never written again, dead ones only by a manual retry |
| LifecycleTheorems.AttemptsAccounted | backend/internal/worker/executor.go:72-110 | While retries find the attempts accounted for: claims = attempt_count + reclaims + (1 if running or succeeded), and claims ≤ max(1, max_retries) + reclaims + manual retries |
| JobEvents.LedgerTellsTheRun | backend/internal/worker/executor.go:72-110 | The claims, reclaims and retries accounted for are those of the run, and the first claim is the run's first |
| LifecycleTheorems.ClaimsLeftStep | backend/internal/worker/executor.go:72-110 | The non-negative measure of claims left drops by one with each claim and rises only with a reclaim or a manual retry |
| LifecycleTheorems.ClaimsAreFinite | backend/internal/worker/executor.go:72-110 | From any world on, a job's claims are bounded by its claims left plus later reclaims and manual retries |
| LifecycleTheorems.ClaimsAreSpaced | backend/internal/worker/executor.go:82-92 | No claim is before run_at; the claim after the k-th failure is at least k·b, b·k(k+1)/2, or more than b(2^k-1)/2 after the first, while no delay is capped |
| JobEvents.RunAtStays | backend/internal/repository/postgres/job.go:262-314 | In any run run_at of a job changes only by the write of a failed execution or of a retry by hand |
| JobEvents.FinishOnARow | backend/internal/worker/executor.go:37-110 | The end of an execution does to its job's row what Execute says, and to no other row anything |
| JobEvents.OtherEventsOnARow | backend/internal/repository/postgres/job.go:262-314 | Column by column, what cancel, retry, promoter and reaper do to a row |
| JobEvents.EventsOnExecutions | backend/internal/worker/executor.go:28-110 | Only a claim starts executions; one ends only by its own write, or its loss, or with its node |
| LifecycleTheorems.LinearGap | backend/pkg/retry/backoff.go:57-58 | The linear delays sum to b·k(k+1)/2 |
| LifecycleTheorems.ExponentialGap | backend/pkg/retry/backoff.go:59-73 | The exponential delays under jitter sum to more than b(2^k-1)/2 |
| LifecycleTheorems.ReaperRecovers | backend/internal/repository/postgres/job.go:302-314 | A running job is left alone up to claimed_at plus the whole-second timeout; the first reaper step after makes it pending, unclaimed, due at once, on the same attempt |
| LifecycleTheorems.AbandonedJobsComeBack | backend/internal/repository/postgres/job.go:289-314 | Whatever else happens, once the deadline of an unfinished job without executions has passed and the reaper (if running) or the promoter has run, it has been due on the same attempt, unless cancelled or put back by a stale retry before |
| LifecycleTheorems.NoJobIsStranded | backend/internal/repository/postgres/job.go:289-314 | In any run, timely or not, every node may crash, and then every continuation that passes the deadline and then runs the loop brings an unfinished job back; there always is one |
| Disturbances.OverlongExecutionRunsTwice | backend/internal/repository/postgres/job.go:229-314 | For every visibility timeout a run with a late reap has two executions of one job, and the late write reopens the job the other one finished |
| Disturbances.SecondRetryDisturbs | backend/internal/service/job/service.go:197-206 | A run without reaps, every event of it proper, after which the write of a second retry takes the row from a live execution, or reopens the job that it has finished |
| WorkerNode.StepKeepsInv | backend/internal/worker/pool.go:50-74 | Every goroutine step keeps FIFO order, conservation of jobs, the lagging counter, the claim size and the shutdown order |
| WorkerNode.ActiveInRange | backend/internal/worker/pool.go:55-58 | 0 ≤ active ≤ C, so AvailableWorkers stays in [0, C] |
| WorkerNode.JobsAreConserved | backend/internal/worker/pool.go:42-74 | In every reachable state claimed = received ++ buffered ++ unsubmitted, without duplicates; each received job is held or finished, once; at most 2C + min(B, C) are unfinished; no send meets a closed channel |
| WorkerNode.BypassIsBounded | backend/internal/worker/dispatcher.go:90-122 | Jobs are received in the order claimed, with at most C + min(B, C) - 1 ahead of one waiting, in every continuation |
| WorkerNode.SleepsOnlyAtTheEnd | backend/internal/worker/dispatcher.go:80-86 | The dispatcher sleeps only from the head of its loop, with no queue left or no idle worker |
| WorkerNode.EveryQueueIsPolled | backend/internal/worker/dispatcher.go:80-122 | With a worker idle throughout, a tick over q queues sizes a claim for each of the q before it sleeps, whatever the claims return |
| WorkerNode.ShutdownExecutesEverything | backend/internal/worker/service.go:94-112 | When Start returns, every job the node claimed has been executed exactly once by it |
| WorkerNode.ShutdownIsBounded | backend/internal/worker/service.go:102-112 | A run without further ticks has at most `Work` steps |
| WorkerNode.ShutdownNeverSticks | backend/internal/worker/service.go:102-112 | After cancellation some goroutine can always move until Start has returned, so shutdown ends |
| WorkerService.WorkerService.AvailableWorkers | backend/internal/worker/pool.go:55-58 | The idle count lies between 0 and the concurrency in every valid state |
| WorkerService.WorkerService.PollNext | backend/internal/worker/dispatcher.go:80-86 | The queue loop ends exactly when no queue is left or all workers are busy; else the next queue is entered |
| WorkerService.WorkerService.ChooseClaimSize | backend/internal/worker/dispatcher.go:90-99 | With no idle worker the queue is passed over; else the claim size is the batch size or the number of idle workers, whichever is less |
| WorkerService.WorkerService.TakeBatch | backend/internal/worker/dispatcher.go:102-120 | The claimed jobs are added to the node's, all of them still to be submitted; after an empty claim the next queue is polled |
| WorkerService.WorkerService.Submit | backend/internal/worker/pool.go:50-53 | The first job of the batch goes to the end of the channel, which is open and holds at most C; then the rest of the batch follows, or after its last job the next queue |
| WorkerService.WorkerService.ReceiveJob | backend/internal/worker/pool.go:61-63 | The oldest buffered job leaves the channel for that worker and the received ones; no other worker and no counter changes |
| WorkerService.WorkerService.BeginExecution | backend/internal/worker/pool.go:64-70 | The counter goes up by one and does not pass the concurrency |
| WorkerService.WorkerService.FinishExecution | backend/internal/worker/pool.go:70 | The worker's job was received, had not been finished before, and is now |
| WorkerService.WorkerService.EndExecution | backend/internal/worker/pool.go:72 | The counter goes down by one and does not pass zero |
| WorkerService.WorkerService.ControlStep | backend/internal/worker/service.go:102-112 | Each other action changes its one field; the channel is closed only with the dispatcher and all loops stopped and nothing to submit, and Start returns only with all workers gone |
| WorkerService.WorkerService.Serve | backend/internal/worker/service.go:75-113 | Under any schedule of its goroutines the object loses and doubles no job, keeps claim order, owns at most 2C + min(B, C) unfinished ones, and has finished all when Start has returned |
| WorkerService.WorkerService.RunSchedule | backend/internal/worker/service.go:75-113 | The object under any schedule ends in the state machine's state |
| NodeTiming.FinishedWithinBound | backend/internal/worker/dispatcher.go:80-121 | If executions take at most T, claims begin after they are sized and return within L, and other steps take no time, every unfinished job was claimed at most max(3T, L + T) ago, for every concurrency, batch size and interleaving |
| NodeTiming.BoundIsReached | backend/internal/worker/dispatcher.go:80-121 | On a node with one worker a job is unfinished exactly that long after its claim: the third one claimed before the counter rises, or one whose claim took L |
| NodeTiming.ReceivedWithinTwo | backend/internal/worker/pool.go:61-74 | A job is received on arrival or within 2T of its claim's NOW() |
| Deployment.AlwaysTimely | backend/internal/repository/postgres/job.go:302-314 | With a visibility timeout of max(3T, L + T) in whole seconds no execution of the running system is ever overdue for the reaper |
| Deployment.RunsAreProper | backend/internal/repository/postgres/job.go:302-314 | Every run of nodes, table and API together is a proper run of its world, given what its retries' writes find |
| Deployment.LongEnoughIsSole | backend/internal/worker/service.go:75-113 | So with such a timeout each execution is its job's only one and matched by its row in every world of every run, as long as no retry's write finds its job being executed |
| LockProtocol.StepKeepsInv | backend/pkg/lock/lock.go:46-100 | Any step keeps: an unexpired holder whose entry was not stolen still has it; tokens are unique |
| LockProtocol.MutualExclusion | backend/pkg/lock/lock.go:93-100 | If every holder finishes before its time to live, at most one process per key is inside |
| LockProtocol.SecondHolderHasACause | backend/pkg/lock/lock.go:46-64 | In any run a second process acquires a held key if and only if no entry is present, and then the holder has expired or its entry was stolen |
| LockProtocol.CrashedHolderBlocksUntilExpiry | backend/pkg/lock/lock.go:46-64 | A holder that crashes leaves its entry, and others get the lock exactly from its expiry on |
| LockProtocol.ReleaseDeletesItsOwn | backend/pkg/lock/lock.go:69-83 | In those runs a release deletes its own entry and nothing else |
| LockProtocol.ForeignDeletionHasACause | backend/pkg/lock/lock.go:69-83 | In any run a DEL deletes a foreign entry if and only if an entry is present and the release's own time to live has ended or its own entry was stolen; it had not ended at the GET |
| LockProtocol.NothingStolenExactlyInTime | backend/pkg/lock/lock.go:69-83 | Over a whole run no release deletes a foreign entry if and only if no DEL finds an entry after its own time to live |
| LockProtocol.MatchedIsNotStolen | backend/pkg/lock/lock.go:70-82 | A GET that matches finds its own entry unexpired and not stolen, so either cause falls between GET and DEL |
| LockProtocol.FirstTheftIsLate | backend/pkg/lock/lock.go:69-83 | The first foreign deletion of a run is by a release whose time to live ended between its GET and its DEL |
| LockProtocol.TimelyReleaseCanDeleteForeignEntry | backend/pkg/lock/lock.go:69-83 | A run in which a release that is in time deletes a foreign entry, because its own was stolen |
| Locks.MethodsAreProtocolSteps | backend/pkg/lock/lock.go:46-83 | The protocol's SETNX, and its GET then DEL at one moment, have the effect of Acquire and Release |
| Locks.LockManager.Acquire | backend/pkg/lock/lock.go:46-64 | Succeeds exactly when no unexpired entry exists, and then stores the token with its expiry |
| Locks.LockManager.Release | backend/pkg/lock/lock.go:69-83 | Deletes the entry exactly when it is unexpired and holds the token; another token is an error, no entry is fine |
| Cron.CronEngine.ListDue | backend/internal/repository/postgres/cron.go:82-103 | Exactly the active definitions whose next fire time has come, once each, by ascending next fire time |
| Cron.AfterTickExactly | backend/internal/worker/cron.go:96-152 | After a tick a definition that is not due, refused, or whose update is lost, is the same; a broken one is off; else it fires next at the first occurrence after the tick, with none skipped, and is otherwise the same |
| Cron.SpawnedJobIsDue | backend/internal/worker/cron.go:108-132 | The spawned job is pending and due at the tick, on no attempts, for its definition and queue, with the definition's retry settings |
| Cron.CronEngine.ExecuteFire | backend/internal/worker/cron.go:96-152 | One job, for now, exactly when the expression parses and the insert is accepted; the definition then moves to the first occurrence after now unless the update is lost; a broken expression is switched off |
| Cron.CronEngine.FireCron | backend/internal/worker/cron.go:82-94 | Alone, the engine always gets the lock, fires, and leaves no lock behind |
| Cron.CronEngine.Evaluate | backend/internal/worker/cron.go:67-80 | A tick fires every due definition once, adds exactly one new job for each that fires, and changes no other job or definition |
| Cron.EachFireConsumesAnOccurrence | backend/internal/worker/cron.go:96-152 | Over any run of ticks that loses no update, the jobs consume strictly increasing occurrences of the schedule, none in the future |
| Cron.NeverMoreJobsThanOccurrences | backend/internal/worker/cron.go:96-152 | A definition's jobs never outnumber its occurrences up to now |
| Cron.NothingStaysDue | backend/internal/worker/cron.go:104-143 | After a tick without errors no definition is due: missed occurrences coalesce into one job |
| Cron.FiresIfSomethingOccurred | backend/internal/worker/cron.go:67-152 | No occurrence is skipped: after any ticks, one that is not refused fires if and only if an occurrence came after the last kept fire and by now |
| Cron.BrokenExpressionsNeverFire | backend/internal/worker/cron.go:97-103 | An unparsable definition never fires, is off after the first tick that finds it due, and then stays as it is |
| Cron.LostUpdateFiresTwice | backend/internal/worker/cron.go:140-143 | A lost update makes the next tick fire the same occurrence again |
| CronCluster.WinnerIsAlone | backend/internal/worker/cron.go:82-94 | With timely locks an engine does not get the lock while another is firing the definition in the same minute |
| CronCluster.ListIsWalked | backend/internal/worker/cron.go:67-94 | Only trying its lock, won or lost, takes a definition off an engine's list, and an engine rests only with none left |
| CronCluster.FiringAdvances | backend/internal/worker/cron.go:96-152 | An engine inserts for the definition it won and advances that one to the first occurrence after its tick; nothing else changes a definition but switching a broken one off |
| CronCluster.FiresOnceExactlyIfClean | backend/internal/worker/cron.go:96-152 | For any number of engines, any interleaving, however locks expire or are stolen: no occurrence fires twice if and only if every insert of the run is clean, and then each definition's jobs are for strictly increasing occurrences |
| CronCluster.CarefulRunsAreClean | backend/internal/worker/cron.go:67-152 | Timely locks, fresh winners, one minute and kept updates make every insert clean |
| CronCluster.NoOccurrenceFiresTwice | backend/internal/worker/cron.go:67-152 | In every run that keeps the four conditions, for any number of engines, no occurrence fires twice and jobs are for strictly increasing occurrences |
| CronCluster.SecondFire | backend/internal/worker/cron.go:134-143 | A stale due list, or else a lost update, with the other three conditions kept, gives two jobs of one occurrence |
| CronCluster.ExpiredLockFiresTwice | backend/pkg/lock/lock.go:46-64 | So does a lock that expires while its engine is at work |
| CronCluster.TwoMinutesFireTwice | backend/internal/worker/cron.go:82-94 | So do two engines on either side of a full minute |
| Queues.ListActivePrioritized | backend/internal/repository/postgres/queue.go:90-98 | Exactly the queues that are not paused, once each, by ascending priority and then name |
| JobService.JobService.GetByIdempotencyKey | backend/internal/service/job/service.go:93-101 | Finds a row with the key if and only if there is one |
| JobService.JobService.BuildJob | backend/internal/service/job/service.go:112-156 | Overrides win over queue defaults; the new job is pending and due now exactly when no later run_at is asked for, and else scheduled for then, and can be promoted from that time on and not before |
| JobService.JobService.Enqueue | backend/internal/service/job/service.go:91-167 | A taken non-empty key returns the stored row and changes nothing; otherwise an unknown queue, a paused queue, or the insert of one job, and its id |
| JobService.JobService.Retry | backend/internal/service/job/service.go:197-206 | Only failed and dead jobs, back to pending and due now on the same attempt count; refusals change nothing |
| JobService.JobService.Cancel | backend/internal/service/job/service.go:192-194 | Succeeds exactly for pending and scheduled jobs; otherwise a conflict and no change |
| JobService.RepeatedCallsReturnTheStoredRow | backend/internal/service/job/service.go:91-167 | Of two calls with the same non-empty key that do not overlap the second returns the one stored row, whatever runs before, between and in them; both return its id if and only if no one else created the key between the first lookup and insert |
| JobService.ReturnedIdIsStoredIffKeyFree | backend/internal/repository/postgres/job.go:28-59 | With any statements between lookup and insert: the returned id is stored if and only if the key is free at the insert; otherwise nothing changes; keys stay unique |
| JobService.EmptyKeyReturnsUnstoredId | backend/internal/service/job/service.go:93-101 | The empty key is not looked up: a second call returns an id that no row has |

## Left out

- HTTP handlers, authentication, organisations, projects, users, execution logs, metrics, batches and the frontend: plumbing and plain record keeping.
- Payload, tags, metadata, error texts, `created_at` and `updated_at`: no transition reads them.
- Deleting a queue deletes its jobs, and deleting a cron definition clears `cron_job_id` of its jobs (backend/migrations/000001_init_schema.up.sql:208-211): that no row is lost or changes identity is said of the statements of job.go only.
- Nodes with different visibility timeouts: all reapers share one.
- Column constraints and other database errors: a statement takes effect entirely or not at all. In the cron model refused inserts and lost updates are inputs of a tick (a definition without a retry strategy inserts an empty one and is such a refusal), and Lifecycle has lost final writes.
- The error ClaimBatch returns when its context ends after the commit: its jobs are claimed by nobody that runs them, which Lifecycle's LoseWrite covers.
- `Lock.Extend`, `MarkFailed` and `UpdateStatus`: nothing calls them; that is why `failed` cannot be reached.
- Ticker loops of dispatcher, reaper, scheduler and cron engine: any step may happen at any time. Heartbeats change no job.
- Wrap-around of the `attempt_count` column, microsecond rounding of timestamps, and float rounding in the whole seconds of visibility timeouts beyond some ninety days.
- Clocks and ids: one clock for the database and all nodes, and UUIDs that never repeat.
- Cron expressions: parsing yields an abstract satisfiable schedule, with `next(t) > t` and nothing between; definitions are not edited while engines run, and start with a fire time (the API leaves it null, and such a definition is never due).
- Queue names: a number stands for the place of a name in the database's collation.
- ClaimProtocol.Lock: the order in which a transaction picks rows is not part of the interleaved model, which lets it lock any eligible free rows within its budget; the order is proved of the atomic ClaimBatch.
- ClaimProtocol.RunningJobsBounded: takes the queue limits as fixed and not negative over the run, because a lowered limit is exceeded at once.
- LifecycleTheorems.ClaimsAreSpaced: the closed forms ask that no delay exceeds the cap; beyond it the capped sum `TwiceGap` is what is proved.
- WorkerNode.ShutdownExecutesEverything: handlers return and the node does not crash; a handler's panic is not part of this model. The batch size and the concurrency are not negative.
- NodeTiming.FinishedWithinBound: the goroutines' own steps take no time; a lost final write ends the execution on its node.
- Deployment.RunsAreProper: a claim commits at the moment it returns to its node; a node that starts after a crash has a worker id of its own or the crashed one's, but no two run under one id.
- WorkerNode.ShutdownIsBounded: a ticker that fires again in preference to the cancelled context, without end, is excluded.
