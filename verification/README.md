# digital.vasic.background: queues, worker pool, events

A Dafny model of the background-task module: the in-memory priority queue, the adaptive worker
pool, the depth cache of the Postgres queue, the asynchronous event publisher with the messaging
queue on top of it, waiting for a task, and the stuck detector with its message templates.

## How the code is modelled

*Sequential objects* keep the program's shape: classes with mutable fields and loops with
invariants. `InMemoryTaskQueue`, `PostgresTaskQueue`, `TaskEventPublisher`, `MessagingTaskQueue`,
`AdaptiveWorkerPool` (its scaling side), `DefaultStuckDetector` and `BundleTranslator` are such
classes. Every method of the in-memory queue is tied to an operation on values in `QueueModel`,
about which the properties over whole runs are proved.

*Concurrent code* is a step system. `PoolMachine` has any number of workers, any number of scaler
goroutines and the `Start` call; each step is one atomic read or write, or one critical section.
The `workers` map and `activeCount` are separate variables, and so are the close of a stop channel
and its flag, because the program updates them in two steps. `EventPublisher` and
`DepthCacheRaces` are step systems of the same kind, and `MessagingModel` joins a queue, its callers
and a publisher into one. A `Legal` sequence of actions is an
interleaving; the theorems quantify over all of them.

*What the code cannot determine is a parameter*: each clock reading, uuid prefixes, the row the
database picks, whether a repository call fails, what an executor returns, system resources, and
the order in which a map is visited. Within a run of the pool the clock never runs
backwards. Times and counters are unbounded integers, except that the identifier counter wraps at
2^64; percentages and loads are reals. A priority carries its weight,
`CanRetry` is "retryCount < maxRetries", and `HasStaleHeartbeat` and `IsOverdue` are arbitrary;
digital.vasic.models is not part of this model.

Where the code and its documentation disagree the model follows the code:

- a lower priority weight comes first (task_queue.go:507-509), against docs/TASK_LIFECYCLE.md:309-314;
- the retry delay is constant (worker_pool.go:631), not exponential as docs/TASK_LIFECYCLE.md:108-112 says;
- `Requeue` of the in-memory queue leaves the last heartbeat in place, that of the Postgres queue clears it;
- `GetQueueDepth` of the Postgres queue hands out the cached map itself on a miss and a copy on a hit.

## Files

| file | content |
|---|---|
| Tasks, TaskIds, QueueSort, QueueModel, QueueRuns, InMemoryTaskQueue | the in-memory queue |
| DepthCounts, PostgresTaskQueue, DepthCacheRaces | queue depth and its cache |
| PoolMachine, PoolOwnership, PoolCounting, PoolClaims, PoolOutcomes, PoolCareless, PoolShutdown, PoolReach, PoolOverlap, PoolIdleExits, PoolScale | the worker pool |
| EventPublisher, MessagingModel, MessagingTaskQueue | events |
| TaskWaiting, StuckDetector, Interpolation | waiting, stuck verdicts, messages |

Properties that the code has only under a condition come with that condition:

- draining equals peeking exactly when no pending task is queued twice;
- the cached depth is the true one exactly when at most 10000 tasks are pending and, with operations
  interleaved, when the depth did not change between the query and its store;
- `activeCount` stays within the maximum in every interleaving exactly when min <= max, and at or
  above the minimum without stops exactly when the minimum is zero or nothing can grow the pool;
- with two workers free, a submission cannot lead to two executions at a time exactly when nobody may still execute or
  requeue the task and no other requeueable task has its identifier;
- shrinking settles at the target exactly when nobody had been signalled before;
- callbacks are the squeezed observations exactly unless the first one is the sentinel -1.

`UndershootRun`, `ResubmissionRunsTwice`, `LateStoreOutlivesInvalidation` and `OrderMattersForBraces`
exhibit the inputs on which the unconditional statements fail.

## Model

| member | source | states |
|---|---|---|
| TaskIds.DecimalNatInjective | task_queue.go:346 | printing a counter in decimal loses nothing |
| TaskIds.ParseDecimalNat | task_queue.go:346 | reading the printed digits back gives the counter |
| TaskIds.GeneratedIdShape | task_queue.go:346 | a generated identifier is "task-", the time and the counter, both in decimal, between dashes |
| TaskIds.LastDashSplit | task_queue.go:346 | cutting an identifier at its last dash is unambiguous |
| TaskIds.GeneratedIdsDiffer | task_queue.go:341-347 | two generated identifiers are equal only if their counters are, whatever the clock said |
| QueueSort.PassSelectsLeast | task_queue.go:498-502 | one inner pass permutes the entries from i on, leaves those before i alone and brings a least one to i |
| QueueSort.SortQueueSorts | task_queue.go:495-504 | the exchange sort yields a sorted permutation of any queue, duplicates included |
| QueueSort.SortedInFields | task_queue.go:507-513 | sorted means, for any two positions, a smaller weight first and within a weight the earlier creation |
| QueueSort.SortedOrderUnique | task_queue.go:495-513 | when only copies of one task share a key there is one sorted order, so instability cannot show |
| QueueSort.AppendAndSortInserts | task_queue.go:352-356 | appending to a sorted queue and sorting again is insertion at the ordered position |
| QueueModel.FirstClaimable | task_queue.go:366-374 | the scan stops at the first claimable entry, and nothing before it was claimable when it was looked at |
| QueueModel.DequeueInFields | task_queue.go:366-389 | what claimable means, in record fields: everything before the entry taken was not pending, not due, or above a positive CPU or memory bound, and the entry taken is pending, was due and is within both; it alone leaves the slice |
| QueueModel.EnqueueInFields | task_queue.go:337-356 | the submitted record becomes pending with the given times, under its own or the generated identifier; one entry joins the slice, and no other task, entry or counter changes |
| QueueModel.RequeueInFields | task_queue.go:413-433 | the task becomes pending and unowned with one more retry, due the delay after the reading, with its heartbeat as it was; one entry joins the slice |
| QueueModel.DeadLetterInFields | task_queue.go:436-450 | status, reason and update time of one task change, and neither the slice nor the map |
| QueueModel.PeekInFields | task_queue.go:395-410 | peeking lists exactly the pending ones among the first `count` positions, in increasing position |
| QueueModel.EnqueueKeepsInv | task_queue.go:337-359 | enqueueing a new or an already queued task keeps the queue sorted and every pending task of the map queued |
| QueueModel.ClaimKeepsInv | task_queue.go:376-387 | so does claiming an entry, even one with stale copies left in the slice |
| QueueModel.RequeueKeepsInv | task_queue.go:413-433 | so does requeueing, although it never looks whether the task is queued already; the task is queued afterwards |
| QueueModel.ApplyKeepsInv | task_queue.go:337-450 | every operation, and every non-pending status written from outside, keeps the invariant |
| QueueModel.EveryRunKeepsInv | task_queue.go:337-450 | in every reachable state the slice is sorted, map keys are the tasks' identifiers and no pending task is lost |
| QueueModel.NilMeansNothingClaimable | task_queue.go:362-392 | Dequeue returns nothing only when no task of the map was pending, due at the start of the call, and within both bounds where these are positive |
| QueueModel.ClaimableMeansSome | task_queue.go:366-388 | conversely, a queued task with these properties at the start of the call forbids nil |
| QueueModel.ClaimIsLeastEligible | task_queue.go:362-389 | the claimed task was pending, due and within both bounds; each eligible one has a higher weight, or the same weight and no earlier creation; exactly one entry leaves; the claimed record is running with worker, start and heartbeat, and nothing else changes |
| QueueModel.EnqueueGoesBehindItsPriority | task_queue.go:349-356 | with an increasing clock a new task goes behind all of its weight or lower and before all of higher weight, and nothing else moves |
| QueueModel.EnqueueKeepsKeysIdentify | task_queue.go:349-356 | the hypothesis of the previous row survives each such enqueue |
| QueueRuns.GeneratedIdsArePairwiseDistinct | task_queue.go:341-347 | over any run with fewer than 2^64 generating calls, mixed with anything, no identifier is generated twice |
| QueueRuns.MapSizeIsEnqueueCount | task_queue.go:341-353 | with generated identifiers only, the map holds one task per enqueue: none is overwritten |
| QueueRuns.RunCreatedAtEnqueue | task_queue.go:337-450 | over any run a task carries the creation time of its last enqueue, whatever requeues and claims come after it |
| QueueRuns.FirstInFirstOut | task_queue.go:352-392 | over any run with an increasing clock, requeues, duplicates and stale entries included, a claim takes among the eligible tasks of its weight the one enqueued first |
| QueueRuns.DrainedIsFirstPending | task_queue.go:362-392 | when all queued tasks are due, repeated Dequeue yields the first occurrences of the pending entries, in order, then nil |
| QueueRuns.DrainEqualsPeek | task_queue.go:362-410 | draining equals peeking at the whole queue if and only if no pending task is queued twice |
| InMemoryQueue.InMemoryTaskQueue.constructor | task_queue.go:324-334 | a new queue is empty and satisfies the invariant |
| InMemoryQueue.InMemoryTaskQueue.ChooseId | task_queue.go:341-347 | only an empty identifier is replaced, and only then does the counter advance, modulo 2^64 |
| InMemoryQueue.InMemoryTaskQueue.Enqueue | task_queue.go:337-359 | the whole new state of objects, map, slice and counter is the value-level enqueue |
| InMemoryQueue.InMemoryTaskQueue.Dequeue | task_queue.go:362-392 | nil leaves everything as it was and means that no task of the map was pending, due and within the requirements; a claim takes one that was, in record fields; result and whole new state are the value-level dequeue, over shared mutable tasks |
| InMemoryQueue.InMemoryTaskQueue.Claim | task_queue.go:376-385 | exactly one entry leaves the slice and only its task changes, over shared task objects |
| InMemoryQueue.InMemoryTaskQueue.Peek | task_queue.go:395-410 | the pending ones among the first `count` positions, in order |
| InMemoryQueue.InMemoryTaskQueue.Requeue | task_queue.go:413-433 | an unknown identifier is an error that changes nothing; otherwise the value-level requeue, with the new fields of the task written out |
| InMemoryQueue.InMemoryTaskQueue.MoveToDeadLetter | task_queue.go:436-450 | an unknown identifier is an error that changes nothing; otherwise only the task changes and its slice entry stays |
| InMemoryQueue.InMemoryTaskQueue.CountWithStatus | task_queue.go:457-462 | the counting loop gives the number of tasks with the status, in every map order |
| InMemoryQueue.InMemoryTaskQueue.GetPendingCount | task_queue.go:453-464 | the number of pending tasks in the map |
| InMemoryQueue.InMemoryTaskQueue.GetRunningCount | task_queue.go:467-478 | the number of running tasks in the map |
| InMemoryQueue.InMemoryTaskQueue.GetQueueDepth | task_queue.go:481-492 | the number of pending tasks of each priority, in every map order, and the sum of all counts is the pending count |
| InMemoryQueue.InMemoryTaskQueue.SortQueue | task_queue.go:495-504 | the nested swapping loops leave the slice as the exchange sort does and change nothing else |
| InMemoryQueue.InMemoryTaskQueue.ExchangeAfter | task_queue.go:498-502 | the inner loop leaves the slice as one pass of the exchange sort does |
| DepthCounts.DepthOfOneMore | task_queue.go:485-490 | counting one more task gives the depth of the tasks with it |
| DepthCounts.DepthInFields | task_queue.go:481-492 | the depth of a priority is the number of pending tasks that have it, and a priority without any is absent |
| DepthCounts.DepthSumsToPending | task_queue.go:453-492 | the depths of all priorities add up to the pending count |
| DepthCounts.PartialDepthIff | task_queue.go:234-242 | counting a part of the pending tasks gives the true depth if and only if none is missing |
| PostgresQueue.TaskRepository.GetByStatus | task_queue.go:234 | distinct rows with the status, all of them if and only if they fit the limit |
| PostgresQueue.PostgresTaskQueue.constructor | task_queue.go:29-36 | an empty cache at the zero time with a TTL of five seconds |
| PostgresQueue.PostgresTaskQueue.Enqueue | task_queue.go:39-83 | defaults are filled in, the row is stored and the cache invalidated; a failure changes nothing |
| PostgresQueue.PostgresTaskQueue.Dequeue | task_queue.go:86-124 | bounds that are not positive reach the database as zero, so that the claimed row is within the requirements; a claim changes that row and invalidates the cache; no row or a failure changes nothing |
| PostgresQueue.PostgresTaskQueue.Requeue | task_queue.go:136-180 | the row becomes pending with one more retry and no heartbeat, due after a positive delay or now; the cache is invalidated |
| PostgresQueue.PostgresTaskQueue.MoveToDeadLetter | task_queue.go:183-197 | one row changes and the cache is invalidated, or nothing changes |
| PostgresQueue.PostgresTaskQueue.CountByPriority | task_queue.go:239-242 | the loop computes the depth of the listed rows |
| PostgresQueue.PostgresTaskQueue.GetQueueDepth | task_queue.go:220-251 | for any sequence of operations, hit or miss, the answer is the fresh recount if and only if at most 10000 tasks are pending; when it is a hit and who shares the map |
| PostgresQueue.PostgresTaskQueue.InvalidateCache | task_queue.go:254-258 | re-establishes the cache invariant whatever happened to the rows |
| DepthCacheRaces.ReturnedDepthWasTrue | task_queue.go:220-258 | in every interleaving a returned depth was the true one at an instant younger than the TTL plus the gap between its query and its store |
| DepthCacheRaces.HitIsTrueIff | task_queue.go:220-258 | in every interleaving, a hit that finds every mutation invalidated serves the value of the last store, which one query had read, and it is the true depth if and only if the depth had not changed between that query and that store |
| DepthCacheRaces.CleanWindowsMakeHitsTrue | task_queue.go:220-258 | when no mutation falls between a query and its store, every such hit is the true depth |
| DepthCacheRaces.LateStoreMakesHitsStale | task_queue.go:233-258 | conversely a mutation in that window which changes the depth and is invalidated before the store makes every check within the TTL a stale hit, in every run, until the next mutation, store or invalidation |
| DepthCacheRaces.LateStoreOutlivesInvalidation | task_queue.go:233-258 | such a run exists from every initial state: all operations have finished and the depth served is stale |
| PoolMachine.WorkersToAdd | worker_pool.go:714-736 | never more than three, never beyond the maximum |
| PoolMachine.WorkersToAddIsLargest | worker_pool.go:717-736 | in integers: the pool grows exactly when load is low, pending exceeds twice the workers plus one and there is room, and then by the most that the three limits allow |
| PoolOwnership.StepKeepsBase | worker_pool.go:440-491 | every atomic step, careless submissions included, keeps the queue's invariant and every owned task known |
| PoolOwnership.ClaimKeepsExclusive | task_queue.go:366-387 | a claimed task was pending, so nobody held it, and now its claimant alone does |
| PoolOwnership.RequeueKeepsExclusive | worker_pool.go:630-634 | the requeue by identifier hits the holder's own task, which is then pending and held by nobody |
| PoolOwnership.SafeSubmitKeepsExclusive | task_queue.go:337-359 | submitting, or submitting again, a task that nobody holds, under an identifier that no other requeueable task has, keeps holders unique |
| PoolOwnership.StepKeepsOwnership | worker_pool.go:440-491 | every atomic step of workers, scalers, safe submitters, stuck handler and signals keeps: one holder per task, held tasks are not pending, only retryable tasks are requeued |
| PoolOwnership.RunKeepsOwnership | worker_pool.go:461-490 | and so does every interleaving |
| PoolOwnership.ExclusiveExecution | worker_pool.go:561-573 | in every interleaving with safe submissions and resubmissions at most one worker is inside Execute for a given task |
| PoolOverlap.UnsafeSubmissionOverlaps | task_queue.go:337-359 | an unsafe submission, with two workers free, can always be continued to two workers inside Execute for one task |
| PoolOverlap.SubmissionIsSafeIff | task_queue.go:337-359 | with two workers free, a submission can lead to two workers inside Execute for one task if and only if somebody may still execute or requeue that task, or another task that may still be requeued has its identifier |
| PoolOverlap.ResubmissionRunsTwice | task_queue.go:337-388 | a run from an empty pool: a task is submitted again while it executes, and a second worker claims and executes it |
| PoolOverlap.CurrentTaskOverlaps | worker_pool.go:482-489 | a run from an empty pool in which two workers hold a task as currentTask while only the later one may execute it |
| PoolClaims.RunConservesClaims | worker_pool.go:496-673 | from any invariant state, in flight before plus claims equals in flight after plus settlements |
| PoolClaims.ClaimsAreConserved | worker_pool.go:461-673 | over every run, careless submissions included, claims = completed + requeued + dead-lettered + in flight; which of them follows which result is PoolOutcomes.OutcomesFollow |
| PoolOutcomes.ExecutorDecides | worker_pool.go:496-577 | over every run and for each worker: completions, plus one about to be written, equal the executions that returned no error; requeues and dead letters, plus one inside the error handler, equal the executions that returned an error plus the tasks without a registered executor |
| PoolOutcomes.OutcomesFollow | worker_pool.go:461-673 | over every run, for each worker and each task: claims = begun + refused, begun = succeeded + failed, succeeded = completed, failed + refused = asked with retries left + asked without, the former = requeued and the latter = dead-lettered, but for at most one on its way |
| PoolOutcomes.DoneWrites | worker_pool.go:581 | a completion sets the status of the worker's own task to Completed and changes no other task |
| PoolOutcomes.RetriedWrites | worker_pool.go:630-634 | a requeue makes the task registered under the identifier pending, queued and unowned, with one more retry, due after the delay |
| PoolOutcomes.BuriedWrites | worker_pool.go:640-648 | a dead letter gets its status and the given reason, keeps its retry count, and the slice stays as it was |
| PoolOutcomes.ExecutingIsBusy | worker_pool.go:481-490 | over every run a worker inside Execute is busy with that task, and one at its select, in its loop body or gone is not busy |
| PoolClaims.StepSpendsPotential | worker_pool.go:561-634 | every step pays for the execution it begins out of: retries left, plus one while pending, plus one per worker about to execute; only a resubmission adds one |
| PoolClaims.RetryBound | worker_pool.go:618-662 | from any state reached with safe submissions, a pending task is executed at most max(0, maxRetries - retryCount) + 1 times, plus one for each time it is submitted again |
| PoolCareless.StepPays | worker_pool.go:561-634 | without safe submissions every step still pays for the execution it begins; a resubmission adds one, and one more if a worker holds the task, for a requeue that the retry counter does not pay for |
| PoolCareless.CarelessRetryBound | worker_pool.go:618-662 | over runs in which tasks keep their own identifiers, a pending task that nobody holds is executed at most max(0, maxRetries - retryCount) + 1 times, plus one per resubmission and one more per resubmission while it is held |
| PoolCounting.StepKeepsGrowInv | worker_pool.go:697-702 | Start and all scalers together never have two goroutines spawning at once |
| PoolCounting.StepKeepsCount | worker_pool.go:392-418 | every step keeps activeCount and the map equal to the counts of workers on the right side of their two writes |
| PoolCounting.StepKeepsMax | worker_pool.go:714-740 | every step keeps activeCount, plus what the spawning goroutine still adds, within the maximum |
| PoolCounting.ActiveCountAgainstMap | worker_pool.go:376-421 | in every interleaving 0 <= activeCount <= map size, the gap being exactly the workers between their two writes |
| PoolCounting.StartSpawnsAll | worker_pool.go:242-244 | Start run alone counts every worker it is asked for, even beyond the maximum |
| PoolCounting.MaxHoldsExactlyWhenConfigured | worker_pool.go:697-740 | activeCount never exceeds MaxWorkers in any interleaving if and only if MinWorkers <= MaxWorkers |
| PoolIdleExits.LeavesOnlyAboveMin | worker_pool.go:446-456 | without stops a worker leaves exactly when it finds more workers than the minimum |
| PoolIdleExits.SerialExitsKeepMin | worker_pool.go:452-455 | from an empty pool, in every stop-free interleaving in which a leaving worker decrements before the next one decides, activeCount is at least MinWorkers once Start has returned |
| PoolIdleExits.ConcurrentExitsUndershoot | worker_pool.go:763-765 | two workers that check before either decrements both leave |
| PoolIdleExits.UndershootRun | worker_pool.go:697-765 | a run from an empty pool that ends below MinWorkers: Start, submissions, one growth step, two overlapping idle exits |
| PoolIdleExits.MinHoldsExactlyWhenNothingGrows | worker_pool.go:452-455 | once Start has returned, activeCount stays at or above MinWorkers in every stop-free interleaving if and only if the minimum is zero, there is no scaler, the maximum does not exceed the minimum, or a growth threshold rules out all loads |
| PoolShutdown.NoNewDequeueAfterStop | worker_pool.go:440-461 | once its channel is closed or its context done, a worker calls Dequeue only if it was already in the loop body, and once |
| PoolShutdown.WorkerSettlesItsClaims | worker_pool.go:477-489 | each worker settles what it holds and claims, one for one, over every run |
| PoolShutdown.StoppedWorkerFinishesItsTask | worker_pool.go:440-490 | a worker told to stop while holding a task completes, requeues or dead-letters it before it is gone and calls Dequeue no more |
| PoolShutdown.FlaggedWorkerDescends | worker_pool.go:440-492 | every step of a stopped worker lowers a rank over its program counter |
| PoolShutdown.SignalledWorkerExits | worker_pool.go:180-188 | a signalled worker takes a bounded number of further steps in every interleaving, without the pool being cancelled |
| PoolShutdown.StepLowersRank | worker_pool.go:263-290 | after cancellation every step of a worker, Start or scaler lowers the pool's rank |
| PoolShutdown.ShutdownIsBounded | worker_pool.go:263-290 | after cancellation the goroutines take at most rank many steps, however they interleave |
| PoolShutdown.WorkerCanMove | worker_pool.go:440-492 | a stopped worker that is not gone can always take its next step once its executor returns |
| PoolShutdown.QuiescentMeansAllGone | worker_pool.go:411-421 | a cancelled pool in which no goroutine can move has an empty map and activeCount zero |
| PoolShutdown.StopDrainsThePool | worker_pool.go:263-290 | for every run: after Stop boundedly many steps remain, and wherever they end all workers have left |
| PoolShutdown.ClosesAnOpenChannel | worker_pool.go:180-188 | whenever a call of signalStop is about to close the channel it is still open |
| PoolShutdown.SignalledExactlyOnce | worker_pool.go:180-188 | over any run and any number of concurrent callers a channel is closed at most once, as many calls return true as have closed it but for a call still inside, and a call returns false only after one has returned true |
| PoolScale.Worker.constructor | worker_pool.go:380-390 | a new worker is idle and not signalled |
| PoolScale.Worker.SignalStop | worker_pool.go:180-188 | the first call closes and reports true, every later one reports false and changes nothing |
| PoolScale.AdaptiveWorkerPool.SpawnWorker | worker_pool.go:376-405 | one fresh idle worker is registered and counted |
| PoolScale.AdaptiveWorkerPool.WorkerExit | worker_pool.go:411-421 | exactly the leaving worker is removed and uncounted |
| PoolScale.AdaptiveWorkerPool.StopIdle | worker_pool.go:360-369 | for every map order: the signalled are distinct idle, unsignalled workers, as many as needed or all there are, and no other worker changes |
| PoolScale.AdaptiveWorkerPool.SpawnMany | worker_pool.go:353-355 | the count grows by that many fresh idle workers and nobody leaves |
| PoolScale.AdaptiveWorkerPool.Scale | worker_pool.go:341-373 | growing reaches the target when it lies within the limits and the limit it crosses otherwise, and never passes the maximum; shrinking signals exactly the surplus when enough are idle, and the workers left after the exits are the target if and only if nobody had been signalled before |
| PoolScale.AdaptiveWorkerPool.SignalledExit | worker_pool.go:411-421 | the signalled workers leave in any order; exactly the others stay, and activeCount counts them |
| PoolScale.AdaptiveWorkerPool.ScaleAndSettle | worker_pool.go:341-421 | with enough idle workers and no earlier signal activeCount settles at the target within the limits, at the maximum above them and at the minimum below; earlier signals are subtracted |
| EventPublisher.RunBacklog | events.go:242-284 | for any run, attempted events followed by the backlog are the earlier backlog followed by the accepted events |
| EventPublisher.PublishInFields | events.go:267-284 | disabled or without a backend nothing happens; otherwise the event goes to the end of the channel when there is room and to a synchronous send when there is none |
| EventPublisher.BufferIsBounded | events.go:198-284 | over any run the channel never holds more than its capacity |
| EventPublisher.AcceptedExactlyOnce | events.go:233-264 | when the consumer loop ends the buffer is empty and the attempted events are the accepted ones, in order, each once |
| EventPublisher.OverflowExactlyOnce | events.go:272-281 | every event that found the channel full is sent synchronously once, unless its publisher has not got to it yet |
| EventPublisher.StopEndsTheLoop | events.go:233-264 | after Stop the consumer takes at most about two steps per buffered event |
| EventPublisher.ConsumerCanMove | events.go:245-263 | after Stop the consumer can move if and only if it has not finished |
| EventPublisher.NoOverflowAcceptsAll | events.go:267-281 | an enabled publisher that never overflows accepts what is published, in call order |
| EventPublisher.PublishedIsAttempted | events.go:223-302 | then the backend has seen by the end of Stop exactly what was published, in call order |
| EventPublisher.TakenSplits | events.go:267-284 | every event published while the publisher is enabled is accepted into the channel or found it full |
| EventPublisher.NeverDisabledTakesAll | events.go:267-270 | a publisher that is never switched off takes everything that is published |
| EventPublisher.EveryPublishedReachesBackend | events.go:223-302 | with overflow, and with the publisher switched off and on, too: what the backend has been handed by the end is what was published while the enabled flag was set, each event once |
| MessagingQueue.TaskEventPublisher.constructor | events.go:198-220 | a channel exists only for asynchronous publishing with a positive buffer |
| MessagingQueue.TaskEventPublisher.Publish | events.go:267-284 | disabled or without a backend nothing changes; with room in the channel the event is buffered last; otherwise it is sent synchronously; in all cases one step of the publisher machine |
| MessagingQueue.MessagingTaskQueue.Enqueue | messaging_adapter.go:71-83 | the delegate ends as after a bare Enqueue, and queue and publisher together as after one call of the joint machine |
| MessagingQueue.MessagingTaskQueue.Dequeue | messaging_adapter.go:86-101 | result and delegate as for a bare Dequeue, and queue and publisher as after one call of the joint machine |
| MessagingQueue.MessagingTaskQueue.Peek | messaging_adapter.go:104-106 | as the bare queue, no event |
| MessagingQueue.MessagingTaskQueue.GetPendingCount | messaging_adapter.go:163-165 | the delegate's pending tasks, no event |
| MessagingQueue.MessagingTaskQueue.GetRunningCount | messaging_adapter.go:168-170 | the delegate's running tasks, no event |
| MessagingQueue.MessagingTaskQueue.GetQueueDepth | messaging_adapter.go:173-175 | the delegate's true depth by priority, no event |
| MessagingQueue.MessagingTaskQueue.Requeue | messaging_adapter.go:109-133 | over an in-memory delegate: as the bare queue, and the publisher is untouched |
| MessagingQueue.MessagingTaskQueue.MoveToDeadLetter | messaging_adapter.go:136-160 | over an in-memory delegate: as the bare queue, and the publisher is untouched |
| MessagingQueue.MessagingPostgresQueue.Requeue | messaging_adapter.go:109-133 | over a Postgres delegate: as the bare queue, and one retrying event with the row as it was before, unless the call or the look-up failed |
| MessagingQueue.MessagingPostgresQueue.MoveToDeadLetter | messaging_adapter.go:136-160 | over a Postgres delegate: as the bare queue, and one dead-letter event with the row as it was before, unless the call or the look-up failed |
| MessagingModel.PublisherRuns | messaging_adapter.go:71-101 | the publisher's part of any run of callers, queue and publisher is a run of the publisher on its own |
| MessagingModel.EveryCallPublishesOnce | messaging_adapter.go:71-101 | for any number of interleaved callers, what has been published and what is still owed is what the calls owed, each once |
| MessagingModel.EventsInFields | messaging_adapter.go:71-101 | an enqueue owes one Created event with the pending task's fields, a claim one Started event with the worker's identifier, and every other operation none |
| MessagingModel.EventsMatchCalls | messaging_adapter.go:71-101 | the calls of any run owe one Created event per enqueue and one Started event per claim |
| MessagingModel.BackendSeesEveryCall | messaging_adapter.go:71-101 | for any number of callers, any overflow and any schedule, by the end the backend has been handed one Created event per enqueue and one Started event per claim |
| MessagingModel.PublishedInCallOrder | messaging_adapter.go:71-101 | with one caller the published events are those of its calls, in call order, with the fields the tasks had when the delegate returned |
| MessagingModel.WrapperEventsReachBackend | messaging_adapter.go:71-106 | with one caller and no overflow the backend has seen by the end of Stop exactly the events of the calls, in call order, however the consumer was scheduled |
| MessagingModel.AfterCallIsRun | messaging_adapter.go:71-101 | what each wrapper method does to queue and publisher is a run of one caller of the joint machine |
| Interpolation.PlaceholderPrefix | i18n/bundle.go:86 | a placeholder starts with the searched one only if it is the same |
| Interpolation.ReplaceFillsOne | i18n/bundle.go:86 | replacing one placeholder string fills exactly the holes with that key |
| Interpolation.Interpolate | i18n/bundle.go:80-89 | for templates of placeholders and text without opening braces, brace-free keys and values without opening braces, every map order gives the simultaneous substitution, unknown placeholders intact |
| Interpolation.OrderMattersForBraces | i18n/bundle.go:85-87 | a value that looks like a placeholder makes the map order visible |
| Interpolation.BundleTranslator.T | i18n/bundle.go:69-75 | an unknown identifier is an error; a known one is the simultaneous substitution of its template |
| Interpolation.Tr | i18n/translator.go:73-82 | never empty for a non-empty identifier: the translator's message or the identifier |
| Interpolation.TranslatorSeam.SetTranslator | i18n/translator.go:51-59 | installing nil restores the translator that echoes every identifier |
| Interpolation.BundleMessage | i18n/translator.go:73-82 | a bundle message is the filled template, or its identifier when unknown or empty; without data the template is shown as it is |
| StuckDetector.DefaultStuckDetector.constructor | stuck_detector.go:43-55 | the default thresholds |
| StuckDetector.DefaultStuckDetector.SetThreshold | stuck_detector.go:110-125 | a set threshold is the one used for that type, and no other entry changes |
| StuckDetector.DefaultStuckDetector.IsStuck | stuck_detector.go:58-107 | the verdict is the same for every translator, number format and clock; the reason is non-empty exactly when stuck, and which reason wins |
| StuckDetector.DefaultStuckDetector.CheckHeartbeatTimeout | stuck_detector.go:128-152 | a reason exactly when the heartbeat is lost, whatever the translator says |
| StuckDetector.DefaultStuckDetector.CheckResourceExhaustion | stuck_detector.go:187-216 | a reason exactly when the newest snapshot shows exhaustion |
| StuckDetector.DefaultStuckDetector.IsProcessFrozen | stuck_detector.go:155-184 | at least three of the five newest snapshots idle and no CPU time gained over the window |
| StuckDetector.DefaultStuckDetector.HasMemoryLeak | stuck_detector.go:262-290 | in integers: fewer than a fifth of the steps without growth, and growth by more than half |
| StuckDetector.DefaultStuckDetector.IsEndlessTaskStuck | stuck_detector.go:293-333 | zombie, critical memory, or five snapshots without CPU and without any I/O change, with the reason that wins |
| StuckDetector.LeakTolerance | stuck_detector.go:262-290 | n samples tolerate at most ceil((n - 1) / 5) - 1 steps without growth, and none up to six samples |
| StuckDetector.FrozenInFields | stuck_detector.go:155-184 | frozen means: of the five newest snapshots at least three under 0.1 percent, and at most a hundredth of a second of CPU time gained over all of them |
| StuckDetector.LeaksInFields | stuck_detector.go:262-290 | a leak means: five snapshots, fewer than a fifth of the steps without growth, and the newest more than half as large again as the oldest |
| StuckDetector.StarvedInFields | stuck_detector.go:219-259 | the I/O and network verdicts compare the newest snapshot with the fourth newest, or with the third of three |
| StuckDetector.NoActivityMeansStill | stuck_detector.go:228-251 | for counters that never run backwards, zero summed activity if and only if no counter moved at any sample of the window |
| StuckDetector.StarvedMeansNothingMoved | stuck_detector.go:219-259 | for counters that never run backwards the I/O and network verdicts hold if and only if nothing moved at any sample of their window and the load is as stated |
| TaskWaiting.FirstIntervals | worker_pool.go:991-992 | the first nine intervals and the instant of the eighth poll, to the nanosecond |
| TaskWaiting.IntervalSchedule | worker_pool.go:1050-1055 | intervals never shrink, stay in 100 ms to 2 s, and are 2 s exactly from the ninth on |
| TaskWaiting.PollTimeAfterEight | worker_pool.go:1000-1055 | from the eighth poll on polls come every two seconds |
| TaskWaiting.PollBound | worker_pool.go:1000-1055 | for a timeout T past the eighth poll, poll n falls within it if and only if n <= 8 + floor((T - 4925.78125 ms) / 2000 ms) |
| TaskWaiting.CallbacksAreChanges | worker_pool.go:1015-1022 | the callbacks are the observed progress without consecutive repeats, exactly unless the first observation is -1 |
| TaskWaiting.WaitForCompletion | worker_pool.go:983-1058 | no lookup but the last saw a task that was Completed, Failed, Cancelled or DeadLetter; unless the wait is given up the last one did or failed, and decides the error: none, task failed with the message or "unknown error", cancelled, dead-lettered; the caller's own deadline is a timeout and its cancellation is not; polls are on schedule, within the context and no more than fit; the callbacks |

## Left out

- The worker loop, `executeTask`, its handlers and `checkAndScale` as goroutine code: they are atomic steps on values, so a data race on one field, or memory ordering, is not captured.
- `Stop`'s grace period and its wait group: what is modelled is the cancellation and both writes of each `signalStop`, in any interleaving.
- `setStatus` and `setCurrentTask` are one step; CompletedAt, Progress, LastError of a retried task, worker metrics, logs, notifications and `repository.Update` of the pool are dropped.
- `RetryDelaySeconds`: the delay of each requeue is an arbitrary parameter of the pool's steps.
- A queue whose `Dequeue` returns an error inside the pool: the in-memory queue never does.
- Manual `Scale` interleaved with the scalers: it is not guarded by the compare-and-swap, so no maximum is claimed with it.
- `calculateWorkerRequirements`: requirements are arbitrary; an integer share of zero means no limit to `Dequeue`.
- Order among tasks with equal creation time: the exchange sort is not stable.
- `UpdateTask` and `GetTask` (lookup and overwrite by identifier), a nil task, `GetStats`, and the counting and peeking delegates of the Postgres queue.
- The repository's SQL: the model has a map with atomic operations; which fitting row the database claims is a parameter.
- A caller that writes into the map it got from a depth-cache miss.
- `Enqueue`, `Dequeue` and the delegates of the wrapper over a Postgres queue, which repeat those over the in-memory one; the progress reporter and the executor wrapper.
- Interpolation.Interpolate: brace-free keys and values without an opening brace are sufficient, not necessary; the exact condition is one on the whole template.
- Event identifiers, timestamps, topics and payload data; a publisher started twice or used after `Stop`, which panics; a backend that fails, since an attempt is what is counted.
- `AnalyzeTask`, `WaitForMultiple`, `WaitForCompletionWithOutput`, Pause, Resume and Cancel: delegation and easy members.
- YAML loading of bundles; `resource_monitor.go`, `metrics.go`, `event_publisher.go`, SSE and the challenges.
- 64-bit wrap-around of sizes, times and snapshot counters, and rounding of floating-point numbers.
- InMemoryQueue.InMemoryTaskQueue.Peek: a negative count, for which the program panics when it allocates the result, is not modelled.
- TaskWaiting.WaitForCompletion: does not return the task; it is the one that the last lookup saw.
