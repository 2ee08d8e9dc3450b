# Integr8sCode verification model

A Dafny model of the parts of the Integr8sCode backend whose guarantees rest on small atomic steps: Redis scripts and
transactions, conditional MongoDB updates, ordered publishes and in-memory caches. `dafny verify dfyconfig.toml`
checks all of it.

Each Redis command, Lua script, MULTI transaction and conditional update is one function on maps and sequences. A
protocol is a machine whose runs are lists of such steps, where a step that is not enabled changes nothing, so a
statement about every list is a statement about every interleaving. Beside the functions, classes run the same code
step by step on their fields, with the loops of the original, and are proved against those functions.

| file | what it models |
| --- | --- |
| `Options.dfy`, `Arrivals.dfy` | optional values, and the request times of the rate limits |
| `SortedSets.dfy` | Redis sorted sets |
| `ExecutionQueue.dfy` | the queue's commands, as functions and as the service class |
| `QueueOrder.dfy` | the five pending sets as one ordered queue |
| `QueueInterleaving.dfy` | many workers on one queue, with `try_schedule` and `release_user_slot` split into their commands |
| `QueueRetention.dfy` | how long stored requests and reservations last, and what a release or a removal ends |
| `WakeUps.dfy` | who drains the queue when, with drains that raise and the timer |
| `Scheduler.dfy` | the drain loop and `finish` |
| `ExecutionLifecycle.dfy` | racing handlers that end one execution |
| `PodEventMapper.dfy` | watch events, the phase cache and its eviction |
| `PodMonitor.dfy` | the monitor around the mapper: handle, delete the pod, free the slot |
| `FramedOutput.dfy` | the length-prefixed output of a pod, its writer and its parser |
| `SlidingWindow.dfy` | the sliding window limit and the notification throttle |
| `TokenBucket.dfy` | the token bucket limit and its expiring key |
| `DeadLetter.dfy` | one event's dead-letter protocol over any number of consumer groups |
| `DeadLetterTermination.dfy` | how many steps a run of that protocol can take |
| `DeadLetterManager.dfy` | the dead-letter manager's methods on the stored rows |
| `Idempotency.dfy` | one idempotency key under any number of deliveries |
| `RetriedDelivery.dfy` | the dead-letter protocol and the idempotency key together, as the scheduler's router nests them |
| `UserSettings.dfy` | event-sourced settings with snapshots and restores |
| `Replay.dfy` | the batched replay of stored events |

Some results say where the code does less than its documentation or a reader would expect:

- A zero timeout becomes 300 s for the pod but not for its slot, so only then can a pod outlast its slot
  (`SlotOutlastsPodIff`). Settings are validated to at least one second
  (`backend/app/schemas_pydantic/admin_settings.py:14`), so a zero reaches the queue only from outside that path.
- A started execution's reservation gets a later deadline, but its user's set keeps its expiry. One that starts almost
  a day after its reservation is forgotten while it runs, and its user gets one more than the limit
  (`RescoredCountsIff`, `RunningReservationForgotten`).
- A cancel or the pod monitor deletes the pod of a still active execution exactly when its database write was lost
  (`DeletionOrderIff`). After a cancel the pod's failure is then stored and announced
  (`LostCancelIsAnnouncedAsFailure`), and after the monitor's own lost write nothing ends the execution any more
  (`LostResultStaysActive`). An execution whose handlers are all done has ended exactly when one of them did not give
  up over a database error (`EndedIff`).
- An evicted pod can lose a running event, because the mapper skips a running pod without container statuses only
  after Pending (`RunningCanBeSuppressed`).
- An ending whose handling raises is lost: the cached phase keeps it from being put out again, so the monitor never
  attempts to delete that pod (`CleanedOnceOrNever`, `NeverDeleted`).
- When the results raise inside the drain, it stops. The popped execution is neither started nor failed, and keeps its
  slot until the deadline unless its request was lost (`SettledIffNotRaised`, `RaiseLeavesUnsettled`).
- When creating a pod raises after the pod exists, the execution is failed and its slot freed, and the pod stays
  (`SchedulePending` counts such orphans).
- A drain that raises can leave an execution waiting beside a free slot until the next request, ending, cancel or
  timer: exactly when it was the last one due and nothing woke another (`MissedIff`, `RaisedDrainMisses`).
- A sliding window denial's `retry_after` does not guarantee admission, as denied requests are recorded
  (`RetryAfterCanFail`).
- Forgetting a token bucket after two windows shows exactly when its burst exceeds twice the limit
  (`ForgettingInvisibleIff`, `AdmissionBoundIff`), and a limit multiplied down to zero makes every check raise a
  division by zero (`RaisesIff`).
- A handler failure is not retried when its row cannot be saved, its report cannot be published or its retry cannot be
  scheduled (`UnsavedFailureIsLost`, `UnreportedFailureIsStuck`), and a retry is lost when its mark is stored by a
  write that raises, or not taken back after its publish raised (`FailedRollBackLosesRetry`). Without these every
  unfiltered failure ends in success or after exactly six runs (`EndsSucceededOrDiscardedIff`).
- At the level of single Redis commands, one handler run at a time is guaranteed exactly for two deliveries
  (`OneRunIff`): with three, a release between the second one's failed SET NX and its second look lets the second and
  the third run at once (`ReleaseBesideCollision`, `UnsafeReleaseBreaks`). Runs that outlast the timeout or the key
  overlap with any two (`OneRunAnyTimeIff`, `TwoTakeOvers`).
- When a failed delivery's key is not deleted because Redis raises, its retry can be skipped as a duplicate, and the
  event then counts as handled although no handler run returned (`LostIff`). That can happen exactly when the
  earliest retry is due within 300 s of the reservation (`CanLoseIff`), which holds for every quick failure.
- `docs/architecture/user-settings-events.md` promises at most ten folded events a read; it is nine
  (`ReadsFoldAtMostNine`). Restoring to a time after an earlier restore need not give back the settings of that time
  (`RestoreReproducesIff`).

## Model

| member | source | states |
|---|---|---|
| SortedSets.Least | backend/app/services/execution_queue.py:76 | ZPOPMIN's member has the least score, and the least id among equal scores |
| ExecutionQueue.ExecutionQueueService.ScheduleScript | backend/app/services/execution_queue.py:64-87 | the loop over the priority sets prunes, stops at the limit, and pops and adds exactly what the atomic script does |
| ExecutionQueue.ExecutionQueueService.ChangePriority | backend/app/services/execution_queue.py:49-62 | the loop moves the id from the first set that holds it, as the atomic script does |
| ExecutionQueue.ExecutionQueueService.ReserveUserSlot | backend/app/services/execution_queue.py:89-106 | granted exactly when fewer than limit of the user's reservations are in flight; then the id is one of them for a day, and otherwise nothing is added |
| ExecutionQueue.GrantedIff | backend/app/services/execution_queue.py:98-105 | the script grants exactly when fewer than limit of the user's live reservations have a deadline above now |
| ExecutionQueue.ExecutionQueueService.ReleaseReservation | backend/app/services/execution_queue.py:141-152 | drops the id from the live owner's set and drops the owner, or changes nothing |
| ExecutionQueue.ExecutionQueueService.EnqueueRequest | backend/app/services/execution_queue.py:154-163 | adds the id scored by the clock to its priority and stores the request for a day |
| ExecutionQueue.ExecutionQueueService.TrySchedule | backend/app/services/execution_queue.py:171-216 | script, load, rescore or lost-request cleanup leave exactly the state and outcome of the composed commands |
| ExecutionQueue.ExecutionQueueService.ReleaseSlot | backend/app/services/execution_queue.py:218-223 | frees the running slot and drops the stored request |
| ExecutionQueue.ExecutionQueueService.RemoveExecution | backend/app/services/execution_queue.py:239-249 | the loop drops the id everywhere and reports whether it was pending or running |
| QueueOrder.ScheduleTakesHead | backend/app/services/execution_queue.py:70-86 | the script pops nothing if and only if slots are full or nothing waits, and otherwise takes the head by (priority, score, id) and only it |
| QueueOrder.UpdatePriorityMovesOne | backend/app/services/execution_queue.py:49-62 | exactly the named id moves, keeping its enqueue score, and every id stays under at most one priority |
| QueueOrder.EnqueueKeepsUniqueIff | backend/app/services/execution_queue.py:154-163 | ids stay unique exactly when the id waits under no other priority |
| QueueOrder.EnqueueAddsOne | backend/app/services/execution_queue.py:154-163 | enqueueing an id that does not wait adds exactly its entry |
| QueueOrder.RemoveDropsOne | backend/app/services/execution_queue.py:239-249 | removing drops all entries of the id and no other, and reports if there were any |
| QueueOrder.CommandRefines | backend/app/services/execution_queue.py:154-249 | each command on the five sets is a command of one queue ordered by (priority, score, id) |
| QueueOrder.RunRefines | backend/app/services/execution_queue.py:154-249 | every run that enqueues only ids that do not wait refines that single queue, reply by reply |
| QueueOrder.DrainIsSorted | backend/app/services/execution_queue.py:75-84 | draining pops every entry once, in strictly increasing order |
| QueueInterleaving.RunningBounded | backend/app/services/execution_queue.py:64-87 | in every interleaving the running set stays within the largest limit used |
| QueueInterleaving.SlotNeedsPop | backend/app/services/execution_queue.py:204-209 | a freed slot comes back only by a pop of the script: the XX rescore never re-adds one |
| QueueInterleaving.SlotKept | backend/app/services/execution_queue.py:70-73 | until its deadline a slot that no release, removal, rescore or loss of its id touches stays as it is |
| QueueInterleaving.SlotCoversPod | backend/app/services/execution_queue.py:177-209 | from the pop to the pod's own deadline the slot of an id that nobody enqueues again is held until it is released or removed, whatever else any worker does |
| QueueInterleaving.SlotOutlastsPodIff | backend/app/services/k8s_worker/pod_builder.py:107-112 | the slot outlasts every pod that starts within the grace exactly when the timeout is not zero, and the provisional slot covers any timeout up to 3600 s |
| QueueInterleaving.ReservationsBounded | backend/app/services/execution_queue.py:89-106 | in every interleaving a user's reservations stay within the largest limit used |
| QueueInterleaving.OwnersAgreeAlways | backend/app/services/execution_queue.py:98-105 | in every interleaving an id with a live owner key is in that owner's set unless its deadline has passed |
| QueueInterleaving.LimitsHoldInEveryRun | backend/app/services/execution_queue.py:64-216 | from an empty Redis every reachable state keeps both limits and an agreeing owner index |
| QueueRetention.RequestReadableIff | backend/app/services/execution_queue.py:154-163 | through every interleaving that neither enqueues, releases nor removes its id, an enqueued request reads back exactly for 86400 s |
| QueueRetention.LoadFindsRequestIff | backend/app/services/execution_queue.py:189-202 | a worker that popped the id goes on with that request until then, and with a lost one after |
| QueueRetention.AttemptSchedulesIff | backend/app/services/execution_queue.py:171-216 | an uninterrupted attempt that pops the id is scheduled with that request until then, and lost after |
| QueueRetention.SlotLasts | backend/app/services/execution_queue.py:204-205 | a slot lasts the timeout, at least 30 s for Go, and 300 s more |
| QueueRetention.PodLasts | backend/app/services/k8s_worker/pod_builder.py:107-112 | a pod's deadline is the timeout, at least 30 s for Go, where zero stands for 300 s |
| QueueRetention.ReleasedIsForgotten | backend/app/services/execution_queue.py:218-223 | a released id has no slot, and no request in any later state until it is enqueued again |
| QueueRetention.RemovedStaysAbsent | backend/app/services/execution_queue.py:239-249 | a removed id waits nowhere, has no slot and no request in any later state until it is enqueued again |
| QueueRetention.UpdateStepMoves | backend/app/services/execution_queue.py:225-237 | a priority change moves the waiting id's entry with its score and changes nothing else |
| QueueRetention.ReleaseIsItsSteps | backend/app/services/execution_queue.py:141-152 | release_user_slot is its read and its transaction when nobody acts in between |
| QueueRetention.IdleIsItsStep | backend/app/services/execution_queue.py:177-182 | try_schedule that finds nothing is its script |
| QueueRetention.ScheduledIsItsSteps | backend/app/services/execution_queue.py:177-209 | one that schedules is its pop, load and rescore when nobody acts in between |
| QueueRetention.LostIsItsSteps | backend/app/services/execution_queue.py:190-199 | one that loses its request is its pop, load and the cleanup of both slots |
| QueueRetention.GrantReserves | backend/app/services/execution_queue.py:102-104 | a granted id is in the user's set for 86400 s, as are its owner key and the set |
| QueueRetention.GrantJoins | backend/app/services/execution_queue.py:98-105 | it joins the reservations in flight, which keep their deadlines |
| QueueRetention.RefusalReservesNothing | backend/app/services/execution_queue.py:98-101 | a refusal leaves every reservation in flight and every owner as it was |
| QueueRetention.ReserveLeavesOthers | backend/app/services/execution_queue.py:89-106 | reserving changes no other user's set and no other key |
| QueueRetention.GrantedCountsIff | backend/app/services/execution_queue.py:130-139 | through every interleaving that neither frees nor rescores it, a granted reservation counts against its user exactly for 86400 s |
| QueueRetention.ReservationNeedsGrant | backend/app/services/execution_queue.py:102 | only a grant ever adds an id to a user's set, in any interleaving |
| QueueRetention.OwnerReadableIff | backend/app/services/execution_queue.py:104 | its user can be read for release exactly that long too |
| QueueRetention.RescoredCountsIff | backend/app/services/execution_queue.py:206-209 | a rescored reservation counts until its new deadline exactly if its user's set does not expire before, which the rescore leaves as it was |
| QueueRetention.RunningReservationForgotten | backend/app/services/execution_queue.py:206-209 | a run from an empty Redis after which a user with a limit of one has a second execution in flight |
| Scheduler.BusyTakesHead | backend/app/services/execution_queue.py:177-187 | an attempt that popped took exactly the head of the queue |
| Scheduler.BusySlots | backend/app/services/execution_queue.py:189-209 | it leaves other unexpired slots alone, rescores its own, and holds none for a lost request |
| Scheduler.BusyUsers | backend/app/services/execution_queue.py:190-209 | a lost request's reservation is freed, and no freed reservation comes back |
| Scheduler.SlotsOwnedInEveryRun | backend/app/services/execution_queue.py:89-106 | in every interleaving that reserves each id at most once, each reservation belongs to the user its owner key names, as the drain requires |
| Scheduler.SettledIffNotRaised | backend/app/services/execution_scheduler.py:61-83 | a popped execution ends up started with its slot, or failed without, exactly when the results do not raise |
| Scheduler.RaiseLeavesUnsettled | backend/app/services/execution_scheduler.py:69-81 | an input on which they raise: the popped execution has a slot, no pod, and is not failed |
| WakeUps.StepMissesIff | backend/app/services/execution_scheduler.py:32-85 | with nothing missed, one command leaves an execution waiting beside a free slot with nobody due to look exactly when it is the raise of the last drain due |
| WakeUps.MissedIff | backend/app/services/execution_scheduler.py:32-85 | over every interleaving of requests, endings, cancels, timers and drains the same, exactly when the last drain due raised and nothing woke another since |
| WakeUps.NoWakeUpLost | backend/app/services/execution_scheduler.py:48-85 | if no drain raises, then whenever nobody is due, nothing waits or every slot is taken |
| WakeUps.TimerRecovers | backend/app/worker.py:68-70 | whatever was missed before a timer, only a later raise of the last drain due can leave something missed |
| WakeUps.RaisedDrainMisses | backend/app/services/execution_scheduler.py:34-35 | a run in which a queued request is left beside a free slot |
| Scheduler.ExecutionScheduler.StartNext | backend/app/services/execution_scheduler.py:58-83 | one round either finds nothing to start, or shrinks the queue by one id, which ends up started or failed unless the results raise; then pods and failures are as before but for an orphan, and the id keeps its rescored slot, or has none if its request was lost |
| Scheduler.ExecutionScheduler.SchedulePending | backend/app/services/execution_scheduler.py:54-85 | the drain ends, with nothing waiting or every slot taken by an unexpired deadline, and each popped id has a pod and a slot, or is failed with neither slot; if the results raise it stops, and exactly the last popped id is neither started nor failed, with its rescored slot, or without one if its request was lost |
| Scheduler.ExecutionScheduler.Finish | backend/app/services/execution_scheduler.py:48-52 | the ended execution's slots are freed before the drain, which then ends or stops as above |
| ExecutionLifecycle.AtMostOneEnding | backend/app/services/result_processor/processor.py:169-202 | over all interleavings at most one terminal write wins, result_stored and the terminal event go out at most once, and a completed, failed or timeout event means that status is stored |
| ExecutionLifecycle.WinnerIsStored | backend/app/services/result_processor/processor.py:84-166 | the winning handler's result is stored, with status completed, failed, timeout, cancelled or error as its event says |
| ExecutionLifecycle.StoredCancelStands | backend/app/services/result_processor/processor.py:147-202 | once a cancel is stored nothing overwrites it or announces another ending |
| ExecutionLifecycle.PodDeletedAfterStore | backend/app/services/execution_scheduler.py:37-46 | in every interleaving in which no write before a deletion is lost, the pod is deleted only after the execution ended or is gone |
| ExecutionLifecycle.DeletionOrderIff | backend/app/services/result_processor/processor.py:182-187 | from any reachable state, every continuation of a step keeps that order exactly when the step is not the write of a cancel or the pod monitor to an active execution that raises unapplied |
| ExecutionLifecycle.LostCancelIsAnnouncedAsFailure | backend/app/services/result_processor/processor.py:182-187 | the exception happens: a run in which the pod's failure is stored and announced after the cancel |
| ExecutionLifecycle.EndedIff | backend/app/services/result_processor/processor.py:169-202 | once all handlers are done, an execution that was not deleted has ended exactly when at least one handler did not give up over a database error in its read or its write |
| ExecutionLifecycle.StaysActive | backend/app/services/result_processor/processor.py:182-187 | and if it has not, no later step ends it |
| ExecutionLifecycle.LostResultStaysActive | backend/app/services/pod_monitor/monitor.py:206-230 | a run in which one lost write makes the monitor delete the pod of an execution that stays active for good |
| ExecutionLifecycle.ExactlyOneEnding | backend/app/services/result_processor/processor.py:169-202 | in every interleaving without a failed call, once all handlers are done exactly one ending is stored, under its own status, only it is announced, once if it is the pod's, and result_stored goes out once unless the API ended it |
| ExecutionLifecycle.PodDeletedIff | backend/app/services/pod_monitor/monitor.py:223-230 | in every interleaving without a failed call, deleted executions included, the pod is deleted once all handlers are done exactly when a cancel or the monitor was one of them |
| ExecutionLifecycle.WritesIff | backend/app/db/repositories/execution_repository.py:32-61 | a terminal write applies exactly to a queued, scheduled or running execution, and stores its own status and result |
| ExecutionLifecycle.AdvancesIff | backend/app/db/repositories/execution_repository.py:63-70 | an advance applies exactly from queued to scheduled or running and from scheduled to running, and changes only the status |
| ExecutionLifecycle.ProgressIs | backend/app/services/result_processor/processor.py:48-52 | a pod event advances the stored status exactly so |
| ExecutionLifecycle.DeletedStaysDeleted | backend/app/db/repositories/execution_repository.py:32-61 | no handler brings a deleted execution back |
| ExecutionLifecycle.StoreIsItsSteps | backend/app/services/result_processor/processor.py:169-202 | the machine's steps from a handler's write on leave the document and messages of _store, for every outcome of its calls |
| ExecutionLifecycle.StatusMovesForward | backend/app/db/repositories/execution_repository.py:32-70 | over any interleaving the active rank never falls, ended executions never change, and results come only with a terminal status |
| ExecutionLifecycle.ExecutionRepository.WriteTerminalResult | backend/app/db/repositories/execution_repository.py:32-61 | writes status and result if and only if the stored status is queued, scheduled or running |
| ExecutionLifecycle.ExecutionRepository.AdvanceStatus | backend/app/db/repositories/execution_repository.py:63-70 | the search in the list of active statuses advances exactly from earlier ones |
| ExecutionLifecycle.ResultProcessor.Store | backend/app/services/result_processor/processor.py:169-202 | for every outcome of its write and its publishes: stores its own status and result exactly if the execution is active and the write is applied, and publishes the event and result_stored for a write that won, result_failed for one that raised, and nothing for one that lost |
| PodEventMapper.CacheBounded | backend/app/services/pod_monitor/event_mapper.py:216-223 | the phase cache never exceeds its bound, over any history |
| PodEventMapper.CachedIsLastProduced | backend/app/services/pod_monitor/event_mapper.py:114-143 | a cached phase is the last one that produced events for the pod since its deletion |
| PodEventMapper.OneEnding | backend/app/services/pod_monitor/event_mapper.py:145-178 | a well-behaved pod that is never evicted gets exactly one terminal event if any of its events shows a readable ending, the one that the first of these shows, and none otherwise |
| PodEventMapper.EmitsIff | backend/app/services/pod_monitor/event_mapper.py:94-390 | over any history, exactly when the last watch event raises and which events it yields, from the pod's own fields and the cached phase: timeout for an exceeded deadline unless all containers exited 0, completed for Succeeded or all exited 0, failed for Failed otherwise, and likewise scheduled, running and terminated |
| PodEventMapper.EmitsInOrder | backend/app/services/pod_monitor/event_mapper.py:131-143 | these are one event at most, and then the termination |
| PodEventMapper.CachesStayRelated | backend/app/services/pod_monitor/event_mapper.py:216-223 | a bounded cache agrees with an unbounded one, except for forgotten pods and pods seen running where the other still has Pending |
| PodEventMapper.SuppressesIff | backend/app/services/pod_monitor/event_mapper.py:131-178 | over any history, exactly when the bounded cache drops an event that the unbounded one puts out |
| PodEventMapper.EndingNeverSuppressed | backend/app/services/pod_monitor/event_mapper.py:275-390 | over any history eviction never costs a completed, failed or timeout event |
| PodEventMapper.EvictionOnlyRepeats | backend/app/services/pod_monitor/event_mapper.py:216-223 | when running pods report containers and results parse, eviction suppresses nothing |
| PodEventMapper.RunningCanBeSuppressed | backend/app/services/pod_monitor/event_mapper.py:156-166 | for every bound, a history in which an evicted pod's running event is lost |
| PodEventMapper.MapperForgetsOldestHalf | backend/app/services/pod_monitor/event_mapper.py:216-223 | ten thousand pods fit, and one more makes the mapper forget exactly the first five thousand |
| PodEventMapper.Mapper.RememberPhase | backend/app/services/pod_monitor/event_mapper.py:216-223 | the eviction loop drops exactly the oldest half when the cache is full, then records the phase |
| PodEventMapper.Mapper.Map | backend/app/services/pod_monitor/event_mapper.py:94-143 | one call on the cache of a history gives the cache and output of the longer history |
| PodMonitor.CleanedOrLost | backend/app/services/pod_monitor/monitor.py:195-230 | over any history, each ending the mapper puts out is cleaned up after exactly once or lost to a raise |
| PodMonitor.IgnoredIff | backend/app/services/pod_monitor/monitor.py:195-204 | a watch event in an ignored phase leads to nothing, and any other is mapped and handled |
| PodMonitor.CleanedOnceOrNever | backend/app/services/pod_monitor/monitor.py:195-230 | deleting a well-behaved, never evicted pod with a readable ending is attempted exactly once if nothing raised after the ending, and otherwise never |
| PodMonitor.DeletedAfterHandled | backend/app/services/pod_monitor/monitor.py:206-230 | deleting a pod is attempted only after its ending was handled, and its slots are freed right after |
| PodMonitor.Monitor.HandleEvents | backend/app/services/pod_monitor/monitor.py:206-216 | the loop handles the mapped events in order up to the one whose handling raises, and tells whether one was an ending |
| PodMonitor.Monitor.ProcessPodEvent | backend/app/services/pod_monitor/monitor.py:195-230 | one call on the state of a history gives the cache, actions and phase counts of the longer history |
| PodMonitor.NeverDeleted | backend/app/services/pod_monitor/monitor.py:206-213 | deleting a failed pod whose ending raised once is never attempted, whatever the watch reports of it afterwards, as long as it is well-behaved and never evicted |
| PodMonitor.PhasesIff | backend/app/services/pod_monitor/monitor.py:257-264 | over any history the gauge counts a pod exactly in the phase its newest watch event shows, and not once that was a deletion |
| FramedOutput.ParseDec | backend/app/services/pod_monitor/event_mapper.py:515 | int() reads back every decimal length |
| FramedOutput.FrameIsParsed | backend/app/services/pod_monitor/event_mapper.py:513-516 | a framed stream after text without its marker is parsed back, whatever its bytes |
| FramedOutput.RoundTrip | backend/app/services/pod_monitor/event_mapper.py:509-525 | prefix, framed stdout, separator, framed stderr and rest parse to exactly both streams, markers inside them included |
| FramedOutput.ShownIs | backend/app/scripts/entrypoint.sh:112-126 | a stream is shown whole up to 262144 bytes, and otherwise its first 262144 bytes and the notice |
| FramedOutput.EntrypointWrites | backend/app/scripts/entrypoint.sh:112-129 | the entrypoint writes each stream under its marker and its length in decimal, stdout first |
| FramedOutput.EntrypointRoundTrip | backend/app/scripts/entrypoint.sh:112-129 | what the entrypoint writes parses to both streams, whole or cut at the limit with the notice |
| SlidingWindow.WindowIsRecent | backend/app/services/rate_limit_service.py:149-159 | the pruned, expiring set is always all requests of the last window, allowed or denied |
| SlidingWindow.AllowedIff | backend/app/services/rate_limit_service.py:161-186 | a request is allowed exactly when it and the requests of the window before it are at most limit |
| SlidingWindow.RemainingIs | backend/app/services/rate_limit_service.py:162 | remaining is what the limit leaves beside the requests of the window |
| SlidingWindow.WindowBound | backend/app/services/rate_limit_service.py:144-186 | every half-open interval of one window admits at most limit, over any history |
| SlidingWindow.RetryAfterIff | backend/app/services/rate_limit_service.py:164-177 | exactly when a retry after retry_after is admitted |
| SlidingWindow.RetryAfterCanFail | backend/app/services/rate_limit_service.py:164-177 | a history in which that retry is denied |
| SlidingWindow.SlidingWindowLimiter.CheckSlidingWindow | backend/app/services/rate_limit_service.py:144-186 | the pipeline and the answer on the stored keys, as in the histories |
| SlidingWindow.ThrottleKeepsAccepted | backend/app/services/notification_service.py:71-79 | the throttle keeps exactly the accepted calls of the window |
| SlidingWindow.AcceptsIff | backend/app/services/notification_service.py:74-80 | a notification passes exactly when fewer than max were accepted in the window before it |
| SlidingWindow.AllowedIsAccepted | backend/app/services/rate_limit_service.py:161-186 | on the same arrivals, whatever the sliding window admits an accepted-only window admits too |
| SlidingWindow.ThrottleCache.CheckThrottle | backend/app/services/notification_service.py:55-80 | the pruning loop, the limit test and the append give the specified entries and answer |
| TokenBucket.LeftIsStored | backend/app/services/rate_limit_service.py:195-216 | the histories' tokens and decisions are those of the script, request by request |
| TokenBucket.FoundInRange | backend/app/services/rate_limit_service.py:195-213 | the bucket holds between zero and max tokens, over any history |
| TokenBucket.ForgettingInvisibleIff | backend/app/services/rate_limit_service.py:222-236 | key expiry changes no decision in any history exactly when limit * burst is less than 2 * limit + 1 |
| TokenBucket.AdmissionBoundIff | backend/app/services/rate_limit_service.py:219-236 | any seconds admit at most limit * burst plus limit for each window, in every history, exactly under the same condition |
| TokenBucket.BurstAdmittedIff | backend/app/services/rate_limit_service.py:223 | while the key is missing, n requests at one moment are all admitted exactly when n is at most limit * burst |
| TokenBucket.DrainedRegainsIff | backend/app/services/rate_limit_service.py:205-224 | after such a burst drained it, the bucket admits the next request exactly from window / limit seconds on |
| TokenBucket.ForgottenAfterTwoWindows | backend/app/services/rate_limit_service.py:215-237 | two windows after a request the bucket is full again whatever was left |
| TokenBucket.RemainingIff | backend/app/services/rate_limit_service.py:243-247 | remaining is how many more requests are admitted at that moment |
| TokenBucket.RetryAfterIsEnough | backend/app/services/rate_limit_service.py:251-260 | waiting retry_after with no other request is admitted exactly when limit * burst is at least one, and a wait over a second shorter is denied |
| TokenBucket.RaisesIff | backend/app/services/rate_limit_service.py:251 | a check raises a division by zero exactly when the multiplied limit is zero |
| TokenBucket.TokenBucketLimiter.Eval | backend/app/services/rate_limit_service.py:188-217 | the script on the stored, expiring key takes the step of the histories |
| TokenBucket.TokenBucketLimiter.CheckTokenBucket | backend/app/services/rate_limit_service.py:219-260 | the script's arguments, the key's expiry after two windows, and the answer from its result |
| DeadLetter.RetryTimes | backend/app/dlq/models.py:58-74 | delays double from 30 s, stay at 300 s, and are moved by at most a tenth |
| DeadLetter.RetriesBounded | backend/app/dlq/manager.py:116-182 | in every run each group has at most five published retries and six handler runs, on the original and then on its own retries in order |
| DeadLetter.QuietMeansEnded | backend/app/dlq/manager.py:78-182 | when nothing is left to do every group has ended: succeeded, discarded after six runs, filtered, or with a failure or retry that one of the listed raises left behind |
| DeadLetter.EndsSucceededOrDiscardedIff | backend/app/dlq/manager.py:78-182 | a finished run leaves a group succeeded, or discarded after exactly six runs, if and only if no filter dropped its failure, no save or report of it raised, no decision on it went unstored, no mark of its retry was stored by a write that raised, and no such mark stayed after its publish raised |
| DeadLetter.UnsavedFailureIsLost | backend/app/dlq/manager.py:92-94 | a run whose failure leaves neither a row nor anything to do |
| DeadLetter.UnreportedFailureIsStuck | backend/app/dlq/manager.py:96-114 | a run that ends with a pending row that nothing retries |
| DeadLetter.FailedRollBackLosesRetry | backend/app/dlq/manager.py:157-164 | a run that ends with a row that says retried although nothing was published |
| DeadLetterTermination.EveryRunEnds | backend/app/dlq/manager.py:116-182 | n groups take at most n(5n+52) effective steps, plus n+3 for each publish or mark that raises while retrying |
| DeadLetterManager.HandledRowIsThreeSteps | backend/app/dlq/manager.py:92-125 | the row handle_message leaves, whatever its writes do, is the one the protocol's three steps leave |
| DeadLetterManager.FilteredIff | backend/app/dlq/manager.py:55-70 | production drops exactly the ids that start with "test-" and the failures at least 604800 s old, a test environment only the latter |
| DeadLetterManager.HandledInOrder | backend/app/dlq/manager.py:98-118 | a failure is announced exactly once its row is saved, and its discard after that, from five retries on |
| DeadLetterManager.RetryChanges | backend/app/dlq/manager.py:139-163 | the mark counts one retry more, taking it back restores the count, and neither moves the due time |
| DeadLetterManager.Manager.HandleMessage | backend/app/dlq/manager.py:78-125 | filtered, unsaved, left pending, discarded from five retries on, or scheduled, for any outcome of its two writes and its publishes; and what is published in each case |
| DeadLetterManager.Manager.DiscardMessage | backend/app/dlq/manager.py:184-218 | the row is discarded whether or not the announcement raises, and nothing is announced when the update raises |
| DeadLetterManager.Manager.RetryMessage | backend/app/dlq/manager.py:127-182 | for every outcome of its writes and publishes: published with the next count and marked retried, or nothing is published; then the row is back to scheduled with its old count unless the mark raised after it was stored or was not taken back |
| DeadLetterManager.Manager.FindDueRetries | backend/app/db/repositories/dlq_repository.py:123-135 | at most a hundred distinct due rows, and all of them when fewer |
| DeadLetterManager.Manager.ProcessDueRetries | backend/app/dlq/manager.py:220-228 | for every outcome of each retry: all due rows up to the first that raises are published and marked, that one as far as it got, and every other row is left as it was |
| DeadLetterManager.Manager.UpdateStatus | backend/app/db/repositories/dlq_repository.py:116-121 | changes the named row's status, count and due time, each only where given, and no other row; or raises, with or without doing so |
| Idempotency.OneRunAtATime | backend/app/services/idempotency/idempotency_manager.py:83-178 | in every interleaving of the Redis commands at most one run is in progress or completed, if keys live, runs stay under the timeout and releases are safe |
| Idempotency.UnsafeReleaseBreaks | backend/app/services/idempotency/idempotency_manager.py:171-178 | a release beside a delivery between its failed SET NX and its second look can let two deliveries run exactly when a third is undecided, that is when the release is not safe |
| Idempotency.OneRunIff | backend/app/services/idempotency/idempotency_manager.py:83-178 | with no condition on releases, one run at a time holds in all timely interleavings exactly for at most two deliveries |
| Idempotency.OneRunAnyTimeIff | backend/app/services/idempotency/idempotency_manager.py:128-155 | with no condition on time either, it holds exactly for at most one delivery |
| Idempotency.ReleaseBesideCollision | backend/app/services/idempotency/idempotency_manager.py:171-178 | a timely run from the start after which two of three deliveries run at once |
| Idempotency.TwoTakeOvers | backend/app/services/idempotency/idempotency_manager.py:134-145 | a run from the start in which a timed-out run is taken over twice |
| Idempotency.ExactlyOneGranted | backend/app/services/idempotency/idempotency_manager.py:157-178 | without a release any interleaving of find, SET NX and second look grants exactly one delivery |
| Idempotency.ReserveIs | backend/app/services/idempotency/idempotency_manager.py:83-178 | uninterrupted, the four commands grant a missing or timed-out key and skip any other |
| Idempotency.OneCoarseRunAtATime | backend/app/events/middlewares.py:41-56 | with check_and_reserve as one step, one run at a time holds whenever keys are released |
| Idempotency.GrantedIff | backend/app/events/middlewares.py:41-56 | a delivery is granted exactly when no run is in progress and none completed, so a raised run's retry runs and a completed run's does not |
| Idempotency.RedisIdempotencyRepository.InsertProcessing | backend/app/services/idempotency/redis_repository.py:95-102 | SET NX EX inserts only where no live record is |
| Idempotency.RedisIdempotencyRepository.UpdateRecord | backend/app/services/idempotency/redis_repository.py:106-110 | overwrites a live record, keeps its expiry, and leaves an expired one gone |
| Idempotency.RedisIdempotencyRepository.DeleteKey | backend/app/services/idempotency/redis_repository.py:112-113 | drops the key and no other |
| Idempotency.IdempotencyManager.CheckAndReserve | backend/app/services/idempotency/idempotency_manager.py:83-155 | its moves and result are the machine's commands on whatever it finds before each, with other deliveries acting in between, and the uninterrupted reservation when none acts |
| Idempotency.IdempotencyManager.CreateNewKey | backend/app/services/idempotency/idempotency_manager.py:157-178 | SET NX, and after a lost one the second look, as the machine takes them |
| Idempotency.IdempotencyManager.HandleExistingKey | backend/app/services/idempotency/idempotency_manager.py:103-155 | skips a completed or running record and takes over a timed-out one that is still there |
| Idempotency.IdempotencyManager.MarkCompleted | backend/app/services/idempotency/idempotency_manager.py:210-226 | completes a live record and changes nothing otherwise |
| Idempotency.IdempotencyManager.ConsumeScope | backend/app/events/middlewares.py:32-56 | a raise leaves no key; with no other delivery acting, a return leaves a completed one and a skipped delivery changes nothing |
| RetriedDelivery.LostIff | backend/app/events/handlers.py:36-44 | over every run of both machines together, an event counts as handled with no handler run returned exactly when a delivery was skipped for a failed one's record |
| RetriedDelivery.NoneLostIfReleased | backend/app/events/middlewares.py:50-56 | no failure is lost in any run in which deliveries that raise leave no record |
| RetriedDelivery.CompletedRunIsLast | backend/app/events/middlewares.py:41-56 | once a returned run is marked completed, no delivery runs the handler again before the record expires, in any run |
| RetriedDelivery.ReservedForAnHour | backend/app/events/handlers.py:37-38 | a delivery granted where no record is holds the key for 3600 s |
| RetriedDelivery.DeliveryEnds | backend/app/events/middlewares.py:70-95 | a delivery that returns ends the event for the group, and one that raises leaves it to the dead-letter queue |
| RetriedDelivery.CanLoseIff | backend/app/events/middlewares.py:50-56 | a failed delivery that left its record can be lost exactly when a retry is left and its earliest due time is within the processing timeout and before the record's expiry |
| RetriedDelivery.FirstFailureCanBeLost | backend/app/events/middlewares.py:52-54 | a run from the start whose first failure can be lost that way |
| RetriedDelivery.ReservedIsReserve | backend/app/services/idempotency/idempotency_manager.py:83-178 | the composed machine reserves as the idempotency machine does |
| UserSettings.ReadsAgree | backend/app/services/user_settings_service.py:35-54 | after any updates and restores, snapshot plus later events is the plain meaning |
| UserSettings.ReadsFoldAtMostNine | backend/app/services/user_settings_service.py:81-82 | no read folds more than nine events |
| UserSettings.SnapshotIsTheTenth | backend/app/services/user_settings_service.py:58-83 | an update stores one event, is one version newer than what it read, and takes a snapshot exactly as the tenth event since the last |
| UserSettings.SnapshotsAreInvisible | backend/app/db/repositories/user_settings_repository.py:23-28 | more snapshots, at any moment, change neither settings nor their updated_at |
| UserSettings.RestoreFoldsBefore | backend/app/db/repositories/user_settings_repository.py:45-51 | a restore folds exactly the events of the operations up to its time |
| UserSettings.RestoreReproducesIff | backend/app/services/user_settings_service.py:162-185 | restoring gives back the settings of its time exactly when every field the last restore before it undid was set again or had the same value |
| UserSettings.FirstRestoreReproduces | backend/app/services/user_settings_service.py:162-185 | so it does whenever no earlier restore precedes that time |
| UserSettings.Settings.ApplyEvent | backend/app/services/user_settings_service.py:189-205 | sets exactly the fields the event carries, and updated_at |
| UserSettings.UserSettingsService.GetSettingsEvents | backend/app/db/repositories/user_settings_repository.py:30-55 | the query: strictly after since, up to and including until, in order |
| UserSettings.UserSettingsService.GetUserSettings | backend/app/services/user_settings_service.py:35-54 | snapshot or defaults, with the later events applied in a loop |
| UserSettings.UserSettingsService.UpdateUserSettings | backend/app/services/user_settings_service.py:58-83 | an empty change does nothing; otherwise one event, the new settings, and a snapshot from the tenth event on |
| UserSettings.UserSettingsService.RestoreSettingsToPoint | backend/app/services/user_settings_service.py:162-185 | the folded settings become the snapshot, dated at the marker event, which carries no field |
| Replay.FetchEvents | backend/app/db/repositories/replay_repository.py:36-48 | the batches concatenate to the sorted matches, each full but the last, none empty |
| Replay.CutIsUnique | backend/app/db/repositories/replay_repository.py:36-48 | that fixes every batch |
| Replay.FetchedIs | backend/app/services/event_replay/replay_service.py:20 | batches hold a hundred events |
| Replay.Session.Send | backend/app/services/event_replay/replay_service.py:89-113 | one event counts as replayed, or as failed with one error, or not at all, as its fate says |
| Replay.Session.Replay | backend/app/services/event_replay/replay_service.py:79-87 | given each event's fate and the fetch that raises, exactly how many events are attempted, in order, and whether something unexpected was raised |
| Replay.Session.Run | backend/app/services/event_replay/replay_service.py:52-70 | attempts the first max_events matches in order up to the first attempt or fetch that raises something unexpected; fails exactly if one does, with one error more than failed events, and otherwise completes with one error for each |

## Left out

Assumptions:

- Redis commands, scripts, transactions and conditional MongoDB updates are atomic. Redis errors inside the queue's
  operations, among them the rescore and the lost request's ZREM, are modelled only as a drain that raises
  (`WakeUps.dfy`), and failed reads of the dead-letter rows not at all.
- The clock of all processes is one monotone real number. In the queue a reading may be stale when its command runs.
  A key with an expiry is live while the clock is below it.
- Ids, users, pods and consumer groups are numbers or strings without structure, and execution ids are ordered as
  numbers where Redis orders members as bytes.
- Dead letter: each message is delivered once to each group, a group handles one delivery of the event at a time, one
  processor runs at a time, and a publish that raises published nothing and raises one of the producer's errors. The
  announcement after a discard is not a step of its own.
- Wake-ups: every drain uses at least the limit that the statement names, and a slot counts as taken until a script
  removes it, so one that only runs out waits for the next drain, at the latest the timer's.
- Lifecycle: each handler stands for one call, and a repeated delivery is one more handler. The pod counts as deleted
  once its deletion is called for.
- Retried deliveries: one delivery of the event to the scheduler's group at a time, as in the dead-letter protocol,
  so check_and_reserve is one step there. A call that raises may or may not have changed the key.
- User settings: one writer, strictly increasing event timestamps, every published event is stored and none has
  expired. Values are opaque strings.
- Pods: containers are exit codes; logs always read unless the termination message does not parse.
- Replay: the cursor yields the sorted matches. The saves before the first batch and after the last are not modelled.

Weaker than the code:

- QueueInterleaving.SlotCoversPod: assumes that the request loads before the provisional slot runs out and that the pod starts within the grace period, as the code does, and that the id waits nowhere else when it is popped
- PodEventMapper.OneEnding: assumes that phases move forward, that DeadlineExceeded shows only in Failed, and that DELETED comes last
- PodEventMapper.SuppressesIff: assumes that DeadlineExceeded shows only in Failed
- PodEventMapper.EndingNeverSuppressed: makes the same assumption as SuppressesIff
- Scheduler.ExecutionScheduler.SchedulePending: covers a drain with no concurrent enqueue or other worker; QueueInterleaving covers those
- Scheduler.ExecutionScheduler.StartNext: makes the same assumption as SchedulePending
- Scheduler.ExecutionScheduler.Finish: makes the same assumption as SchedulePending
- PodMonitor.CleanedOnceOrNever: makes the same assumptions as PodEventMapper.OneEnding and counts calls, of which an API error that the monitor only logs may leave the pod in place
- PodMonitor.NeverDeleted: makes the same assumptions as PodEventMapper.OneEnding
- FramedOutput.RoundTrip: speaks of bytes, not of the decoded text, and int()'s limit of 4300 digits is not modelled
- DeadLetter.RetryTimes: the random number is a parameter
- Idempotency.IdempotencyManager.MarkCompleted: nothing acts between its read and its write; the machine's Load and Store steps may be interleaved

Not modelled:

- The cancel's removal from the queue before it is stored is a queue step, not a step of the lifecycle machine.
- The pod monitor's watch stream and its relisting of pods.
- Rule matching, multipliers' configuration and summaries of the rate limits, and parsing of resource quantities:
  direct expressions.
- Idempotency key derivation, cached results and mark_failed, which the middleware does not use.
- Settings history, version numbers across reads and created_at.
- Claiming of replay sessions and failing of interrupted ones.
- HTTP routes, authentication, the frontend, Kubernetes manifests, tracing and metrics.
- UTF-8 decoding, JSON and float precision.
