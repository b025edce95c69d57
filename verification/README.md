# Verification of the inferential scheduling core

This project models the Python inference server of this repository — its schedulers, the concurrent
protocol that dispatches requests to models, the packing of tensors into messages, the client that sorts
replies by model, and the cadence estimate — and proves what they guarantee over all inputs and all runs.
`dafny verify dfyconfig.toml` checks everything.

## How it is organised

- `Requests`, `Scoring`: the request, `__lt__`, the expiry test and `_compute_score`. Times and scores are
  reals. A request is a value; its `id` stands for the identity of the Python object and for the frames
  it carries. The fields that the source overwrites in place (`score`, `_counter`, `retry_count`) are
  changed by replacing the value.
- `BinaryHeap`: the loops of Python's `heapq`. `ServiceOrder`: the order in which a set of requests is
  served, defined without heaps. That popping a heap follows this order is proved, not assumed.
- `Eviction`, `OrderedDict`, `ModelHeaps`, `TierHeaps`: what the deadline schedulers do to their lists and
  dictionaries. `ModelDeadline`, `TieredDeadline`, `DeadlineAware`: the three scheduler classes. The ghost
  field `contents` is the set of everything queued; `Valid` ties it to heaps, counters and the cached total.
- `Deques`, `RoundRobin`, `BatchOptimized`: the two queue schedulers, each method proved against a
  function from the old to the new state. `RoundRobinFairness`, `BatchFlush`, `HeadEviction`: whole runs.
- `Pipeline`: the per-model dispatch protocol as a transition system, one event for the code between two
  awaits. `PipelineRuns`, `QueueBounds`, `RunHistory`: what holds of every interleaving. `Server`: the server
  object on top of the scheduler object; each of its methods is an event of the protocol.
- `LocalDispatch`: `LocalDispatcher.dispatch`, and the legacy loop from a batch to its endings. `LegacyProtocol`: the
  server with the legacy loop as a transition system, again one event for the code between two awaits.
  `LegacyDrain`: it empties the queue. `LegacyBounds`: how long the queue gets. `LegacyLoop`: the server object on
  top of the single-heap scheduler object.
- `SharedProtocol`: the default configuration, in which both kinds of loops drain one scheduler.
- `Starvation`: what age does for a waiting request.
- `NumpyArrays`, `Tensors`, `Responses`: packing and unpacking. `Demux`: the synchronous client. `Cadence`: the
  moving average.

## What the environment is assumed to do

- Clock readings are parameters; in the protocol they never go back. `latency_budget_ms` is positive. The
  configuration obeys the bounds of its schema (python/inferential/config/schema.py). Weights are
  non-negative only where a statement says so.
- The protocol is stated with pipeline dispatch enabled and the `model_deadline` scheduler in place from the
  start. A dispatcher returns exactly one result for the one request it is given, or raises; `LocalDispatch`
  proves this for the built-in local one, the failure to reconstruct included. Waiting for the dispatcher and
  sending are one event, because nothing shared is touched between them. Releasing a permit and resuming the
  next waiter are one step.
- With pipeline dispatch off, which is the default of the schema, a model-aware scheduler is drained both by the
  per-model loops, which `_receive_loop` starts all the same (python/inferential/server.py:190-193), and by the
  legacy loop (python/inferential/server.py:370-376). This is `SharedProtocol`; which model the legacy loop finds
  first is left open there. `Pipeline` has pipeline dispatch enabled, `LegacyProtocol` the single-heap scheduler, for
  which no per-model loop is started.
- In the legacy loop, which responses can be sent and what a callable does with a request are parameters.

## Where the code and its documentation disagree

- `ModelAwareScheduler.next_batch` is documented to drain the model with the highest-scored request
  (python/inferential/scheduler/base.py:73). The code takes the first model in dictionary order that has
  anything; so does the model. The two agree exactly when the root of the first heap precedes the others
  (`ModelDeadline.ModelDeadlineScheduler.NextBatch`); `ModelDeadline.LowerScoreFirst` is a run where they do not.
- A comment calls the weight of a request's age "anti-starvation" (python/inferential/scheduler/deadline_aware.py:80).
  The score of a waiting request is never computed again, so its age counts only as of its arrival in the queue.
  Nothing that it precedes is dispatched before it (`PipelineRuns.PrecededWaits`), but any number of later
  requests that score higher on arrival can be (`Starvation.OvertakenBy`), until its time to live is over.

## What does not hold, and exactly when it does

- `max_queue_size` bounds the queue over all runs if and only if retries are off
  (`QueueBounds.QueueSizeKeptIffNoRetries`); with retries the bound is larger by the in-flight limits
  (`PipelineRuns.QueueAndPermitBounds`), and that bound is reached (`QueueBounds.BoundIsReached`). The legacy loop is
  no different (`LegacyBounds.LoopQueueKeptIffNoRetries`, `LegacyBounds.LoopBoundIsReached`).
- In the default configuration `max_inflight` does not bound what is in flight for a model, whatever the numbers are
  (`SharedProtocol.LimitIsExceeded`), because the legacy loop acquires no permit. It can be exceeded by
  `max_concurrent_dispatch` and no more (`SharedProtocol.SharedBounds`); no request is lost or answered twice for it
  (`SharedProtocol.SharedLosesNothing`).
- A batch that is not full waits for `max_wait_ms` if and only if its timer did not start before its first
  request arrived (`BatchFlush.PartialBatchWaitsIff`). Timers run on when an eviction, an expiry or a disconnect
  takes away the head of a queue, and a disconnect can leave one without a queue (`BatchFlush.LateAfterIff`,
  `BatchFlush.StaleAfterIff`); then a request can be flushed at once (`BatchFlush.StaleTimerFlushesEarly`,
  `BatchFlush.EarlyWithoutStaleTimer`).
- Eviction by queue heads can miss the oldest request after a retry (`HeadEviction.ResubmitHidesOldest`,
  `HeadEviction.ResubmitHidesOldestBatch`). For round robin, a retry spoils some later eviction if and only if it
  puts the request behind a younger one of its client (`HeadEviction.ResubmitStaysRightIff`), for the batching
  scheduler behind a younger one of its model (`HeadEviction.BatchResubmitStaysRightIff`). The eviction that comes
  right after it is spoiled only if every other head is younger too (`HeadEviction.VictimAfterAppendIff`), but that
  weaker condition does not last (`HeadEviction.GuardDoesNotLast`).
- The wire has no byte order. Arrays of multi-byte elements in the other order are accepted and come back
  as different numbers (`Tensors.SwappedIsMisread`). An argument of `observe` that is neither an array nor a string is
  dropped without an error (`Tensors.NumberIsDropped`). The round trip is exact if and only if there is neither
  (`Tensors.RoundTripIsExactIff`).
- Validation does not compare lengths with shapes, so an accepted observation can still fail to be
  reconstructed (`Tensors.AcceptedReadsIff`). In the legacy loop that failure escapes the dispatcher and leaves
  the whole batch without an ending (`LocalDispatch.LostIffMisSized`). Nothing catches it in
  `_dispatch_loop` either, so `asyncio.gather` raises in `run` and the server ends. These are the only requests that
  the loop loses (`LegacyProtocol.LoopLosesNothing`).
- An empty array is refused in an observation (`Tensors.PackedIsAcceptedIff`) and silently dropped from a
  response (`Responses.EmptyArrayIsDropped`); `Responses.ResponseIsExactIff` says when a response comes back as it was.

## Model

| member | source | states |
|---|---|---|
| `BinaryHeap.SiftDown` | python/inferential/scheduler/model_deadline.py:79 | `heapq._siftdown`: if only the link above `pos` may be broken, the result has the same items and every link from `start` down is in order |
| `BinaryHeap.SiftUp` | python/inferential/scheduler/model_deadline.py:98 | `heapq._siftup`: a heap below `pos` becomes a heap from `pos` on, with the same items |
| `BinaryHeap.HeapPush` | python/inferential/scheduler/model_deadline.py:79 | `heapq.heappush` on a heap: again a heap, with exactly one more item |
| `BinaryHeap.HeapPop` | python/inferential/scheduler/model_deadline.py:120 | `heapq.heappop`: returns an item that no other precedes; what is left is a heap of all the others |
| `BinaryHeap.Heapify` | python/inferential/scheduler/model_deadline.py:98 | `heapq.heapify`: any list becomes a heap of the same items |
| `BinaryHeap.RootIsFirst` | python/inferential/scheduler/request.py:23-28 | nothing in a heap precedes its root |
| `ServiceOrder.OrderIsSorted` | python/inferential/scheduler/request.py:23-28 | the service order of a set of requests holds each once, sorted by score descending and enqueue counter ascending |
| `ServiceOrder.SortedIsOrder` | python/inferential/scheduler/request.py:23-28 | any sorted list of the same requests is that service order: it does not depend on heap layout |
| `ServiceOrder.PoppedIsFirst` | python/inferential/scheduler/model_deadline.py:116-124 | a popped item that no other precedes is the head of the service order, and the rest keeps its order |
| `ServiceOrder.RemovalKeepsOrder` | python/inferential/scheduler/model_deadline.py:132-161 | removing any requests leaves the service order of the survivors: the old one with the removed ones filtered out |
| `ServiceOrder.SubmitKeepsOrder` | python/inferential/scheduler/deadline_aware.py:35-47 | nor does a submission: without the new request, the order is the old one without the evicted ones |
| `ServiceOrder.PrecedingServedFirst` | python/inferential/scheduler/request.py:23-28 | of two queued requests the preceding one stands earlier in the service order |
| `Requests.ExpiryIsADeadline` | python/inferential/scheduler/base.py:51-54 | a request has expired exactly when its arrival plus the time to live lies in the past |
| `Scoring.UrgencyAdds` | python/inferential/scheduler/model_deadline.py:56 | a difference in urgency is a difference in score, scaled by the weight |
| `Scoring.LatenessAdds` | python/inferential/scheduler/model_deadline.py:54-55 | a client that is not overdue gains nothing; one that is gains ten times the weight per second |
| `Scoring.StepsAdd` | python/inferential/scheduler/model_deadline.py:57-63 | 0, 1-2, 3-4 steps left gain the whole weight, 0.7 and 0.4 of it; more steps, or none given, gain nothing |
| `Scoring.PriorityAdds` | python/inferential/scheduler/model_deadline.py:64 | priority 0 gains the whole weight, each level less costs a tenth of it, the tenth and all beyond gain nothing |
| `Scoring.AgeAdds` | python/inferential/scheduler/model_deadline.py:65-66 | age gains the fraction of the weight that it is of the latency budget, and the whole weight from the budget on |
| `Scoring.NothingScoresNothing` | python/inferential/scheduler/model_deadline.py:53-67 | a request without any of these features scores 0 |
| `Scoring.DominanceScores` | python/inferential/scheduler/model_deadline.py:49-67 | with non-negative weights, a request that is at least as late, urgent, near its end, high-priority and aged scores at least as high |
| `Scoring.DominantServedFirst` | python/inferential/scheduler/model_deadline.py:49-67 | such a request, if enqueued earlier or with a strictly larger score, is served before the other |
| `Eviction.OldestIndex` | python/inferential/scheduler/model_deadline.py:94 | the first index with a minimal arrival time |
| `Eviction.EvictOldest` | python/inferential/scheduler/model_deadline.py:94-98 | overwriting the oldest by the last item, shortening and heapifying removes exactly the first oldest request and leaves a heap |
| `Eviction.FilterHeap` | python/inferential/scheduler/model_deadline.py:137-142 | filtering and heapifying only when something left leaves a heap of exactly the items kept |
| `ModelHeaps.PushIn` | python/inferential/scheduler/model_deadline.py:76-80 | a push stores the request under its model, with a new key at the end of the dictionary if there is none; keys, heaps, counters stay consistent |
| `ModelHeaps.PopIn` | python/inferential/scheduler/model_deadline.py:116-123 | a pop returns the first request of the model in service order and keeps the order of the others; the keys of the dictionary are the old ones that still hold something, in their old order |
| `ModelHeaps.EvictIn` | python/inferential/scheduler/model_deadline.py:82-102 | finds a victim exactly when something is queued; it is an oldest request over all models and the only one to leave; keys that still hold something keep their order, and no other is left |
| `ModelHeaps.OldestModel` | python/inferential/scheduler/model_deadline.py:84-91 | the scan of all heaps names a model whose heap holds a globally oldest request, and none exactly when nothing is queued |
| `ModelHeaps.KeepOnlyIn` | python/inferential/scheduler/model_deadline.py:132-147 | filtering all models stores exactly the survivors and counts what left; keys that still hold something keep their order, and no other is left |
| `ModelHeaps.SizesAddUp` | python/inferential/scheduler/model_deadline.py:80 | the heap sizes add up to the number of queued requests |
| `ModelHeaps.RemovalKeepsOrderForAll` | python/inferential/scheduler/model_deadline.py:132-161 | for every model, survivors of a filter are served in their old order |
| `ModelHeaps.SubmitKeepsOrderForAll` | python/inferential/scheduler/model_deadline.py:69-80 | and after a submission every model is served, the new request apart, in its old order without the evicted ones |
| `ModelDeadline.ModelDeadlineScheduler.constructor` | python/inferential/scheduler/model_deadline.py:32-41 | a new scheduler holds nothing |
| `ModelDeadline.ModelDeadlineScheduler.TotalIsSum` | python/inferential/scheduler/model_deadline.py:171-172 | the cached total is the sum of the heap sizes |
| `ModelDeadline.ModelDeadlineScheduler.Submit` | python/inferential/scheduler/model_deadline.py:69-80 | rejects exactly when full under the rejecting policy; otherwise queues the scored request, evicting one oldest request exactly when full; all others keep their order for every model |
| `ModelDeadline.ModelDeadlineScheduler.Resubmit` | python/inferential/scheduler/model_deadline.py:104-109 | queues the rescored request without an overflow check |
| `ModelDeadline.ModelDeadlineScheduler.DropOldest` | python/inferential/scheduler/model_deadline.py:82-102 | removes one globally oldest request if there is any, and nothing else; every model's service order is the old one without it |
| `ModelDeadline.ModelDeadlineScheduler.NextBatchForModel` | python/inferential/scheduler/model_deadline.py:116-124 | returns the head of the model's service order, nothing exactly when the model has nothing queued |
| `ModelDeadline.ModelDeadlineScheduler.NextBatch` | python/inferential/scheduler/base.py:72-78 | returns the first request of the first model in dictionary order that has any; it is the first of all queued requests if and only if the root of the first heap precedes the root of every other heap; the models that still hold something keep their order |
| `ModelHeaps.FirstModelHasFirstIff` | python/inferential/scheduler/base.py:72-78 | the same of the heaps: taking from the first model takes the first of everything queued exactly when its root leads |
| `ModelDeadline.LowerScoreFirst` | python/inferential/scheduler/base.py:72-78 | two submits and one call of a scheduler object after which the request with the lower score is served and the other waits |
| `ModelDeadline.ModelDeadlineScheduler.DrainModel` | python/inferential/scheduler/model_deadline.py:116-124 | popping a model until nothing is left returns its requests in service order and touches no other model |
| `ModelHeaps.OneByOne` | python/inferential/scheduler/base.py:72-78 | taking the first request of the first model takes the head of the order model by model, and leaves the rest of it |
| `ModelDeadline.ModelDeadlineScheduler.Drain` | python/inferential/scheduler/base.py:72-78 | calling `next_batch` until nothing is left serves one model after the other in dictionary order, each in its whole service order |
| `ModelDeadline.ModelDeadlineScheduler.Tick` | python/inferential/scheduler/model_deadline.py:132-147 | removes exactly the expired requests, returns their number, and filters every model's service order |
| `ModelDeadline.ModelDeadlineScheduler.OnClientDisconnected` | python/inferential/scheduler/model_deadline.py:149-161 | removes exactly the client's requests and filters every model's service order |
| `TierHeaps.DrainIsSorted` | python/inferential/scheduler/tiered_deadline.py:123-128 | the whole drain holds each request once, sorted by tier, score descending, counter ascending |
| `TierHeaps.TiersFollowPriority` | python/inferential/scheduler/tiered_deadline.py:49-50 | priority 0 has the first tier, each next priority a later one, and everything from the last tier on shares that tier |
| `TierHeaps.TierSortedMeans` | python/inferential/scheduler/tiered_deadline.py:123-128 | a drain is sorted by tiers if and only if nothing comes after what is less urgent, unless both belong to the last tier, and what shares a tier comes by score and age in the queue |
| `TierHeaps.LowestTierOldestMeans` | python/inferential/scheduler/tiered_deadline.py:86-97 | the victim is an oldest of the lowest tier if and only if nothing is less urgent, unless it belongs to the last tier itself, and nothing that shares its tier is older |
| `TierHeaps.DrainHead` | python/inferential/scheduler/tiered_deadline.py:123-128 | taking the first request of the first non-empty tier takes the head of the whole drain |
| `TierHeaps.RemovalKeepsDrain` | python/inferential/scheduler/tiered_deadline.py:132-151 | removing requests filters the whole drain and reorders nothing |
| `TierHeaps.SubmitKeepsDrain` | python/inferential/scheduler/tiered_deadline.py:72-84 | nor does a submission reorder the whole drain |
| `TierHeaps.EvictTier` | python/inferential/scheduler/tiered_deadline.py:86-97 | the victim is an oldest request of the last non-empty tier; there is none exactly when nothing is queued |
| `TierHeaps.FilterTiers` | python/inferential/scheduler/tiered_deadline.py:132-151 | filtering every tier stores exactly the survivors and counts what left |
| `TieredDeadline.TieredDeadlineScheduler.Submit` | python/inferential/scheduler/tiered_deadline.py:72-84 | as for the model scheduler, with the victim taken from the lowest tier; the whole drain keeps its order |
| `TieredDeadline.TieredDeadlineScheduler.Resubmit` | python/inferential/scheduler/tiered_deadline.py:99-105 | queues the rescored request in its tier without an overflow check |
| `TieredDeadline.TieredDeadlineScheduler.DropFromLowestTier` | python/inferential/scheduler/tiered_deadline.py:86-97 | removes one request such that nothing is less urgent, unless it belongs to the last tier itself, and nothing that shares its tier is older; filters the whole drain by it |
| `TieredDeadline.TieredDeadlineScheduler.NextBatchForTier` | python/inferential/scheduler/tiered_deadline.py:112-116 | returns the first request of the tier; nothing for an empty tier or one out of range |
| `TieredDeadline.TieredDeadlineScheduler.NextBatch` | python/inferential/scheduler/tiered_deadline.py:123-128 | returns the head of the whole drain: nothing left is more urgent, unless it belongs to the last tier, and nothing left of the same tier precedes it |
| `TieredDeadline.TieredDeadlineScheduler.Drain` | python/inferential/scheduler/tiered_deadline.py:123-128 | serving until empty returns everything by priority up to the last tier, and within a tier by score, then counter |
| `TieredDeadline.TieredDeadlineScheduler.Tick` | python/inferential/scheduler/tiered_deadline.py:132-142 | removes exactly the expired requests and filters the whole drain |
| `TieredDeadline.TieredDeadlineScheduler.OnClientDisconnected` | python/inferential/scheduler/tiered_deadline.py:144-151 | removes exactly the client's requests and filters the whole drain |
| `DeadlineAware.RemoveEqual` | python/inferential/scheduler/deadline_aware.py:39 | `list.remove`: drops the first element that compares equal |
| `DeadlineAware.EvictEqual` | python/inferential/scheduler/deadline_aware.py:38-40 | although removal compares by value, exactly the first oldest request leaves, and a heap remains |
| `DeadlineAware.DeadlineAwareScheduler.Submit` | python/inferential/scheduler/deadline_aware.py:35-47 | rejects exactly when full under the rejecting policy; otherwise queues the scored request, evicting one oldest request exactly when full; all others keep their order |
| `DeadlineAware.DeadlineAwareScheduler.Resubmit` | python/inferential/scheduler/deadline_aware.py:49-53 | queues the rescored request without an overflow check |
| `DeadlineAware.DeadlineAwareScheduler.DropOldest` | python/inferential/scheduler/deadline_aware.py:38-40 | removes one oldest request, and filters the service order by it |
| `DeadlineAware.DeadlineAwareScheduler.NextBatch` | python/inferential/scheduler/deadline_aware.py:86-89 | returns the head of the service order, nothing exactly when nothing is queued |
| `DeadlineAware.DeadlineAwareScheduler.Drain` | python/inferential/scheduler/deadline_aware.py:86-89 | serving until empty returns everything sorted by score, then counter |
| `DeadlineAware.DeadlineAwareScheduler.Tick` | python/inferential/scheduler/deadline_aware.py:91-97 | removes exactly the expired requests, returns their number, and filters the service order |
| `Pipeline.StepKeepsInv` | python/inferential/server.py:129-335 | every event keeps: one place per request, fresh counters, permits conserved, the queue bound, retries counted against dispatches, one response per answered request |
| `Pipeline.ReceiveKeepsInv` | python/inferential/server.py:183-193 | receiving, with overflow and the start of a dispatch loop, keeps the invariant |
| `Pipeline.StartKeepsInv` | python/inferential/server.py:230-265 | acquiring a permit and popping keeps the invariant |
| `Pipeline.FinishKeepsInv` | python/inferential/server.py:277-335 | every outcome of a dispatch, with the release of the permit, keeps the invariant |
| `Pipeline.RoomAfterEviction` | python/inferential/server.py:183-193 | an accepted arrival never exceeds the bound on queued and running requests |
| `PipelineRuns.RunKeepsInv` | python/inferential/server.py:129-335 | the invariant holds in every state of every interleaving |
| `PipelineRuns.EachRequestInOnePlace` | python/inferential/server.py:219-335 | in every reachable state each received request is queued once, in flight once, or ended with one fate, and exactly one of these; a response was delivered once for an answered request and never for another |
| `PipelineRuns.RequestsConserved` | python/inferential/server.py:219-335 | queued, in flight and ended add up to received |
| `PipelineRuns.FatesAreFinal` | python/inferential/server.py:267-335 | no later event changes a fate or takes back a dispatch or a response |
| `RunHistory.FinishRetriesIff` | python/inferential/server.py:277-335 | a finished dispatch sends its request back to the queue if and only if the dispatcher reported a failure and a retry is left; otherwise it is answered, unsendable, crashed or given up exactly as the outcome says |
| `RunHistory.RetriesAreFailures` | python/inferential/server.py:305-331 | after any run the retries of each queued or running request are the failures that were reported for it; one that was given up has failed exactly `max_retries` + 1 times |
| `RunHistory.EndsIffCaused` | python/inferential/server.py:129-335 | whether an event ends a request, and how, for each event: a full queue that rejects, an eviction as the oldest, a deadline that has passed, a silent client, or the outcome of its dispatch |
| `RunHistory.EveryEndIsCaused` | python/inferential/server.py:129-482 | over any run a request has a given end if and only if some event of the run, at the time when it happened, was a cause of it |
| `RunHistory.LiveCameIn` | python/inferential/server.py:166-187 | whatever is queued or running came in as a message of the run, and only its retries, its score and its counter have changed |
| `RunHistory.LoopsAreStarted` | python/inferential/server.py:183-217 | a model has a dispatch loop if and only if some request for it was taken into the queue |
| `PipelineRuns.QueueAndPermitBounds` | python/inferential/server.py:201-335 | queued plus in flight is at most the queue size plus the limits of the started models; free permits plus in flight equals the configured limit of each known model, and the default for any other |
| `QueueBounds.QueueSizeKeptIffNoRetries` | python/inferential/server.py:311-314 | the queue never outgrows `max_queue_size` in any run if and only if `max_retries` is 0 |
| `QueueBounds.BoundIsReached` | python/inferential/server.py:201-335 | with retries, for every non-empty set of models there is a run that starts loops for exactly these and fills the queue to `max_queue_size` plus all their limits: the bound is the best possible |
| `QueueBounds.RetryIntoFullQueue` | python/inferential/server.py:311-314 | a run in which one retry makes the queue one longer than `max_queue_size` |
| `PipelineRuns.DispatchesBounded` | python/inferential/server.py:311-314 | a request is dispatched at most `max_retries` + 1 times, exactly so often if it was given up, and its retry count stays within `max_retries` |
| `PipelineRuns.NoRequestStuck` | python/inferential/server.py:201-265 | in every reachable state, each waiting request has a loop for its own model, and either a dispatch for this model can start now or running dispatches hold all its permits; each running dispatch can finish now with any outcome |
| `PipelineRuns.ProgressDecreases` | python/inferential/server.py:267-335 | without arrivals no event increases the work measure, and each dispatch start and finish decreases it |
| `PipelineRuns.DispatchTerminates` | python/inferential/server.py:267-335 | without arrivals the number of dispatch starts and finishes is bounded by the measure of the present work |
| `PipelineRuns.EverythingEnds` | python/inferential/server.py:267-335 | after any run, without further arrivals, as many dispatch starts and finishes as the measure of the present work bring every received request to its end |
| `PipelineRuns.QueuedKeepScore` | python/inferential/scheduler/model_deadline.py:76-79 | after any run each queued request carries the score of the time when it was enqueued |
| `PipelineRuns.PrecededWaits` | python/inferential/server.py:239-249 | after any run and over any continuation, with any weights: as long as a request waits, no request for its model that it precedes is dispatched, whether that one waits too or is still to come |
| `PipelineRuns.DominatedWaits` | python/inferential/server.py:239-249 | after any run and over any continuation: as long as a request waits, no request for the same model that it dominated when they were enqueued is dispatched |
| `Starvation.OvertakenBy` | python/inferential/scheduler/model_deadline.py:64-66 | for any n there is a run in which a request is received first and still waits when n later ones for its model have been received, dispatched and answered, if these score higher on arrival |
| `ServerProtocol.Server.constructor` | python/inferential/server.py:62-67 | a new server is in the initial state of the protocol |
| `ServerProtocol.Server.Receive` | python/inferential/server.py:166-193 | is the receive event of the protocol |
| `ServerProtocol.Server.DispatchStart` | python/inferential/server.py:230-265 | is the dispatch-start event |
| `ServerProtocol.Server.DispatchFinish` | python/inferential/server.py:267-335 | is the dispatch-finish event, for each outcome |
| `ServerProtocol.Server.Tick` | python/inferential/server.py:466-474 | is the expiry event |
| `ServerProtocol.Server.Disconnect` | python/inferential/server.py:477-482 | is the purge event |
| `ServerProtocol.Server.Perform` | python/inferential/server.py:129-335 | a command has an effect exactly when it can happen, and then the effect is the event of this command |
| `ServerProtocol.Server.Serve` | python/inferential/server.py:107-120 | a schedule of commands drives the server through the run that follows it command by command, and the invariant holds at the end |
| `Deques.AppendAddsOne` | python/inferential/scheduler/round_robin.py:32-36 | appending keeps the dictionary well formed and adds one to the total |
| `Deques.OldestHeadIsFirstOldest` | python/inferential/scheduler/round_robin.py:38-44 | the head scan finds the first queue with a minimal head |
| `Deques.OldestHeadExists` | python/inferential/scheduler/round_robin.py:38-45 | it finds one exactly when something is queued |
| `Deques.FindOldestHead` | python/inferential/scheduler/round_robin.py:38-44 | the loop computes that queue |
| `Deques.DropHeadRemovesOne` | python/inferential/scheduler/round_robin.py:45-47 | the eviction takes one off the total exactly when something is queued |
| `Deques.FilterQueues` | python/inferential/scheduler/round_robin.py:75-84 | the loop filters every queue and counts what left |
| `Deques.HeadScanFindsOldest` | python/inferential/scheduler/round_robin.py:38-44 | if every queue is in arrival order, the victim of the head scan is globally oldest |
| `RoundRobin.AfterIsConsistent` | python/inferential/scheduler/round_robin.py:25-93 | every operation keeps keys and queues consistent and each queue to its own client |
| `RoundRobin.Rotate` | python/inferential/scheduler/round_robin.py:62-71 | the `popitem` and reinsertion loop serves the first busy client and puts it behind everybody, the skipped clients just before it |
| `RoundRobin.RotatedTotal` | python/inferential/scheduler/round_robin.py:57-71 | a batch is empty exactly when the total is 0, and the total drops by its length |
| `RoundRobin.RoundRobinScheduler.Submit` | python/inferential/scheduler/round_robin.py:25-36 | the new state is that of the specification; a full queue is reported exactly under the rejecting policy and changes nothing; otherwise the total grows by one, or stays as it is if the queue was full |
| `RoundRobin.RoundRobinScheduler.DropOldest` | python/inferential/scheduler/round_robin.py:38-48 | takes away the oldest head |
| `RoundRobin.RoundRobinScheduler.Resubmit` | python/inferential/scheduler/round_robin.py:50-55 | appends without an overflow check |
| `RoundRobin.RoundRobinScheduler.NextBatch` | python/inferential/scheduler/round_robin.py:57-73 | returns exactly one request if and only if the total is positive, the head of the first busy client's queue |
| `RoundRobin.RoundRobinScheduler.Tick` | python/inferential/scheduler/round_robin.py:75-84 | drops exactly the expired requests of every queue, keeps the order of the others and the rotation, returns how many left |
| `RoundRobin.RoundRobinScheduler.OnClientConnected` | python/inferential/scheduler/round_robin.py:86-88 | a new client enters at the end of the rotation, a known one keeps its place |
| `RoundRobin.RoundRobinScheduler.OnClientDisconnected` | python/inferential/scheduler/round_robin.py:90-93 | the client leaves the rotation with its queue, the others keep their order |
| `RoundRobinFairness.UnservedStep` | python/inferential/scheduler/round_robin.py:57-73 | one step that does not serve a busy client never moves it back, moves it forward if it is a call, and lets nobody get ahead of it |
| `RoundRobinFairness.UnservedRun` | python/inferential/scheduler/round_robin.py:57-73 | while a busy client goes unserved, calls plus its final place are at most its initial place |
| `RoundRobinFairness.BoundedWaiting` | python/inferential/scheduler/round_robin.py:57-73 | a busy client at place p is served within p + 1 calls, whatever else happens |
| `RoundRobinFairness.FairShare` | python/inferential/scheduler/round_robin.py:25-93 | while a client stays busy, no other is served more than once more often, even by reconnecting, and one behind it or absent at the start never more often |
| `RoundRobinFairness.EqualShares` | python/inferential/scheduler/round_robin.py:57-73 | two clients that stay busy are served equally often up to one |
| `RoundRobinFairness.Overtaking` | python/inferential/scheduler/round_robin.py:57-73 | between two services of a busy client every other is served at most once, and there are fewer calls than clients |
| `RoundRobinFairness.Drive` | python/inferential/scheduler/round_robin.py:25-93 | any calls on a scheduler object form such a run, and what it returned counts the services of each client |
| `BatchOptimized.AfterIsConsistent` | python/inferential/scheduler/batch_optimized.py:29-112 | every operation keeps: a non-empty queue has a timer, a timer has a queue, each queue holds its own model |
| `BatchOptimized.BatchOptimizedScheduler.Submit` | python/inferential/scheduler/batch_optimized.py:29-40 | the new state is that of the specification; a full queue is reported exactly under the rejecting policy and changes nothing; otherwise the total grows by one, or stays as it is if the queue was full |
| `BatchOptimized.BatchOptimizedScheduler.DropOldest` | python/inferential/scheduler/batch_optimized.py:42-54 | takes away the oldest head, and its timer if the queue is then empty |
| `BatchOptimized.BatchOptimizedScheduler.Resubmit` | python/inferential/scheduler/batch_optimized.py:56-61 | appends without an overflow check, starting a timer if there is none |
| `BatchOptimized.BatchOptimizedScheduler.NextBatch` | python/inferential/scheduler/batch_optimized.py:63-90 | returns a first-in first-out prefix of the first ready model's queue, at most one full batch, and changes no other queue; nothing exactly while no queue holds a full batch and no timer has run for `max_wait_ms` |
| `BatchOptimized.BatchOptimizedScheduler.Tick` | python/inferential/scheduler/batch_optimized.py:92-103 | drops exactly the expired requests of every queue, keeps the order of the others, and stops the timers of the queues that are empty |
| `BatchOptimized.BatchOptimizedScheduler.OnClientDisconnected` | python/inferential/scheduler/batch_optimized.py:105-112 | filters every queue and leaves the timers alone |
| `BatchOptimized.FindReady` | python/inferential/scheduler/batch_optimized.py:67-75 | finds the first model with a full batch or an exceeded waiting time |
| `BatchOptimized.TakeBatch` | python/inferential/scheduler/batch_optimized.py:76-79 | the inner loop takes the longest prefix that fits into a batch |
| `BatchFlush.QueuedIsTimed` | python/inferential/scheduler/batch_optimized.py:29-112 | in every reachable state a model with something queued has an arrival timer |
| `BatchFlush.StaleAfterIff` | python/inferential/scheduler/batch_optimized.py:29-112 | for any state and model, when a step leaves a timer without a queue: only a disconnect of a client that held the queue alone makes one, a request uses it, a tick stops it |
| `BatchFlush.PartialBatchWaitsIff` | python/inferential/scheduler/batch_optimized.py:69-75 | a batch that is not full is handed out only after its first request has waited `max_wait_ms` if and only if the timer did not start before that request arrived |
| `BatchFlush.LateAfterIff` | python/inferential/scheduler/batch_optimized.py:29-112 | for any state and model, which steps leave a timer older than the head of its queue: evictions, expiries and disconnects in front of a later arrival, and a request that meets a stale timer |
| `BatchFlush.UndisturbedIsNeverLate` | python/inferential/scheduler/batch_optimized.py:29-90 | in a run without these no timer is late or stale, retries or not |
| `BatchFlush.EarlyWithoutStaleTimer` | python/inferential/scheduler/batch_optimized.py:105-112 | a run that never has a stale timer, at whose end a request is flushed alone at the moment it arrives |
| `BatchFlush.StaleIsReachable` | python/inferential/scheduler/batch_optimized.py:105-112 | submit and disconnect leave a timer without a queue |
| `BatchFlush.StaleTimerFlushesEarly` | python/inferential/scheduler/batch_optimized.py:33-36 | from there, a single request is flushed at the very moment it arrives |
| `BatchFlush.BatchesIsCeiling` | python/inferential/scheduler/batch_optimized.py:77-79 | the number of batches of a queue is its length divided by the batch size, rounded up |
| `BatchFlush.SpacedCalls` | python/inferential/scheduler/batch_optimized.py:63-90 | without arrivals, with calls at least `max_wait_ms` after enqueue and after each other, each call takes one batch off the sum of the rounded-up quotients |
| `BatchFlush.EmptiedIff` | python/inferential/scheduler/batch_optimized.py:63-90 | under the same conditions n calls empty the scheduler if and only if n is at least that sum |
| `BatchFlush.CallsAreFifo` | python/inferential/scheduler/batch_optimized.py:63-90 | without arrivals, what was returned for a model followed by what is queued for it is what was queued |
| `BatchFlush.Drive` | python/inferential/scheduler/batch_optimized.py:29-112 | any calls on a scheduler object form a run of the specification and return its batches |
| `HeadEviction.VictimAfterAppendIff` | python/inferential/scheduler/round_robin.py:50-55 | from queues in arrival order, after one more request of any age is queued the victim is globally oldest if and only if its queue was empty or some head is at least as old |
| `HeadEviction.ResubmitStaysRightIff` | python/inferential/scheduler/round_robin.py:38-55 | from queues in arrival order, after a resubmission every continuation without a further one, with submissions in arrival order, evicts a globally oldest request if and only if the resubmitted one was put into an empty queue or behind one that is at least as old |
| `HeadEviction.GuardDoesNotLast` | python/inferential/scheduler/round_robin.py:38-55 | a run from the empty scheduler with all submissions in arrival order: the condition for the state right after holds at its one resubmission, and yet a later eviction takes a younger request |
| `HeadEviction.BatchResubmitStaysRightIff` | python/inferential/scheduler/batch_optimized.py:42-61 | the same for the batching scheduler, if and only if, under the policy that evicts; under the other policy, where the eviction is imagined, if nothing else arrived at the very same time and the request has not expired |
| `HeadEviction.RoundRobinEvictsOldest` | python/inferential/scheduler/round_robin.py:38-48 | after any run whose requests are submitted in arrival order, the victim is globally oldest, and exists if anything is queued |
| `HeadEviction.BatchingEvictsOldest` | python/inferential/scheduler/batch_optimized.py:42-54 | the same for the batching scheduler |
| `HeadEviction.ResubmitHidesOldest` | python/inferential/scheduler/round_robin.py:50-55 | a run from the empty scheduler (submit, serve, submit, resubmit) after which a younger request than the oldest one is the victim |
| `HeadEviction.ResubmitHidesOldestBatch` | python/inferential/scheduler/batch_optimized.py:56-61 | the same run of the batching scheduler |
| `LocalDispatch.GroupByModel` | python/inferential/dispatch/local.py:39-41 | groups by model in first-seen order, each group in the original order |
| `LocalDispatch.StableGrouping` | python/inferential/dispatch/local.py:39-43 | grouping changes no order within a model |
| `LocalDispatch.GroupedInFirstSeenOrder` | python/inferential/dispatch/local.py:39-43 | of two requests for different models the one whose model was seen first comes first, and the models are not mixed |
| `LocalDispatch.GroupedSameRequests` | python/inferential/dispatch/local.py:39-43 | grouping is a permutation |
| `LocalDispatch.Dispatch` | python/inferential/dispatch/local.py:37-68 | returns exactly one result per request, in grouped order, unless the frames of a request for a registered model cannot be reconstructed, and then raises |
| `LocalDispatch.ResultsBelong` | python/inferential/dispatch/base.py:114-125 | each result is for the client and the request in its place; it succeeds exactly when the model is registered and the callable returns, and carries that response or the error raised |
| `LocalDispatch.LostIffMisSized` | python/inferential/dispatch/local.py:52-53 | for frames that the server admitted, it raises if and only if such a request has a tensor whose length and shape do not agree |
| `LocalDispatch.MisSizedEscapes` | python/inferential/dispatch/local.py:52-53 | twelve bytes described as two 32-bit numbers are admitted and make it raise |
| `LocalDispatch.Collect` | python/inferential/server.py:378-391 | for any scheduler: joins successive replies until there is enough or nothing is ready; the batch holds at most `max_concurrent_dispatch` - 1 plus the largest reply |
| `LegacyLoop.CollectFrom` | python/inferential/server.py:378-391 | from the single-heap scheduler: takes the first requests in service order, as many as are wanted; they are distinct objects, and nothing else leaves |
| `LocalDispatch.LookupFinds` | python/inferential/server.py:402-412 | the lookup by `req_id` never misses and finds the request of the result |
| `LocalDispatch.Settle` | python/inferential/server.py:406-464 | each result gives its request one ending |
| `LocalDispatch.LegacyRound` | python/inferential/server.py:402-464 | a turn from a collected batch to its endings; no endings at all if and only if the frames of a request for a registered model cannot be reconstructed |
| `LegacyProtocol.CollectedPrefix` | python/inferential/server.py:378-391 | what a turn collects are distinct queued requests, at most `max_concurrent_dispatch` of them |
| `LegacyProtocol.EndingsOfBatch` | python/inferential/server.py:402-464 | the endings of a batch are for its requests, each once, and a retried one has a retry left |
| `LegacyProtocol.LoopStepKeepsInv` | python/inferential/server.py:129-193 | every event between two awaits (an arrival, an expiry, the next step of the loop) keeps: one place per request, what the loop holds, fresh counters, retries counted against dispatches, one response per answered request, the bound on the queue |
| `LegacyProtocol.LoopRunKeepsInv` | python/inferential/server.py:369-464 | so does every interleaving of them |
| `LegacyProtocol.LoopLosesNothing` | python/inferential/server.py:369-464 | in every reachable state each received request is queued, held by the loop or ended, exactly one of these; it is answered at most once; the requests without an ending are exactly those of the batch that ended the loop, and in that batch some observation cannot be reconstructed |
| `LegacyProtocol.LoopEndsRightly` | python/inferential/server.py:404-464 | in every reachable state a request that was given up was dispatched exactly `max_retries` + 1 times, and a response counts as sent exactly when it could be sent |
| `LegacyProtocol.QueuedIsScored` | python/inferential/server.py:446-447 | whatever an event adds to the queue, a retried request included, is scored at the time of the event |
| `LegacyProtocol.LoopIsBounded` | python/inferential/server.py:378-443 | queued, held and ended add up to received; queued plus held is at most `max_queue_size` plus `max_concurrent_dispatch`, although retries skip the overflow check |
| `LegacyBounds.LoopQueueKeptIffNoRetries` | python/inferential/server.py:439-447 | with the legacy loop, too, the queue never outgrows `max_queue_size` in any run if and only if `max_retries` is 0 |
| `LegacyBounds.LoopBoundIsReached` | python/inferential/server.py:439-447 | with retries there is a run that makes the queue longer than `max_queue_size` by `max_concurrent_dispatch`, or by as many as a full queue holds if that is less |
| `LegacyDrain.TurnWorks` | python/inferential/server.py:377-464 | each turn of the loop does part of a measure of the work as long as anything is queued or held |
| `LegacyDrain.EverythingEnds` | python/inferential/server.py:369-464 | after any run, without further arrivals, `3 * (max_retries + 1)` turns for each request that is queued or held bring every received request to its end |
| `LegacyLoop.LegacyServer.constructor` | python/inferential/server.py:62-67 | a new server is in the initial state of the loop's protocol |
| `LegacyLoop.LegacyServer.Receive` | python/inferential/server.py:166-187 | is the arrival event |
| `LegacyLoop.LegacyServer.Tick` | python/inferential/server.py:466-474 | is the expiry event |
| `LegacyLoop.LegacyServer.RunLoop` | python/inferential/server.py:369-464 | is the next step of the loop, in whatever phase it is |
| `LegacyLoop.LegacyServer.CollectBatch` | python/inferential/server.py:377-402 | in the idle phase: takes the first requests in service order and holds them |
| `LegacyLoop.LegacyServer.FinishDispatch` | python/inferential/server.py:402-404 | when the dispatcher is done: one ending per request, or the loop ends and the batch is lost |
| `LegacyLoop.LegacyServer.SettleNext` | python/inferential/server.py:404-464 | one result: the request is queued again with one more retry, a new score and counter, or it ends |
| `LegacyLoop.LegacyServer.Perform` | python/inferential/server.py:129-193 | a command has an effect exactly when it can happen, and then the effect is the event of this command; the invariant is kept |
| `LegacyLoop.LegacyServer.Serve` | python/inferential/server.py:107-128 | a schedule of arrivals, timers and resumptions drives the server through the run that follows it command by command |
| `SharedProtocol.DrainedAreQueued` | python/inferential/scheduler/base.py:72-78 | what the legacy loop collects from the model-aware scheduler are distinct queued requests, as many as are wanted and can be had |
| `SharedProtocol.SharedStepKeepsInv` | python/inferential/server.py:129-464 | with pipeline dispatch off and the model-aware scheduler in place, every event of the per-model loops and every step of the legacy loop keeps: one place per request, permits conserved among the dispatch tasks, what the legacy loop holds, retries counted, one response per answered request, the bound |
| `SharedProtocol.SharedLosesNothing` | python/inferential/server.py:190-193 | although both kinds of loops drain one scheduler, in every reachable state each received request is queued, in flight or ended, exactly one of these; it is answered at most once and dispatched at most `max_retries` + 1 times, exactly so often if it was given up |
| `SharedProtocol.SharedBounds` | python/inferential/server.py:370-376 | the permits of a model account for its tasks only; what is in flight for it is at most its limit plus `max_concurrent_dispatch`, and queued plus in flight is bounded likewise |
| `SharedProtocol.LimitIsExceeded` | python/inferential/server.py:190-193 | for every configuration and model a run in which more is in flight for the model than its limit, by `max_concurrent_dispatch` or the length of a full queue |
| `LocalDispatch.OneEndingEach` | python/inferential/server.py:402-464 | the endings belong, one for one, to the requests of the batch; a request is retried if and only if its dispatch failed and it has a retry left, given up if and only if it failed without one, and a success is answered or unsendable as the transport says |
| `NumpyArrays.TypeRoundTrip` | python/inferential/proto/__init__.py:88-100 | the wire keeps the kind of an element and forgets its byte order |
| `NumpyArrays.WireTypes` | python/inferential/proto/__init__.py:66-85 | each wire type is read and sent as the numpy type of its name, with the width the name announces; bfloat16 is read as words of two bytes and never sent |
| `NumpyArrays.SameNumberIff` | python/inferential/proto/__init__.py:95-100 | bytes read in the other order are the same number if and only if they are a palindrome |
| `NumpyArrays.ReshapeWorksIff` | python/inferential/dispatch/base.py:63-65 | reshaping works exactly if the dimensions multiply to the number of elements, or one is -1 and the others are positive with a product that divides it; it keeps the given dimensions |
| `Tensors.Pack` | python/inferential/client.py:41-62 | the packing loop yields the descriptors and the joined bytes of all arrays and the texts; it fails exactly for an unknown element type or, when it converts, for a value that does not convert |
| `Tensors.DescriptorsTile` | python/inferential/client.py:51-57 | the descriptors follow each other without a gap, end at the end of the payload, and every byte belongs to exactly one |
| `Tensors.ValidateSlots` | python/inferential/observation/slots.py:21-30 | accepts exactly when every slot is non-empty and inside the payload, and otherwise reports the first that is not |
| `Tensors.PackedIsAcceptedIff` | python/inferential/observation/slots.py:21-30 | what was packed is accepted if and only if no array is empty |
| `Tensors.AcceptedSliceIsWhole` | python/inferential/dispatch/base.py:64 | slicing an accepted slot gives all its bytes |
| `Tensors.AcceptedReadsIff` | python/inferential/dispatch/base.py:61-66 | an admitted observation is reconstructed if and only if each length is a whole number of elements that the shape, which may hold one -1, fits |
| `Tensors.Reconstruct` | python/inferential/dispatch/base.py:57-69 | reads every tensor and overlays the metadata, or raises |
| `Tensors.ObservationHolds` | python/inferential/dispatch/base.py:57-69 | under each key an observation holds the text of the metadata, or else the last tensor with that key, and nothing else |
| `Tensors.ReadsBack` | python/inferential/dispatch/base.py:61-66 | each descriptor reads back the bytes and the shape of the array it was made for, as elements of its kind in native order |
| `Tensors.ObservationRoundTrip` | python/inferential/client.py:41-63 | for distinct keys and known types, reconstruction gives back every key, shape and byte, in native order; acceptance fails exactly for empty arrays |
| `Tensors.RoundTripIsExactIff` | python/inferential/client.py:41-63 | it gives back all the arguments as they were if and only if each is a string or an array whose multi-byte elements are in native order |
| `Tensors.NumberIsDropped` | python/inferential/client.py:44-59 | an argument that is neither is packed without complaint, admitted, and does not come back |
| `Tensors.SwappedIsMisread` | python/inferential/proto/__init__.py:95-100 | a big-endian array holding 1 is packed and accepted, and comes back as 16777216 |
| `Responses.BuildResponse` | python/inferential/dispatch/base.py:82-125 | under the fixed fields, packs a dictionary, or anything else as the one array `actions`; lists, numbers and the like are converted; fails exactly when some value converts to no array of a known type |
| `Responses.ParseResponse` | python/inferential/client.py:66-86 | starts from the fixed fields, skips empty and untyped tensors, overlays the others and the metadata |
| `Responses.WhatGoesOver` | python/inferential/client.py:66-86 | texts go over tensors and fixed fields of the same name, and tensors over fixed fields |
| `Responses.SkippedMakeNoDifference` | python/inferential/client.py:76-77 | tensors without bytes or without a type make no difference |
| `Responses.ResponseRoundTrip` | python/inferential/client.py:66-86 | parsing what was built gives the fixed fields overridden by every entry, converted and in native order, except empty arrays |
| `Responses.ResponseIsExactIff` | python/inferential/client.py:66-86 | over the fixed fields, the client gets everything as the model returned it if and only if each entry is a string or a non-empty array whose multi-byte elements are in native order |
| `Responses.EmptyArrayIsDropped` | python/inferential/client.py:72-75 | an empty array is packed and does not come back |
| `Responses.SingleArrayComesBack` | python/inferential/dispatch/base.py:109-113 | what is returned as a single array the client finds under `actions`, next to `response_id`, `model_id` and `inference_latency_ms` with their values |
| `Responses.DictionaryComesBack` | python/inferential/dispatch/base.py:97-108 | what is returned in a dictionary under other names the client finds under these names, lists and numbers as arrays, and the three fixed fields under theirs |
| `Responses.FixedFieldKeptIff` | python/inferential/client.py:70-84 | a fixed field survives if and only if the model returned nothing else under its key |
| `Demux.Connection.Drain` | python/inferential/client.py:135-142 | empties the socket into the buffers in order; a message that cannot be decoded raises and is dropped |
| `Demux.RepliesAreCarried` | python/inferential/client.py:137-142 | the replies for a model are exactly those that messages carry: the second frame as envelope, the third as payload, missing ones empty, and the envelope naming the model |
| `Demux.Connection.RecvForModel` | python/inferential/client.py:144-153 | hands out the first reply for the model that was not handed out before, carried in the second and third frame of a message, as soon as one has arrived; returns None only if there is none in all that arrived; raises once per undecodable message |
| `Demux.Connection.Perform` | python/inferential/client.py:144-153 | for any calls, what was taken or waits in the socket is exactly what was delivered; every call is explained by it; for each model what was returned followed by its buffer is what was taken for it |
| `Cadence.CadenceTracker.OnRequest` | python/inferential/tracking/cadence.py:15-26 | keeps, for every client, last request, sample count and the moving average of its intervals |
| `Cadence.CadenceTracker.LearnedCadence` | python/inferential/tracking/cadence.py:45-46 | is the moving average once there are two requests |
| `Cadence.CadenceTracker.TimeUntilNext` | python/inferential/tracking/cadence.py:28-32 | is the learned interval less the time since the last request, and 0 while nothing is learned |
| `Cadence.CadenceTracker.LearnedBetween` | python/inferential/tracking/cadence.py:18-24 | what is learned lies between the smallest and the largest interval |
| `Cadence.EmaBetween` | python/inferential/tracking/cadence.py:20-22 | so does the average of any intervals |
| `Cadence.EmaForgets` | python/inferential/tracking/cadence.py:20-22 | two averages fed the same n further intervals differ by (1 - alpha)^n times their initial difference |

## Left out

- Requests as shared mutable objects: schedulers hold request values, so writing `score`, `_counter` or `retry_count` through another reference to a queued request is not modelled.
- The queue `deque`s and heap lists are sequence-valued fields that the methods reassign; aliasing of the Python lists is not modelled.
- Custom scoring policies (`use_policy`) and user model callables: foreign code. A dispatch takes any outcome.
- `use_scheduler` during a run: it discards the old queue.
- An exception between an eviction and the push that follows it in `submit`: it cannot come from the modelled code.
- Ray dispatch, ZMQ sockets and reconnects, protobuf byte encoding, YAML configuration: foreign libraries. Envelopes are datatypes, the network is a parameter.
- The async client: it rests on asyncio cancellation.
- The Rust and C++ clients: they repeat the packing loop.
- `priority_tiered.py`, metrics, callbacks, endpoint health, response tracker, client registry, `status` and `queue_len`: easy members or plumbing.
- The predictive wake loop and event wake-ups: every wait also times out, so they affect latency only.
- Floating-point rounding: times, scores and averages are reals.
- `CadenceTracker.is_overdue`, `time_since_last`, `confidence`: one comparison or subtraction on the state that `OnRequest` keeps.
- Tensor timestamps and encodings, and the header fields of an observation: packing copies them without looking at them.
- NumpyArrays.ReshapeWorksIff: dimensions below -1 are taken to be refused, as the documentation of numpy has it; what a numpy version does with them is not modelled.
- LocalDispatch.Collect: that a batch holds no object twice is a hypothesis on the scheduler's replies; it is proved for the single-heap scheduler (`LegacyProtocol.CollectedPrefix`) and for the model-aware one (`SharedProtocol.DrainedAreQueued`) only.
- The legacy loop on top of the tiered, round-robin and batching schedulers: the same loop over other replies.
- HeadEviction.BatchResubmitStaysRightIff: under the policy that rejects instead of evicting, the case that something else arrived at the very same time as the retried request, or that this one has expired, is left open; no eviction ever happens there.
- The default configuration as a server object: `SharedProtocol` is stated on values; its steps are those of the two server classes.
- What `np.asarray` makes of a value that is not an array is a parameter (`Other`), because numpy is a foreign library.
- Tensors.Reconstruct: the array views that numpy builds over the payload are values here, so sharing of memory with the payload is not modelled.
- Demux.Connection.RecvForModel: the polling interval of at most 50 ms is not modelled; what arrives before each drain is a parameter, so the statement holds for every interval.
