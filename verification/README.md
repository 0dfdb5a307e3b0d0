# Forklift safety service: a verified model

A Dafny model of the concurrent core of the forklift safety service, with proofs of what its
queues, threads, filters and sessions guarantee over whole runs. Check it with
`dafny verify dfyconfig.toml`.

## What is modelled

| module | what it is |
|---|---|
| `QueueLog`, `BoundedQueue`, `QueueProtocol` | the bounded queue: as a value with its history, as an object updated in place, and as a wait/notify protocol of any number of threads |
| `Throttle`, `Cooldown` | the greedy rate limit, and the per-track alert cooldown of one worker and of a pool of workers |
| `InferenceWorker` | what one worker does with one frame, as an object holding the cooldown map |
| `Pipeline`, `PipelineSource`, `PipelineShutdown`, `PipelineAlerts`, `PipelineRuns` | one camera as a state machine: capture thread, workers, `stop()`; frame accounting, reconnecting to the source, shutdown, what gets published, and the runs that show where a guarantee ends |
| `ThreadPool`, `PipelineOnPool` | the worker pool as an object and as a protocol, and the pipeline running on it |
| `Camera` | pipeline, pool and frame queue protocol together |
| `AlertPublisher`, `AlertDelivery` | the alert queue, the io thread and its sessions, as objects and as a protocol; which alerts reach a client |
| `Viewer`, `ViewerContents` | the latest-frame and latest-detections store and its polling sessions, and what of the published frames and detections a client is shown |
| `Geometry`, `RiskDetection`, `AlertId` | boxes, safety zones, evaluation of a frame, alert ids |
| `VideoSource` | frame numbering and file pacing |
| `YoloPostprocessor`, `TensorPacking` | tensor decoding and the channel repacking loop |
| `Arithmetic`, `Domain`, `Wrappers` | shared lemmas and values |

What the program updates in place is a class whose methods are proved against a function on
values; the protocols are state machines whose steps use the same functions. A step is what one
thread does while it holds a lock, or one line of its loop. Clocks, detector results, device
answers, and the iteration order of a hash map are parameters. Floats are reals. Ghost history
(everything accepted, delivered, drained, written) is added so that statements about whole streams
can be made.

## Where the code and its documentation differ

The model follows the code.

- The cooldown is documented per camera and track (docs/architecture/pipeline.md:50-55), but the
  map is local to each worker's loop (src/application/FrameProcessingPipeline.cpp:79).
  `PipelineRuns.SpacedInEveryRunExactly`: the documented spacing holds in every run exactly if the
  camera has at most one worker.
- All threads are said to exit deterministically (docs/architecture/threading.md:48), but the
  pool's shutdown sets its flag and notifies without the mutex (src/shared/ThreadPool.cpp:16-17)
  and can miss a worker that is about to sleep. `ThreadPool.ShutdownLosesWakeupExactly` says when,
  `Camera.StopReturnsExactly` says what follows for `stop()`, and `Camera.StopCanHangExactly` that
  every camera with a worker has such a run.
- `pop_latest` may free many slots but notifies one producer. Nobody deadlocks
  (`QueueProtocol.NoLostWakeup`), but a producer can sleep beside a free slot:
  `QueueProtocol.PopLatestKeepsSlotsExactly` and `QueueProtocol.PopLatestCanLeaveASlotIdle`. The
  frame queue drops instead of blocking, so no camera is affected.
- `push` is documented to fail once the queue is closed; in drop-oldest mode it does not look at
  the flag and succeeds (include/forklift/shared/ConcurrentQueue.h:38-46):
  `QueueLog.PushAfterCloseExactly` and, in runs, `QueueProtocol.PushAfterCloseFailsExactly`.
- `intersects` is documented as sharing a pixel (include/forklift/domain/BoundingBox.h:20); a box
  of zero size can intersect without sharing any area. `Geometry.IntersectsExactly` gives the
  exact condition, and `YoloPostprocessor.ThinBoxIntersects` two decoded boxes that do.
- `expanded` is documented as padding and clamping (include/forklift/domain/BoundingBox.h:26); it
  clamps the corner and keeps the size, so a clamped zone also reaches further on the other side.
  `Geometry.ClampIsExactOnlyInsideFrame` says exactly when this matters; no alert is lost by it
  (`RiskDetection.ClampedZoneStillAlerts`).
- Every connected client is said to receive every alert (docs/architecture/websocket-api.md:25).
  `AlertDelivery.EveryAlertReceivedExactly` says when: none of the alerts published since the client
  connected left the queue before its handshake completed, and none was pushed out of a full queue
  afterwards. Both can happen: `AlertDelivery.HandshakeGapMissesAlert` and
  `AlertDelivery.OverflowLosesAlert`.

## Model

| member | source | states |
|---|---|---|
| `QueueLog.PushKeeps` | include/forklift/shared/ConcurrentQueue.h:33-47 | A push keeps the queue bounded and contiguous; it appends to the accepted stream exactly when it is accepted, and a refused or waiting push changes nothing. |
| `QueueLog.PopKeeps` | include/forklift/shared/ConcurrentQueue.h:50-58 | `pop` hands out the oldest accepted value not yet handed out or dropped, and never drops. |
| `QueueLog.PopLatestTakesNewest` | include/forklift/shared/ConcurrentQueue.h:65-77 | `pop_latest` hands out the newest value ever accepted, leaves the queue empty and counts exactly the rest of the backlog as dropped. |
| `QueueLog.EveryHistoryIsAccounted` | include/forklift/shared/ConcurrentQueue.h:33-86 | For every sequence of operations: at most `capacity` values queued, the queue is the contiguous suffix of the accepted stream past delivered + dropped, and what was delivered is the accepted stream with entries left out, never reordered or repeated. |
| `QueueLog.BlockingPopIsLossless` | include/forklift/shared/ConcurrentQueue.h:33-58 | In blocking mode without `pop_latest` nothing is ever dropped: accepted = delivered followed by queued. |
| `QueueLog.TakeAllDeliversQueue` | include/forklift/shared/ConcurrentQueue.h:50-58 | Taking until empty delivers the whole queue in order; also used for the swap in the publisher's drain. |
| `QueueLog.PushAfterCloseExactly` | include/forklift/shared/ConcurrentQueue.h:33-47 | On a closed queue a push is refused if and only if the queue blocks when full; in drop-oldest mode the value is appended. |
| `BoundedQueue.ConcurrentQueue.constructor` | include/forklift/shared/ConcurrentQueue.h:28-30 | A new queue is empty, open and has dropped nothing. |
| `BoundedQueue.ConcurrentQueue.Push` | include/forklift/shared/ConcurrentQueue.h:33-47 | In place: outcome (accepted, refused, must wait), items, drop count and history are those of the push specification, for both overflow policies; drop-oldest still accepts after close. |
| `BoundedQueue.ConcurrentQueue.Pop` | include/forklift/shared/ConcurrentQueue.h:50-58 | In place: outcome and new state are those of the pop specification; empty is returned only when closed and drained. |
| `BoundedQueue.ConcurrentQueue.PopLatest` | include/forklift/shared/ConcurrentQueue.h:65-77 | In place: the discarding loop ends in the state the pop-latest specification describes. |
| `BoundedQueue.ConcurrentQueue.Close` | include/forklift/shared/ConcurrentQueue.h:80-83 | The critical section of close: the flag is set and nothing else changes. The notifications after it are steps of `QueueProtocol`. |
| `BoundedQueue.ConcurrentQueue.Size` | include/forklift/shared/ConcurrentQueue.h:88-88 | Reports exactly what has been accepted and neither handed out nor dropped, and never more than the capacity. |
| `BoundedQueue.ConcurrentQueue.Dropped` | include/forklift/shared/ConcurrentQueue.h:89-89 | Reports exactly what has been accepted and neither handed out nor queued. |
| `QueueProtocol.StepKeepsSafe` | include/forklift/shared/ConcurrentQueue.h:33-86 | Every step of push, pop, pop_latest, close (flag, then two separate notifications) or a spurious wakeup keeps: a consumer sleeps un-notified only if every queued value has a notified taker; a producer sleeps by an empty open queue only if another is notified; after close a sleeper is one that close still owes a notification. |
| `QueueProtocol.EveryRunIsSafe` | include/forklift/shared/ConcurrentQueue.h:33-86 | Those invariants hold at every moment of every interleaving of any number of threads. |
| `QueueProtocol.NoLostWakeup` | include/forklift/shared/ConcurrentQueue.h:33-86 | No lost wakeup, no deadlock: whenever a consumer sleeps beside a value, a producer beside an empty open queue, or both sides sleep, some notified thread's call is about to complete; once close has finished notifying nobody sleeps and every waiter's call returns. |
| `QueueProtocol.PushAfterCloseFailsExactly` | include/forklift/shared/ConcurrentQueue.h:33-47 | In every run, a push that gets the lock after close() has set the flag, newly arrived or woken, does not sleep, and fails if and only if the queue blocks when full. |
| `QueueProtocol.PopOnlyRunsCoverSlots` | include/forklift/shared/ConcurrentQueue.h:33-58 | In runs without `pop_latest`, while a producer sleeps at an open queue every free slot is promised to a notified producer. |
| `QueueProtocol.PopLatestKeepsSlotsExactly` | include/forklift/shared/ConcurrentQueue.h:65-77 | A successful `pop_latest`, by a thread that has just arrived or by one that slept and was woken, keeps that promise if and only if at most one producer was asleep or the other slots were already spoken for. |
| `QueueProtocol.PopLatestCanLeaveASlotIdle` | include/forklift/shared/ConcurrentQueue.h:65-77 | A concrete run of a blocking queue of two in which `pop_latest` leaves a producer asleep beside a free slot nobody was notified of. |
| `Pipeline.StepKeepsFrames` | src/application/FrameProcessingPipeline.cpp:56-87 | Every step of every thread keeps: frames enter the queue numbered 1, 2, 3, ... without gaps, and each frame handed to a worker was the newest at that moment. |
| `Pipeline.DropAccounting` | src/application/FrameProcessingPipeline.cpp:61-86 | In every run, across reconnects and for any number of workers, the k-th frame taken has sequence number k plus `dropped()` at that moment and is the newest pushed so far, so the numbers seen strictly increase; accepted = taken + dropped + queued. |
| `Pipeline.WorkerGetsNewest` | src/application/FrameProcessingPipeline.cpp:77-87 | In every run a worker that takes holds the newest frame pushed so far, skips it if its image is empty, and ends its loop if nothing is queued. |
| `PipelineSource.SourceOpenExactly` | src/application/FrameProcessingPipeline.cpp:52-76 | In every run the source is open if and only if the last call that opened or closed it was a successful open(). |
| `PipelineSource.EveryRunKeepsSource` | src/application/FrameProcessingPipeline.cpp:47-76 | In every run reads, the close after a failed read and pushes happen with the source open, open() is called only while it is closed, and once stop() has returned it is closed. |
| `PipelineSource.NoReadUntilReopened` | src/application/FrameProcessingPipeline.cpp:61-76 | In every run, after a failed read no frame is read, numbered or pushed until open() has succeeded again. |
| `PipelineSource.ClosedBeforeNextTest` | src/application/FrameProcessingPipeline.cpp:71-76 | After a failed read the loop does nothing else before it has closed the source. |
| `PipelineSource.ReopensAfterBackoff` | src/application/FrameProcessingPipeline.cpp:65-69 | Each wait for a closed source is followed by another open() before anything else. |
| `PipelineShutdown.ShutdownIsOrderly` | src/application/FrameProcessingPipeline.cpp:47-85 | In every run the stopping thread closes the source only when the capture loop has ended, and after the call of stop() each worker goes to the queue at most once more and capture pushes at most once more. |
| `PipelineShutdown.ShutdownOnlyWindsDown` | src/application/FrameProcessingPipeline.cpp:47-139 | Once `running_` is false every step of every pipeline thread decreases a well-founded measure. |
| `PipelineOnPool.PoolJoinMeansLoopsReturned` | src/application/FrameProcessingPipeline.cpp:40-53 | When the pool's shutdown has joined its workers, every inference loop that start() submitted has returned. |
| `PipelineOnPool.EveryRunRefinesPipeline` | src/application/FrameProcessingPipeline.cpp:36-54 | Pipeline and thread pool together: leaving the pool's own steps out, every run is a run of the pipeline model, so all its whole-run results carry over. |
| `PipelineOnPool.StoppingWindsDown` | src/application/FrameProcessingPipeline.cpp:47-54 | From the moment stop() is called every step of pipeline or pool, spurious wakeups aside, decreases a well-founded measure. |
| `PipelineOnPool.RestExactly` | src/application/FrameProcessingPipeline.cpp:47-54 | In every linked state at rest after the call of stop(), spurious wakeups allowed before it: stop() has returned if and only if no pool worker is asleep, and only the worker shutdown() caught can be. |
| `PipelineOnPool.StopReturnsExactly` | src/application/FrameProcessingPipeline.cpp:47-54 | When a run without spurious wakeups in which stop() was called comes to rest, stop() has returned if and only if, at the moment the pool's shutdown() notified, no worker had tested its predicate without yet being asleep. |
| `PipelineOnPool.StopCanHangExactly` | src/application/FrameProcessingPipeline.cpp:47-54 | Some run without spurious wakeups comes to rest with stop() called and never returning, if and only if the camera has at least one worker. |
| `PipelineOnPool.NothingAfterStop` | src/application/FrameProcessingPipeline.cpp:47-54 | Once the winning stop() has returned no thread can take another step, so nothing is published any more. |
| `Camera.StepKeepsLinked` | src/application/FrameProcessingPipeline.cpp:36-87 | Pipeline, pool and the frame queue with its waits and notifications: every step keeps the three in agreement, only running workers wait in the queue, and stop() does not go on before close() has returned. |
| `Camera.EveryRunRefines` | src/application/FrameProcessingPipeline.cpp:36-87 | Every run of the camera with its real queue is a run of pipeline and pool in which a worker takes as soon as the wait predicate holds, so the results about those runs hold of the camera. |
| `Camera.RunLifts` | src/application/FrameProcessingPipeline.cpp:36-87 | Conversely, every run of pipeline and pool without spurious wakeups is one of the camera. |
| `Camera.WaitingFrameIsTaken` | src/application/FrameProcessingPipeline.cpp:81-87 | Whenever a worker waits beside a queued frame, asleep or not, some worker can take the frame now: no frame is left to a sleeper nobody will wake. |
| `Camera.CameraMove` | src/application/FrameProcessingPipeline.cpp:36-87 | The queue never holds the camera up: whenever pipeline or pool could move without a spurious wakeup, so can the camera. |
| `Camera.StoppingWindsDown` | src/application/FrameProcessingPipeline.cpp:47-54 | From the call of stop() on every step of the camera, spurious wakeups aside, decreases a well-founded measure. |
| `Camera.StopReturnsExactly` | src/application/FrameProcessingPipeline.cpp:47-54 | When a run of the camera without spurious wakeups has come to rest after the call of stop(), stop() has returned if and only if the pool's shutdown() caught no worker between its test and its sleep; the frame queue is never to blame. |
| `Camera.StopCanHangExactly` | src/application/FrameProcessingPipeline.cpp:47-54 | Some run of the camera without spurious wakeups comes to rest with stop() called and never returning, if and only if it has a worker. |
| `Throttle.GreedySpaces` | src/application/FrameProcessingPipeline.cpp:126-133 | Events handed on are at least the gap apart, whatever the clock does. |
| `Throttle.GreedyIsComplete` | src/application/FrameProcessingPipeline.cpp:126-133 | Every event held back comes less than the gap after the last one handed on before it. |
| `Throttle.GreedyStaysAhead` | src/application/FrameProcessingPipeline.cpp:126-133 | The k-th event handed on is never later than the k-th of any other choice that respects the gap. |
| `Throttle.GreedyIsOptimal` | src/application/FrameProcessingPipeline.cpp:126-133 | On a clock that does not step back the greedy choice is a largest choice that respects the gap. |
| `Throttle.WindowBound` | src/application/FrameProcessingPipeline.cpp:126-133 | A closed window of length L holds at most floor(L / gap) + 1 spaced events. |
| `Cooldown.TruncationIsHarmlessExactly` | src/application/FrameProcessingPipeline.cpp:129-130 | Comparing truncated milliseconds equals comparing nanoseconds, for all elapsed times, if and only if the cooldown is positive. |
| `Cooldown.FilterIsThrottle` | src/application/FrameProcessingPipeline.cpp:79-138 | Seen per forklift track, the worker's cooldown map is exactly the greedy throttle on that track's alert times. |
| `Cooldown.CooldownSpacesAlerts` | src/application/FrameProcessingPipeline.cpp:79-138 | Alerts a worker hands on for a track are at least the cooldown apart even if the clock steps back. |
| `Cooldown.CooldownBoundsWindows` | src/application/FrameProcessingPipeline.cpp:79-138 | Any closed window of length L holds at most floor(L / c) + 1 alerts a worker hands on for a track. |
| `Cooldown.CooldownIsOptimal` | src/application/FrameProcessingPipeline.cpp:126-137 | On a clock that does not step back, what is handed on for a track is a maximum-size choice among its raw alerts respecting the cooldown. |
| `Cooldown.CooldownIsComplete` | src/application/FrameProcessingPipeline.cpp:126-137 | Every suppressed alert of a track lies less than the cooldown after the latest one of that track handed on. |
| `Cooldown.PeriodicTrackCount` | src/application/FrameProcessingPipeline.cpp:126-137 | A track that triggers on n frames of period p is alerted exactly ceil(n / ceil(c / p)) times. |
| `Cooldown.HandedOnAreDistinct` | src/application/FrameProcessingPipeline.cpp:126-133 | With a positive cooldown no two alerts handed on share track and time. |
| `Cooldown.WorkersAreIndependent` | src/application/FrameProcessingPipeline.cpp:77-79 | The pool's output restricted to one worker is what that worker's own filter yields. |
| `Cooldown.PoolWindowBound` | src/application/FrameProcessingPipeline.cpp:77-138 | W workers publish for one track at most W times the bound of one in any closed window. |
| `Cooldown.PublisherSpacingExactly` | src/application/FrameProcessingPipeline.cpp:77-79 | Over arbitrary streams of raw alerts: alerts of one track are the cooldown apart at the publisher, for every stream, if and only if there is at most one worker. |
| `InferenceWorker.Worker.PublishAlerts` | src/application/FrameProcessingPipeline.cpp:126-138 | The loop over a frame's alerts, in place on the map: what is published and the new map are those of the filter specification. |
| `InferenceWorker.Worker.ProcessDetections` | src/application/FrameProcessingPipeline.cpp:124-138 | Evaluating a frame and publishing what the cooldown lets through. |
| `InferenceWorker.KeptContinuesFilter` | src/application/FrameProcessingPipeline.cpp:79-138 | Frame after frame a worker runs one cooldown filter over all it ever raises. |
| `InferenceWorker.AlertTimestamp` | src/application/RiskDetectionService.cpp:47-53 | Every alert of a frame carries the frame time and the id built from its own fields. |
| `PipelineAlerts.StepKeepsAlerts` | src/application/FrameProcessingPipeline.cpp:77-139 | Every step keeps: the publisher has received exactly what the cooldown filter lets through of all raw alerts, and each worker's map is its part of that filter. |
| `PipelineAlerts.WorkerPublishesKept` | src/application/FrameProcessingPipeline.cpp:77-139 | In every run, what a worker has published is what its cooldown keeps of all the alerts the frames it inferred raise, in order; only alerts of the frame in hand can still be to come. |
| `PipelineAlerts.RunsRespectCooldown` | src/application/FrameProcessingPipeline.cpp:77-139 | In every run each worker's published alerts for a track are at least the cooldown apart. |
| `PipelineAlerts.RunsRespectRate` | src/application/FrameProcessingPipeline.cpp:77-139 | In every run all workers together stay within W * (floor(L / c) + 1) alerts for a track per closed window of length L. |
| `AlertId.AlertIdRoundTrip` | src/application/RiskDetectionService.cpp:9-18 | An alert id can be read back from its right end whatever the camera is called, colons included. |
| `AlertId.AlertIdText` | src/application/RiskDetectionService.cpp:9-18 | The text of an id: camera, `:F` and forklift, `:P` and person, `:` and time. |
| `AlertId.AlertIdIsInjective` | src/application/RiskDetectionService.cpp:9-18 | Different (camera, forklift, person, time) give different ids. |
| `PipelineAlerts.AlertIdsAreUnique` | src/application/RiskDetectionService.cpp:9-18 | In every run of a one-worker pipeline with a cooldown of at least 1 ms all published ids are distinct, even when every track id is -1. |
| `PipelineRuns.CrowdAlerts` | src/application/RiskDetectionService.cpp:22-64 | Under any zone configuration, one forklift and n persons around its zone, none of them tracked, raise the same alert n times. |
| `PipelineRuns.TwoWorkersAlert` | src/application/FrameProcessingPipeline.cpp:56-139 | Every camera with two or more workers has a run in which two of them publish the same alert of one track at the same time: two frames captured, taken, inferred and evaluated. |
| `PipelineRuns.TwoPersonsAlert` | src/application/FrameProcessingPipeline.cpp:56-139 | Every camera with a worker and a cooldown of 0 or less has a run in which one frame with two persons publishes the same alert twice. |
| `PipelineRuns.SpacedInEveryRunExactly` | src/application/FrameProcessingPipeline.cpp:77-138 | With a positive cooldown, alerts of one track reach the publisher at least the cooldown apart in every run of the camera, if and only if it has at most one worker. |
| `PipelineRuns.IdsAreDistinctExactly` | src/application/FrameProcessingPipeline.cpp:124-138 | No run of the camera publishes an id twice, if and only if it has one worker and a cooldown of at least 1 ms, or no worker. |
| `ThreadPool.Pool.Submit` | include/forklift/shared/ThreadPool.h:57-60 | The critical section of submit: the task joins the end of the queue and of the submission history. The notification after it is a step of the protocol. |
| `ThreadPool.Pool.TakeTask` | src/shared/ThreadPool.cpp:27-33 | In place: one pass of the worker through its critical section; exits only when stopped and drained, otherwise takes the oldest task or waits. |
| `ThreadPool.Pool.RequestStop` | src/shared/ThreadPool.cpp:15-16 | Only the first shutdown call goes on to notify and join. |
| `ThreadPool.StepKeepsInv` | src/shared/ThreadPool.cpp:14-36 | Every step of workers, submitters and shutdown keeps: tasks start in order and once, a worker exits only after the drain, and sleepers are covered. |
| `ThreadPool.PoolIsAFifo` | src/shared/ThreadPool.cpp:24-36 | In every run submitted = started + queued, tasks start in submission order, and no task is run by two workers or after it finished. |
| `ThreadPool.NoTaskForgotten` | include/forklift/shared/ThreadPool.h:57-61 | A worker sleeps beside a queued task only while another has been woken for it or its submitter has still to notify. |
| `ThreadPool.QueuedTaskStartsExactly` | include/forklift/shared/ThreadPool.h:57-61 | submit does not look at the stop flag: a task still queued, however late it was submitted, can yet be started without a spurious wakeup if and only if some worker has not exited; otherwise no run ever starts it. |
| `ThreadPool.ShutdownDrainsExactly` | src/shared/ThreadPool.cpp:14-36 | If shutdown's joins return, every task submitted before the stop flag has finished, if and only if the pool has a worker or there was no task. |
| `ThreadPool.ShutdownLosesWakeupExactly` | src/shared/ThreadPool.cpp:14-20 | shutdown() can leave a worker asleep for good if and only if, when it notifies, some worker has tested its predicate and is not yet asleep. |
| `ThreadPool.ShutdownCanHang` | src/shared/ThreadPool.cpp:14-20 | A run of a one-worker pool that reaches that state. |
| `AlertPublisher.Session.SendPayload` | src/infrastructure/transport/WebSocketAlertPublisher.cpp:54-58 | In place: ignored before the handshake, otherwise queued, and a write is started exactly if none is in flight. |
| `AlertPublisher.Session.StartWrite` | src/infrastructure/transport/WebSocketAlertPublisher.cpp:61-67 | In place: the oldest pending payload goes in flight, or the session becomes idle. |
| `AlertPublisher.Session.WriteCompleted` | src/infrastructure/transport/WebSocketAlertPublisher.cpp:67-75 | In place: a completed write starts the next; a failed one asks for removal and starts none. |
| `AlertPublisher.Session.Accepted` | src/infrastructure/transport/WebSocketAlertPublisher.cpp:43-51 | Handshake done: ready, or removal on failure. |
| `AlertPublisher.SendExtendsStream` | src/infrastructure/transport/WebSocketAlertPublisher.cpp:54-66 | Sending adds the payload to the end of written + in flight + pending of a ready session and keeps at most one write in flight. |
| `AlertPublisher.SendAllExtends` | src/infrastructure/transport/WebSocketAlertPublisher.cpp:134-137 | A batch joins a ready session's stream in order at its end, and no write completes meanwhile; a session that is not ready ignores it. |
| `AlertPublisher.WriteDoneKeepsStream` | src/infrastructure/transport/WebSocketAlertPublisher.cpp:61-75 | A completed write moves one payload to written without disturbing the stream. |
| `AlertPublisher.Publisher.Publish` | src/infrastructure/transport/WebSocketAlertPublisher.cpp:185-201 | In place: the queue of 256 drops its oldest when full, one drain is posted per alert, and the warning follows the one-second throttle. |
| `AlertPublisher.Publisher.DropOldest` | src/infrastructure/transport/WebSocketAlertPublisher.cpp:189-196 | The overflow branch: one payload dropped, warned exactly if a second has passed since the last warning. |
| `AlertPublisher.Publisher.DoDrain` | src/infrastructure/transport/WebSocketAlertPublisher.cpp:128-138 | In place: the queue is emptied, and every ready session's stream is its old stream followed by the old queue in order; the others are unchanged. |
| `AlertPublisher.Publisher.SendBatch` | src/infrastructure/transport/WebSocketAlertPublisher.cpp:134-137 | The two loops: the whole batch, in order, to every session. |
| `AlertPublisher.Publisher.SendToAll` | src/infrastructure/transport/WebSocketAlertPublisher.cpp:136-136 | The inner loop reaches every session once. |
| `AlertPublisher.Publisher.AcceptClient` | src/infrastructure/transport/WebSocketAlertPublisher.cpp:105-117 | A new client joins the session set, not yet ready. |
| `AlertPublisher.Publisher.RemoveSession` | src/infrastructure/transport/WebSocketAlertPublisher.cpp:120-125 | The search over the session set stops at the match and erases exactly that session, or nothing if it is not there; it may be called while that session is out of order. |
| `AlertPublisher.Publisher.OnHandshake` | src/infrastructure/transport/WebSocketAlertPublisher.cpp:43-51 | The handshake handler: ready, or dropped on failure. |
| `AlertPublisher.Publisher.OnWritten` | src/infrastructure/transport/WebSocketAlertPublisher.cpp:67-75 | The write handler: the next write starts, or on failure the session is dropped, which puts the publisher back in order. |
| `AlertPublisher.WarningsAreThrottled` | src/infrastructure/transport/WebSocketAlertPublisher.cpp:189-196 | The warnings given are the one-second greedy throttle on the overflow times, its clock starting ten seconds before the publisher was made. |
| `AlertPublisher.WarningsAreSpaced` | src/infrastructure/transport/WebSocketAlertPublisher.cpp:189-196 | Queue-full warnings are at least a second apart, and an overflow goes unreported only within a second after a report. |
| `AlertPublisher.StepKeepsQueue` | src/infrastructure/transport/WebSocketAlertPublisher.cpp:128-138 | Every step keeps: delivered = drained + rest of the running batch, and a non-empty queue has a drain posted or a publisher about to post one. |
| `AlertPublisher.StepKeepsSessions` | src/infrastructure/transport/WebSocketAlertPublisher.cpp:38-76 | Every step keeps, per session, written + in flight + pending equal to what was drained since it became ready. |
| `AlertPublisher.NoAlertStranded` | src/infrastructure/transport/WebSocketAlertPublisher.cpp:185-200 | In every run: no alert is stranded, the queue holds at most 256 and is the suffix of the published history, and published = drained + in the running batch + dropped + queued. |
| `AlertPublisher.SessionCarriesDrainedStream` | src/infrastructure/transport/WebSocketAlertPublisher.cpp:54-76 | In every run a ready session carries exactly the drained history since it became ready, with at most one write in flight and nothing pending beside an idle socket. |
| `AlertPublisher.ClientsAgree` | src/infrastructure/transport/WebSocketAlertPublisher.cpp:128-138 | Any two clients, connected or gone, received the same alert at every position of the drained stream that both saw. |
| `AlertDelivery.LostExactly` | src/infrastructure/transport/WebSocketAlertPublisher.cpp:185-198 | In every run an alert has left the queue without being drained if and only if some publish found the queue full with that alert at its front. |
| `AlertDelivery.EverythingIsDrainedExactly` | src/infrastructure/transport/WebSocketAlertPublisher.cpp:185-198 | In every run the published history is the drained history, the running batch and the queue, in order, if and only if no publish has found the queue full. |
| `AlertDelivery.ClientGetsAllExactly` | src/infrastructure/transport/WebSocketAlertPublisher.cpp:43-66 | A connected client has, or can still get, every alert from number a on if and only if none of them had left the queue when its handshake completed and no publish since has pushed one of them out. |
| `AlertDelivery.SinceHandshakeExactly` | src/infrastructure/transport/WebSocketAlertPublisher.cpp:43-66 | Every alert published since its handshake is in the client's stream, in the batch being sent, or queued, if and only if no publish since has found the queue full with an alert published since the handshake at its front. |
| `AlertDelivery.SinceConnectExactly` | src/infrastructure/transport/WebSocketAlertPublisher.cpp:43-66 | The same for every alert published since the client connected, if and only if in addition none of them had left the queue when the handshake completed. |
| `AlertDelivery.EveryAlertReceivedExactly` | src/infrastructure/transport/WebSocketAlertPublisher.cpp:54-76 | When drains and socket are idle, the client has received every alert published since it connected under exactly that condition. |
| `AlertDelivery.OverflowLosesAlert` | src/infrastructure/transport/WebSocketAlertPublisher.cpp:187-198 | A run: a client is ready before the first alert, 257 alerts are published before a drain runs, and the first one never reaches it. |
| `AlertDelivery.HandshakeGapMissesAlert` | src/infrastructure/transport/WebSocketAlertPublisher.cpp:54-55 | A run without any overflow: the one alert is drained while the connected client's handshake is pending, and the client gets nothing. |
| `AlertDelivery.ConnectedExactly` | src/infrastructure/transport/WebSocketAlertPublisher.cpp:43-51 | In every run a client is in the session set if and only if it has connected and none of its own handlers has failed since. |
| `AlertDelivery.DroppedGetsNothingMore` | src/infrastructure/transport/WebSocketAlertPublisher.cpp:67-76 | After its handshake or a write fails a client is out of the set for good and receives nothing more. |
| `Viewer.SharedState.FindLatest` | src/infrastructure/transport/MjpegStreamServer.cpp:46-54 | The JPEG stored for the camera asked for, none if there is none; without a name the one of the first camera ever seen. |
| `Viewer.SharedState.PutJpeg` | src/infrastructure/transport/MjpegStreamServer.cpp:67-71 | In place: the camera list grows exactly for a new camera, and the JPEG becomes its latest. |
| `Viewer.LookupAfterStore` | src/infrastructure/transport/MjpegStreamServer.cpp:46-71 | Nothing is found in an empty store; storing a JPEG makes it what is found for its camera, under a new identity, and changes nothing for any other. |
| `Viewer.SharedState.PutDets` | src/infrastructure/transport/MjpegStreamServer.cpp:104-110 | In place: the camera's number and the global number each grow by one with the new text. |
| `Viewer.SharedState.FindDetsAll` | src/infrastructure/transport/MjpegStreamServer.cpp:94-102 | The events of all cameras in iteration order with the global number. |
| `Viewer.StoreDetsKeeps` | src/infrastructure/transport/MjpegStreamServer.cpp:104-110 | The global number stays the sum of the per-camera numbers. |
| `Viewer.SseSession.Tick` | src/infrastructure/transport/MjpegStreamServer.cpp:330-361 | In place: sends the current text exactly if there is one and its number is new; what is returned is what joins the sent history. |
| `Viewer.MjpegSession.Tick` | src/infrastructure/transport/MjpegStreamServer.cpp:283-300 | In place: sends the latest JPEG exactly if it is another object than the last one sent; what is returned is what joins the shown history. |
| `Viewer.CurrentIsEmptyExactly` | src/infrastructure/transport/MjpegStreamServer.cpp:83-102 | There is nothing to send if and only if the number is 0. |
| `Viewer.SseTickIsCoherent` | src/infrastructure/transport/MjpegStreamServer.cpp:330-361 | After any tick, sending or silent, the last text sent is the current one; numbers sent strictly rise. |
| `Viewer.MjpegTickIsCoherent` | src/infrastructure/transport/MjpegStreamServer.cpp:283-300 | After any tick the last JPEG sent is the latest one. |
| `Viewer.EveryRunIsCoherent` | src/infrastructure/transport/MjpegStreamServer.cpp:40-111 | Store and session invariants hold in every run of any number of cameras and sessions. |
| `Viewer.ViewerIsCoherent` | src/infrastructure/transport/MjpegStreamServer.cpp:283-361 | In every run: global number = sum of camera numbers, the camera list is duplicate-free and equals the keys, numbers sent rise, no session returns to an older JPEG, and a tick leaves its client current. |
| `ViewerContents.MjpegClientHasLastFrame` | src/infrastructure/transport/MjpegStreamServer.cpp:40-71 | In every run, after a tick the last JPEG sent to a client has the bytes of the last frame published by the camera it asked for, or by the first camera ever seen if it named none. |
| `ViewerContents.MjpegClientHasNothing` | src/infrastructure/transport/MjpegStreamServer.cpp:46-54 | While there is no such frame the client has been sent nothing. |
| `ViewerContents.SseClientHasLastText` | src/infrastructure/transport/MjpegStreamServer.cpp:83-111 | In every run, after a tick the last text sent to a client of a camera is the event of that camera's last published detections. |
| `ViewerContents.SseClientHasEveryCamera` | src/infrastructure/transport/MjpegStreamServer.cpp:94-111 | After a tick the last text sent to a client of all cameras is one event for each camera that has published detections, each with its last ones, and nothing else. |
| `Geometry.IntersectsExactly` | src/domain/BoundingBox.cpp:7-12 | `intersects` is symmetric, and with positive sizes it means a common interior point, exactly. |
| `Geometry.IntersectionIsSharedArea` | src/domain/BoundingBox.cpp:14-22 | The intersection is the area of the box of exactly the points inside both boxes. |
| `Geometry.IouIsRatio` | src/domain/BoundingBox.cpp:24-26 | The score times the area covered by both boxes together is the intersection. |
| `Geometry.IouFacts` | src/domain/BoundingBox.cpp:14-27 | For boxes of positive size: symmetric, in [0, 1], positive exactly if they intersect, 1 exactly if equal. |
| `Geometry.ClampingLosesNothing` | src/domain/BoundingBox.cpp:29-36 | The clamped zone meets every person box reaching into the frame that the unclamped padded box meets. |
| `Geometry.ClampIsExactOnlyInsideFrame` | src/domain/BoundingBox.cpp:29-36 | The clamped zone meets exactly the boxes in the frame that the padded one meets if and only if nothing is clamped. |
| `Geometry.PaddingGrowsBox` | src/domain/BoundingBox.cpp:29-36 | A larger pad yields an enclosing zone, clamping included. |
| `RiskDetection.ZonesFor` | src/application/SafetyZoneService.cpp:21-29 | The loop builds the zone list of the specification. |
| `RiskDetection.ZonesLineUp` | src/application/SafetyZoneService.cpp:5-29 | One zone per forklift, in the same order. |
| `RiskDetection.ZoneEdges` | src/application/SafetyZoneService.cpp:5-19 | The zone carries the forklift's box and track, and its four edges follow from box and configuration in both modes: each side moved out by the pad of its axis, or, where that passes 0, a corner at 0 with the padded size kept. |
| `RiskDetection.SplitByClass` | src/application/RiskDetectionService.cpp:27-38 | Persons and forklifts in detection order; other classes are ignored. |
| `RiskDetection.AlertsForZone` | src/application/RiskDetectionService.cpp:44-61 | The inner loop: one zone against every person. |
| `RiskDetection.AlertsForZones` | src/application/RiskDetectionService.cpp:43-62 | The outer loop: every zone in turn. |
| `RiskDetection.Evaluate` | src/application/RiskDetectionService.cpp:22-64 | The whole evaluation computes the alert list of the specification. |
| `RiskDetection.EvaluateRefinesRelation` | src/application/RiskDetectionService.cpp:22-64 | The alerts are exactly the overlapping (forklift, person) pairs, each once, in forklift-major detection order. |
| `RiskDetection.EvaluateExactly` | src/application/RiskDetectionService.cpp:22-64 | A pair of detections is alerted if and only if they are a forklift and a person whose four edges satisfy the four inequalities against the forklift's edges and the configured pads; one alert per pair, in order, with ids, boxes, tracks and time of its two detections. |
| `RiskDetection.PermutingDetectionsPermutesAlerts` | src/application/RiskDetectionService.cpp:22-64 | Reordering the detections only reorders the alerts. |
| `RiskDetection.MorePaddingMoreAlerts` | src/application/SafetyZoneService.cpp:5-19 | Raising the pad, absolute or relative, never removes an alerting pair. |
| `RiskDetection.AlertsGrowWithPadding` | src/application/RiskDetectionService.cpp:40-62 | End to end: every alert is still raised, but for its wider zone, with a larger pad. |
| `RiskDetection.ClampedZoneStillAlerts` | src/application/RiskDetectionService.cpp:43-61 | A person in the frame and in the unclamped padded box of a forklift is alerted. |
| `RiskDetection.ViewerZones` | src/application/FrameProcessingPipeline.cpp:112-117 | The viewer branch shows a zone for every forklift of the frame. |
| `RiskDetection.AlertZonesAreShown` | src/application/FrameProcessingPipeline.cpp:110-125 | Every alert's zone is one of the zones the viewer branch publishes for that frame, both zone services being made from one configuration. |
| `VideoSource.RtspCameraSource.ReadFrame` | src/infrastructure/video/RtspCameraSource.cpp:31-41 | In place: frames are numbered 1, 2, 3, ... across reconnects and never empty; a failed read uses no number. |
| `VideoSource.VideoFileSource.Open` | src/infrastructure/video/VideoFileSource.cpp:12-27 | In place: the schedule starts at the time of a successful open with the guarded interval; a failed one leaves both alone. |
| `VideoSource.VideoFileSource.Pace` | src/infrastructure/video/VideoFileSource.cpp:38-50 | In place: a frame before its time is released when the sleep ends and the next is due one interval after it was due; a late one is released at once and the next is due one interval from now. |
| `VideoSource.VideoFileSource.ReadFrame` | src/infrastructure/video/VideoFileSource.cpp:52-74 | In place: paced once per call on an open file, rewinds at most once, numbers frames without gaps; no frame is empty. |
| `VideoSource.FpsGuardKeepsInterval` | src/infrastructure/video/VideoFileSource.cpp:18-20 | For every reported rate, NaN and infinities included, the interval, as an unbounded integer, is at least 4 ms and loses less than 1 ms. |
| `VideoSource.IntervalOfRate` | src/infrastructure/video/VideoFileSource.cpp:18-20 | A rate above 0 and at most 240 is kept: the interval is its period in whole milliseconds; anything else gives 40 ms. |
| `VideoSource.IntervalFitsExactly` | src/infrastructure/video/VideoFileSource.cpp:18-20 | The cast of the interval to a 64-bit integer is in range if and only if the guarded rate is above 1000 / 2^63 frames a second. |
| `VideoSource.PacingBound` | src/infrastructure/video/VideoFileSource.cpp:38-50 | If sleeps overshoot by at most d, any k + 1 consecutive releases span at least k intervals less d. |
| `VideoSource.OnTimeReleases` | src/infrastructure/video/VideoFileSource.cpp:42-44 | No drift: while every call comes in time, the k-th frame leaves k intervals after the first was due, late by at most one overshoot. |
| `VideoSource.LateCallRestarts` | src/infrastructure/video/VideoFileSource.cpp:45-49 | A frame that is due or overdue leaves at once, and the next is due one interval later. |
| `YoloPostprocessor.BestClass` | src/infrastructure/ai/YoloV8Postprocessor.cpp:35-40 | The chosen class is the first index of the positive maximum, none if no score is positive; all reads in bounds. |
| `YoloPostprocessor.FirstBestIsUnique` | src/infrastructure/ai/YoloV8Postprocessor.cpp:35-40 | That description leaves no choice. |
| `YoloPostprocessor.CollectCandidates` | src/infrastructure/ai/YoloV8Postprocessor.cpp:33-56 | The parallel vectors hold exactly the anchors that pass, in order, each with its box, score and class. |
| `YoloPostprocessor.TakeKept` | src/infrastructure/ai/YoloV8Postprocessor.cpp:64-76 | The last loop returns the first n kept candidates in the suppressor's order, each with its own box, score and mapped class. |
| `YoloPostprocessor.Postprocess` | src/infrastructure/ai/YoloV8Postprocessor.cpp:17-77 | Each output comes from an anchor of its own that passed: its box is the anchor's centre and size turned into corner and size, scaled to the source and cut to whole pixels, its confidence and class those of the anchor's first best score, the class through the map or unknown; the first `max_detections` the suppressor keeps are returned; track ids stay -1. |
| `YoloPostprocessor.ScaleFacts` | src/infrastructure/ai/YoloV8Postprocessor.cpp:17-24 | The factors take the model size to the source size, and are 1 where the source size is not known. |
| `YoloPostprocessor.DecodedBoxStaysInFrame` | src/infrastructure/ai/YoloV8Postprocessor.cpp:48-52 | An anchor box inside the model input decodes to a box inside the source frame although all four numbers are truncated separately. |
| `YoloPostprocessor.DecodedWidthIsZeroExactly` | src/infrastructure/ai/YoloV8Postprocessor.cpp:48-52 | A decoded box has width 0 if and only if it is less than a source pixel wide. |
| `YoloPostprocessor.ThinBoxIntersects` | src/infrastructure/ai/YoloV8Postprocessor.cpp:48-70 | A decoded box of width 0 that intersects another decoded box without sharing any area with it. |
| `TensorPacking.ChwIsBijective` | src/infrastructure/ai/OnnxInferenceEngine.cpp:118-126 | Every cell of the planar buffer is the place of exactly one channel of one pixel. |
| `TensorPacking.PlanarAt` | src/infrastructure/ai/OnnxInferenceEngine.cpp:122-124 | The planar image holds channel k of pixel (r, c) where the tensor layout says. |
| `TensorPacking.PackingIsInvertible` | src/infrastructure/ai/OnnxInferenceEngine.cpp:118-126 | Packing can be undone, from either side, for all sizes. |
| `TensorPacking.WritePixel` | src/infrastructure/ai/OnnxInferenceEngine.cpp:122-124 | The loop body writes the three channels of its pixel and no other cell. |
| `TensorPacking.Pack` | src/infrastructure/ai/OnnxInferenceEngine.cpp:117-126 | The loop writes every cell of the buffer exactly once and yields the planar image. |

## Left out

- Rounding of floats, NaN scores and boxes, and wrap-around of 64-bit counters and clocks: numbers are reals and unbounded integers. Only a NaN or infinite frame rate is modelled, and the range of the one cast from it (`VideoSource.IntervalFitsExactly`); outside that range the program's behaviour is undefined.
- Queue capacity 0, negative box sizes, negative pads and a negative `max_detections`: preconditions. Model input sizes are positive.
- ONNX Runtime, OpenCV decoding, resizing and JPEG encoding: the detections of a frame and the bytes of a JPEG are arbitrary.
- `cv::dnn::NMSBoxes`: any function that returns distinct valid indices.
- Boost.Beast sockets and handshakes: a completion handler is a step of its own, never run inside the call that starts the operation. HTTP routing, query parsing and static files are not modelled.
- JSON text of alerts and detections: strings are not escaped by the program, so no round trip is claimed; a payload is an opaque string, and a detection text one that begins with its camera.
- YAML loading, logging, the backend factory, `main.cpp`, `Result`, the web client and `OverlayFrameAnnotator`: wiring and user interface.
- `contains_point`, `cx`, `cy`, `cameras_json` and the stub builds without Boost.Beast: no property beyond their one line.
- Starting and stopping the publisher and the viewer server, and whether the 100 ms flush in the publisher's `stop()` sends everything.
- `MjpegStreamServer::publish` ignoring empty images and failed encodings: only frames that are stored appear.
- Restarting a pipeline after `stop()` (its queue stays closed), and `stop()` racing `start()` or another `stop()`: in PipelineOnPool `stop()` begins after `start()` has returned, and only the call that wins the compare-exchange is modelled.
- A publisher `publish` that fails: the real publisher always succeeds, so the worker's warning branch is not a step.
- The thread loops of the pipeline as imperative code: `capture_loop`, `inference_loop` and `worker_loop` interleave with other threads between any two lines, so they are steps of state machines; the parts that touch one object only are methods.
- Copying and aliasing of frames and alerts: they are values.
- Fairness: which thread gets a lock or a notification is arbitrary, and the measures show that stopping comes to rest in finitely many steps, not that an unfair scheduler gives every thread its turn while the pipeline runs.
- Futures of submitted tasks and exceptions thrown by tasks.
- The order in which a set of sessions is walked: sessions do not affect each other.
- BoundedQueue.ConcurrentQueue.Close: the notifications after the critical section are steps of `QueueProtocol`, not part of this contract.
- ThreadPool.Pool.Submit: the notification after the critical section is a step of the pool's protocol, and the future is not modelled.
- The wiring of zone services (src/interface/main.cpp): the risk service and the viewer are given services made from the same configuration, and the model has one configuration for both.
- Pipeline.Next: `StopJoinPool` waits for all loops in one step; PipelineOnPool replaces it by the pool's own shutdown and shows that the two agree whenever the join returns. `WorkerTake` takes as soon as the queue's wait predicate holds; Camera replaces it by the queue's own protocol and shows that the two have the same runs.
- VideoSource.VideoFileSource.ReadFrame: what the device delivers and the clock readings are parameters, and the image itself is not modelled.
- Viewer.MjpegSession.Tick: identity of a stored JPEG is a number that grows with every store, which stands for comparing shared pointers that the session keeps alive.
