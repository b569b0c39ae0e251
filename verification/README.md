# Video monitoring core, modelled in Dafny

This project models the streaming and orchestration core of a multi-camera safety
monitor for electric-vehicle charging sites. Each camera has a `VideoProcessor`. Its
capture loop pushes frames into a bounded frame buffer that drops the oldest frame. Its
throttled detection loop pops one frame, runs the opaque model `predict`, and stamps the
result. The result becomes the latest detection, goes into a history capped at 1000
entries, and is offered to a bounded result buffer that drops the *new* item when full.
A `MonitorManager` keeps a registry of processors keyed by camera id. It starts them
with partial-failure tolerance, stops them idempotently, answers status and history
queries, and routes alerts as immediate or routine. The API route layer guards restart,
projects status, counts the alerts summary, and updates the alert threshold.

Everything is immutable data plus pure step functions:

- One iteration of a thread loop is one atomic step.
- Clocks are explicit arguments in milliseconds (`nat`). A detection iteration has two:
  `now` is the throttle's `time.time()`, read before the frame is popped, and `at` is
  the `datetime.now()` that stamps the result, read after `predict` returns. The
  throttle spaces the `now` readings, not the stamps: a slow prediction followed by a
  fast one can stamp two results closer together than the interval
  (`VideoProcessor.StampsCanBeCloser`).
- `predict` is a function-typed parameter whose `None` stands for a raised exception.
- Opening a video source is a parameter of type `Option<StreamProps>`.

Files and modules:

- `common.dfy` (`Common`): `Option` and `Result`.
- `queues.dfy` (`Queues`): `queue.Queue` semantics on sequences. A `maxsize` of zero or
  less is unbounded, as in Python.
- `dict.dfy` (`Dict`): a Python dict, which is a map plus the insertion order of its keys.
- `detections.dfy` (`Detections`): frames, predictions, detection results, and the
  inclusive time-window filter.
- `sorting.dfy` (`Sorting`): the stable sort by timestamp, and its uniqueness.
- `video_processor.dfy` (`VideoProcessor`): the per-camera state and steps.
- `alert_routing.dfy` (`AlertRouting`): the danger set and the routing decision.
- `monitor_manager.dfy` (`MonitorManager`): the registry and the lifecycle and query
  operations.
- `summary.dfy` (`Summary`): the per-class count of the alerts summary.
- `routes.dfy` (`Routes`): the route handlers over the manager global. It also has a
  trace of all calls and thread steps.

Explicit assumption: timestamps are abstracted as `nat`. The window filter compares
parsed datetimes, but the merge sorts on the raw ISO strings. The model assumes the two
orders agree, which holds for timestamps produced by the same `isoformat()` call shape.

Behaviour of the code that a reader might not expect, modelled as written:

- `start_monitoring` silently returns when already running; it raises no "already
  running" error.
- The result buffer drops the newest item when full, not the oldest.
- `get_camera_status` pops one result-buffer entry and reports *that* entry's result as
  `latest_detection`, not the processor's `latest_detection`.
- Nothing in the code enqueues onto `alerts_queue`, so the pending-alert count is
  always zero (`Routes.AlertQueueStaysEmpty`).
- Repeated camera ids overwrite each other in the registry. The processor from the
  *last* config that started wins, and it keeps the key's first position. The
  processor it replaces has already been started, and the dict holds no other
  reference to it, so `stop_monitoring` never reaches it and its threads keep running.
  The model keeps such processors in the manager's `displaced` list, which nothing
  stops (`MonitorManager.RepeatedIdOutlivesStop`).
- A camera id of `""` is falsy in Python, so `get_alerts_history` treats it as "no
  camera" and returns the merged history.
- `start` resets the detection loop's throttle mark to 0, because it is a local of the
  new thread. `start` does not clear the buffers or the history.

## Model

| member | source | states |
|---|---|---|
| Queues.PushDropOldest | ml_models/vision/video_processor.py:114-124 | when full, exactly the oldest element is evicted before the new one is appended; the result is a suffix of old contents plus the new element and stays within a positive maxsize |
| Queues.PushIfRoom | ml_models/vision/video_processor.py:165-166 | old contents are kept unchanged; the new item is appended exactly when the queue is not full, otherwise discarded |
| Queues.TryPop | ml_models/vision/video_processor.py:180-183 | nothing is returned exactly when the queue is empty; otherwise the oldest element and the rest reassemble the queue |
| Queues.PushAllKeepsNewest | ml_models/vision/video_processor.py:114-124 | after any run of drop-oldest pushes the bounded buffer holds exactly the maxsize most recent elements in push order |
| Queues.PushAllFromEmpty | ml_models/vision/video_processor.py:114-124 | n pushes into an empty buffer leave the last min(n, buffer_size) of them in push order |
| Queues.PushAllUnbounded | ml_models/vision/video_processor.py:43 | a queue created with maxsize zero or less never evicts: every push is kept |
| Dict.Put | ml_models/vision/monitor_manager.py:80 | storing under an existing id replaces its value in place; a new id is appended to the key order; the dict stays well formed |
| Dict.Empty | ml_models/vision/monitor_manager.py:45 | the registry starts with no keys |
| Detections.FilterWindow | ml_models/vision/video_processor.py:201-212 | an entry is in the result iff it is in the history and its timestamp lies in the inclusive window (missing bound = open side) |
| Detections.FilterWindowConcat | ml_models/vision/video_processor.py:202-210 | filtering keeps original order: it distributes over concatenation |
| Detections.FilterWindowKeepsAll | ml_models/vision/video_processor.py:198-199 | when every entry is inside the window, in particular with both bounds absent, the whole history is returned |
| Sorting.Insert | ml_models/vision/monitor_manager.py:247 | inserting into a sorted sequence keeps it sorted and adds exactly the one entry |
| Sorting.SortByTime | ml_models/vision/monitor_manager.py:247 | result is sorted ascending by timestamp, a permutation of the input, and for every timestamp the entries with that timestamp are in input order (stable) |
| Sorting.StableSortUnique | ml_models/vision/monitor_manager.py:247 | two timestamp-sorted sequences that agree on the ordered entries of every timestamp are equal, so a stable sort has exactly one result |
| VideoProcessor.New | ml_models/vision/video_processor.py:31-54 | a constructed processor keeps the source, buffer size and detection interval it was given, is stopped and not capturing, has no stream properties, a zero detection mark, empty buffers and history, and satisfies the processor invariant |
| VideoProcessor.Start | ml_models/vision/video_processor.py:60-73 | no-op when running; open failure raises SourceUnavailable and leaves it stopped; success records width/height/fps, sets running and keeps buffers and history |
| VideoProcessor.Stop | ml_models/vision/video_processor.py:90 | always leaves the processor not running and not capturing, changing nothing else |
| VideoProcessor.CaptureStep | ml_models/vision/video_processor.py:106-124 | does nothing unless running and capturing; a failed read ends the capture loop; a frame is admitted drop-oldest; the invariant (buffers within bound) is preserved |
| VideoProcessor.AppendHistory | ml_models/vision/video_processor.py:157-162 | the result becomes the last entry; history stays at most 1000 long and only the single oldest entry is dropped once it would exceed 1000 |
| VideoProcessor.AppendHistoryIsDropOldest | ml_models/vision/video_processor.py:157-162 | the history append is the same drop-oldest admission as the frame buffer, with capacity 1000 |
| VideoProcessor.DetectionStep | ml_models/vision/video_processor.py:130-171 | stopped, throttled (now - last < interval) and empty-buffer ticks change nothing; predict failure only consumes the frame; success stamps the result with the time the prediction returned, sets latest, appends to history, offers to the result buffer and moves the throttle mark to the throttle clock's reading; invariant preserved |
| VideoProcessor.LatestFrame | ml_models/vision/video_processor.py:180-183 | pops the oldest (frame, result) pair of the result buffer, or returns nothing and changes nothing when empty |
| VideoProcessor.GetDetectionHistory | ml_models/vision/video_processor.py:198-212 | both bounds absent returns the whole history; otherwise exactly the in-window entries in history order |
| VideoProcessor.DetectionsSpaced | ml_models/vision/video_processor.py:130-168 | across any run of loop iterations the throttle-clock times of successive successful detections are at least detection_interval apart, and the mark ends at the throttle time of the last detection |
| VideoProcessor.StampsAfterMarks | ml_models/vision/video_processor.py:133-150 | when each prediction returns no earlier than its throttle reading, every result is stamped no earlier than its own throttle time and at least detection_interval after the previous detection's throttle time |
| VideoProcessor.StampsCanBeCloser | ml_models/vision/video_processor.py:133-168 | with a 500 ms interval, a 400 ms prediction at 100000 followed by a 10 ms one at 100500 stamps two results 110 ms apart |
| VideoProcessor.HistoryKeepsNewest | ml_models/vision/video_processor.py:157-162 | after any run the history is exactly the 1000 newest of old entries followed by the run's detections |
| VideoProcessor.CaptureKeepsNewest | ml_models/vision/video_processor.py:114-124 | a running processor fed frames with no detections in between holds the buffer_size newest frames in capture order |
| AlertRouting.ShouldTriggerImmediate | ml_models/vision/monitor_manager.py:161-166 | true iff some detection has confidence strictly above the threshold and a class in the five-class danger set; empty list gives false |
| AlertRouting.HandleAlert | ml_models/vision/monitor_manager.py:145-148 | exactly one of Immediate or Routine, Immediate iff a dangerous detection exists |
| AlertRouting.NoDangerIsRoutine | ml_models/vision/monitor_manager.py:162-164 | detections at the threshold or outside the danger set never make an alert immediate |
| AlertRouting.ImmediateMonotone | ml_models/vision/monitor_manager.py:161-165 | adding detections never turns an immediate alert routine |
| AlertRouting.ThresholdMonotone | ml_models/vision/monitor_manager.py:162 | raising the threshold never turns a routine alert immediate |
| AlertRouting.RoutingExamples | ml_models/vision/monitor_manager.py:161-166 | at threshold 0.8 spark 0.81 is immediate and spark 0.79 routine; normal 0.95 is routine at any threshold |
| MonitorManager.NewManager | ml_models/vision/monitor_manager.py:32-54 | a constructed manager is stopped, with the given configs and threshold, no processors and an empty alert queue |
| MonitorManager.Launch | ml_models/vision/monitor_manager.py:71-79 | a camera's processor starts iff its source opens, and then runs on that source with buffer size 30, detection interval 0.5 s, and empty buffers and history |
| MonitorManager.Register | ml_models/vision/monitor_manager.py:78-83 | a started processor is stored under its camera id, replacing any earlier entry in place or appending a new key; a failed start leaves the registry as it was |
| MonitorManager.StartCameras | ml_models/vision/monitor_manager.py:66-83 | keys become old keys plus exactly the ids whose start succeeded; failures are skipped without stopping the loop; each id holds the processor of its last successful config |
| MonitorManager.StartCamerasKeepsKeyOrder | ml_models/vision/monitor_manager.py:66-80 | the key order after the loop is the old key order (a replaced entry keeps its position) followed by the new ids in the order of their first successful start |
| MonitorManager.KeyOrderStep | ml_models/vision/monitor_manager.py:66-80 | one registration appends the camera id to the key order exactly when it starts and was not yet a key |
| MonitorManager.Displaced | ml_models/vision/monitor_manager.py:66-80 | the loop drops at most one processor per config |
| MonitorManager.DisplacedKeepsRegistered | ml_models/vision/monitor_manager.py:78-80 | a registered processor is dropped from the registry once any config with its id starts |
| MonitorManager.DisplacedOnlyKnown | ml_models/vision/monitor_manager.py:66-80 | only processors registered before, or started by the loop itself, are dropped from the registry |
| MonitorManager.RepeatedStartDisplaced | ml_models/vision/monitor_manager.py:66-80 | when two configs with the same id both start, the earlier one's processor is dropped from the registry |
| MonitorManager.StartMonitoring | ml_models/vision/monitor_manager.py:60-83 | no-op when running; otherwise sets running, registers exactly the cameras that started, keeps the entries of ids that did not start, keeps the old key order in front of the new ids, and records the processors the loop dropped, leaving everything else unchanged |
| MonitorManager.StopMonitoring | ml_models/vision/monitor_manager.py:98-109 | no-op when not running; otherwise clears the flag and every registered processor ends stopped, registry keys unchanged; dropped processors are not reached |
| MonitorManager.RepeatedIdOutlivesStop | ml_models/vision/monitor_manager.py:66-109 | when two configs with the same id both start, after start and stop the earlier one's processor is still running and no registry entry holds it |
| MonitorManager.StopIdempotent | ml_models/vision/monitor_manager.py:98-101 | stopping twice equals stopping once |
| MonitorManager.RouteAlert | ml_models/vision/monitor_manager.py:145-148 | the routing decision uses the manager's current threshold |
| MonitorManager.GetCameraStatus | ml_models/vision/monitor_manager.py:201-214 | unknown id fails with CameraNotFound; a known id reports that processor's flag, dimensions and fps, and pops at most one result-buffer entry whose result is the reported latest detection |
| MonitorManager.ConcatHistoriesMembers | ml_models/vision/monitor_manager.py:240-244 | an entry is in the concatenation iff it is an in-window history entry of one of the listed cameras |
| MonitorManager.ConcatHistoriesSplit | ml_models/vision/monitor_manager.py:240-244 | the concatenation distributes over splitting the camera list, and one camera contributes exactly its filtered history, repeats included |
| MonitorManager.GetAlertsHistory | ml_models/vision/monitor_manager.py:231-248 | a selected unknown camera fails; a selected known camera gives its filtered history; otherwise a sorted, stable permutation of the concatenated filtered histories |
| MonitorManager.MergedIsTheStableSort | ml_models/vision/monitor_manager.py:240-248 | the merged query returns the only sorted sequence that keeps the concatenation order within each timestamp |
| Summary.AllDetections | backend/api/routes.py:154-155 | a detection is visited iff it belongs to one of the alerts |
| Summary.AllDetectionsConcat | backend/api/routes.py:154-155 | the pass distributes over concatenation of the alerts, and one alert contributes exactly its detections, repeats included |
| Summary.SnocFacts | backend/api/routes.py:153-157 | one more detection raises the count of its own class by one, leaves every other count unchanged, and adds its class to the set of occurring classes |
| Summary.Tally | backend/api/routes.py:153-157 | keys are exactly the occurring classes and each maps to the number of detections of that class |
| Summary.TallySum | backend/api/routes.py:153-157 | the per-class counts sum to the total number of detections |
| Routes.GetManager | backend/api/routes.py:22-29 | no manager yields the 503 error, otherwise the manager |
| Routes.StartSystem | backend/api/routes.py:37-49 | refuses with AlreadyRunning (400) while a manager runs, leaving it in place; otherwise installs a fresh running manager at threshold 0.8 whose cameras are exactly those that started |
| Routes.StopSystem | backend/api/routes.py:58-62 | the manager ends stopped; without a manager the 503 error |
| Routes.GetSystemStatus | backend/api/routes.py:72-77 | reports the running flag, the registered camera ids in registry order and the pending-alert queue size |
| Routes.GetCameraStatus | backend/api/routes.py:86-92 | no manager gives 503 and an unknown camera id the 404 NotFound error; a known one returns the manager's status snapshot |
| Routes.GetAlerts | backend/api/routes.py:132-142 | no manager gives 503 and an unknown selected camera the 404 NotFound error; otherwise the manager's alert history for the range |
| Routes.GetAlertsSummary | backend/api/routes.py:150-163 | total_alerts is the number of returned results; alert_types counts detections per class over them, keys exactly the occurring classes, counts summing to the detection total |
| Routes.UpdateAlertConfig | backend/api/routes.py:171 | the threshold becomes exactly the supplied value and nothing else changes |
| Routes.UpdatedThresholdRoutes | backend/api/routes.py:171 | the next routing decision after an update uses exactly the supplied threshold |
| Routes.AlertQueueStaysEmpty | backend/api/routes.py:72-76 | along any sequence of handler calls and camera loop iterations the alert queue stays empty and total_alerts is 0 |

## Left out

- Threads, locks, `join`, daemon flags and sleeps: each loop iteration is one atomic step, and interleavings are sequences of steps.
- OpenCV: opening the capture is the `Option<StreamProps>` parameter. The `int()` truncation of the float properties is assumed to happen inside it. Frames are opaque values, and `draw_detection_results` is not modelled.
- The neural-network code (anomaly_detector.py, fire_hazard_detector.py, base_model.py, trainer.py, data_utils.py): `predict` is an opaque function parameter, and heatmaps are not carried.
- In `_handle_alert`, the JSON alert file, logging and notification side effects are not modelled; only the routing decision is kept.
- `_alert_processing_thread` is not modelled as a step: no code enqueues alerts, so it never has work.
- The FastAPI and WebSocket transport, including `stream_camera` (JPEG encoding, a polling loop over `get_latest_frame`), CORS, app startup in backend/main.py, and the pydantic schemas (used only as record shapes).
- Routes.StartSystem: the 500 error raised when manager construction fails (directory creation, model loading) is not modelled, because that failure is I/O.
- routes.py:155 reads `alert.detections` as an attribute of what are plain dicts. The model treats results as records and does not reproduce this mismatch.
- ISO timestamp formatting and parsing: timestamps are `nat`.
- The `max_history_size` constructor argument of the manager is stored but never read, so it is not part of the state.
- The constants in ml_models/vision/config.py.
- AlertRouting.ShouldTriggerImmediate: a result dict without a `detections` key has no counterpart, because records always carry the field; the empty list covers that case.
- MonitorManager.StopMonitoring: exceptions from individual `stop` calls are not modelled. `stop` clears `is_running` before anything that can raise, so its modelled effect is the same whether or not it raises.
- Response-model validation (`response_model=CameraStatus` at backend/api/routes.py:80, `List[DetectionResult]` at backend/api/routes.py:125, the schemas in backend/api/models.py): FastAPI's coercion and validation of the returned dicts against the pydantic schemas is framework behaviour, so the routes return the records unchanged.
