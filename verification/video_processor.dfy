/**
 One camera's processor. Each iteration of the capture loop and of the detection loop
 is one atomic step over an immutable processor state. The detection loop reads two
 clocks, both explicit arguments: `now` is the throttle clock read at the top of the
 iteration, and `at` is the wall-clock time read after the prediction returns, which
 stamps the result. The model's `predict` is an opaque function whose `None` stands
 for a raised exception.
 */
module VideoProcessor {
  import opened Common
  import opened Queues
  import opened Detections

  /** The detection history never grows beyond this many entries. */
  const MaxHistory: nat := 1000

  /** The properties read from a freshly opened capture: width, height and frame rate. */
  datatype StreamProps = StreamProps(width: int, height: int, fps: int)

  datatype Processor = Processor(
    source: string,
    bufferSize: int,            // maxsize of both the frame buffer and the result buffer
    detectionInterval: int,     // minimum time between two successful detections
    isRunning: bool,
    capturing: bool,            // the capture loop has not yet stopped on a failed read
    frameWidth: Option<int>,
    frameHeight: Option<int>,
    fps: Option<int>,
    frameBuffer: seq<Frame>,
    resultBuffer: seq<(Frame, DetectionResult)>,
    latestDetection: Option<DetectionResult>,
    history: seq<DetectionResult>,
    lastDetectionTime: nat)     // the detection loop's local clock mark, reset by every start

  datatype StartError = SourceUnavailable(source: string)

  /** What one iteration of the detection loop did. */
  datatype Outcome = Stopped | Throttled | NoFrame | PredictFailed | Detected(result: DetectionResult)

  datatype Tick = Tick(proc: Processor, outcome: Outcome)

  /**
   The processor invariant: both buffers within their bound, the history within its
   cap, `latestDetection` the newest history entry, and no capture without running.
   */
  predicate Inv(p: Processor) {
    && (0 < p.bufferSize ==> |p.frameBuffer| <= p.bufferSize && |p.resultBuffer| <= p.bufferSize)
    && |p.history| <= MaxHistory
    && (p.history == [] <==> p.latestDetection.None?)
    && (p.history != [] ==> p.latestDetection == Some(p.history[|p.history| - 1]))
    && (p.capturing ==> p.isRunning)
  }

  /** A processor as constructed: stopped, with nothing captured or detected yet. */
  function New(source: string, bufferSize: int, detectionInterval: int): (p: Processor)
    ensures Inv(p) && !p.isRunning
    ensures p.source == source && p.bufferSize == bufferSize && p.detectionInterval == detectionInterval
    ensures p.frameWidth.None? && p.frameHeight.None? && p.fps.None? && !p.capturing && p.lastDetectionTime == 0
    ensures p.frameBuffer == [] && p.resultBuffer == [] && p.history == []
  {
    Processor(source, bufferSize, detectionInterval, false, false, None, None, None, [], [], None, [], 0)
  }

  /**
   `start`: a no-op when already running; raises when the source cannot be opened,
   leaving the processor stopped; otherwise records the stream properties and runs.
   `open` is the outcome of opening `p.source`.
   */
  function Start(p: Processor, open: Option<StreamProps>): (r: Result<Processor, StartError>)
    ensures p.isRunning ==> r == Ok(p)
    ensures !p.isRunning && open.None? ==> r == Err(SourceUnavailable(p.source))
    ensures !p.isRunning && open.Some? ==> r.Ok? && r.value == p.(
      isRunning := true, capturing := true,
      frameWidth := Some(open.value.width), frameHeight := Some(open.value.height), fps := Some(open.value.fps),
      lastDetectionTime := 0)
    ensures r.Ok? ==> r.value.isRunning
    ensures Inv(p) && r.Ok? ==> Inv(r.value)
  {
    if p.isRunning then Ok(p)
    else match open
      case None => Err(SourceUnavailable(p.source))
      case Some(props) =>
        Ok(p.(isRunning := true, capturing := true,
              frameWidth := Some(props.width), frameHeight := Some(props.height), fps := Some(props.fps),
              lastDetectionTime := 0))
  }

  /**
   `stop`: always clears the running flag, which ends both loops. The flag is the
   first thing `stop` changes, so an exception raised later while joining or releasing
   cannot leave the processor running.
   */
  function Stop(p: Processor): (r: Processor)
    ensures !r.isRunning && !r.capturing
    ensures r.(isRunning := p.isRunning, capturing := p.capturing) == p
    ensures Inv(p) ==> Inv(r)
  {
    p.(isRunning := false, capturing := false)
  }

  /**
   One iteration of the capture loop. `read` is what the capture returned: `None`
   ends the loop, a frame is admitted drop-oldest into the frame buffer.
   */
  function CaptureStep(p: Processor, read: Option<Frame>): (r: Processor)
    ensures !(p.isRunning && p.capturing) ==> r == p
    ensures p.isRunning && p.capturing && read.None? ==> r == p.(capturing := false)
    ensures p.isRunning && p.capturing && read.Some? ==>
      r == p.(frameBuffer := PushDropOldest(p.frameBuffer, p.bufferSize, read.value))
    ensures Inv(p) ==> Inv(r)
  {
    if !(p.isRunning && p.capturing) then p
    else match read
      case None => p.(capturing := false)
      case Some(f) => p.(frameBuffer := PushDropOldest(p.frameBuffer, p.bufferSize, f))
  }

  /** Appends to the history, then trims the single oldest entry once there are more than `MaxHistory`. */
  function AppendHistory(h: seq<DetectionResult>, x: DetectionResult): (r: seq<DetectionResult>)
    ensures |r| == if |h| >= MaxHistory then |h| else |h| + 1
    ensures r == (h + [x])[|h| + 1 - |r|..]
    ensures |h| <= MaxHistory ==> |r| <= MaxHistory
  {
    var h' := h + [x];
    if |h'| > MaxHistory then h'[1..] else h'
  }

  /** On a history within its cap, appending is drop-oldest admission with capacity `MaxHistory`. */
  lemma AppendHistoryIsDropOldest(h: seq<DetectionResult>, x: DetectionResult)
    requires |h| <= MaxHistory
    ensures AppendHistory(h, x) == PushDropOldest(h, MaxHistory, x)
  {
    assert |AppendHistory(h, x)| == |PushDropOldest(h, MaxHistory, x)|;
  }

  /**
   One iteration of the detection loop whose throttle clock reads `now` and whose
   prediction returns at time `at`. Nothing changes while stopped, while throttled, or
   when the frame buffer is empty. Otherwise the oldest frame is consumed; a failed
   prediction changes nothing else, and a successful one is stamped with `at`, becomes
   the latest detection, is appended to the capped history, is offered to the result
   buffer (dropped when full) and moves the throttle mark to `now`.
   */
  function DetectionStep(p: Processor, now: nat, at: nat, predict: Frame -> Option<Prediction>): (t: Tick)
    ensures t.outcome.Stopped? <==> !p.isRunning
    ensures t.outcome.Throttled? <==> p.isRunning && now - p.lastDetectionTime < p.detectionInterval
    ensures t.outcome.NoFrame? <==>
      p.isRunning && now - p.lastDetectionTime >= p.detectionInterval && p.frameBuffer == []
    ensures t.outcome.Stopped? || t.outcome.Throttled? || t.outcome.NoFrame? ==> t.proc == p
    ensures t.outcome.PredictFailed? ==>
      p.frameBuffer != [] && predict(p.frameBuffer[0]).None? && t.proc == p.(frameBuffer := p.frameBuffer[1..])
    ensures t.outcome.Detected? ==>
      && p.frameBuffer != [] && predict(p.frameBuffer[0]).Some?
      && var f, r := p.frameBuffer[0], t.outcome.result;
      && r == Stamp(predict(f).value, at, FrameInfo(p.frameWidth, p.frameHeight))
      && t.proc == p.(
           frameBuffer := p.frameBuffer[1..],
           latestDetection := Some(r),
           history := AppendHistory(p.history, r),
           resultBuffer := PushIfRoom(p.resultBuffer, p.bufferSize, (f, r)),
           lastDetectionTime := now)
    ensures Inv(p) ==> Inv(t.proc)
  {
    if !p.isRunning then Tick(p, Stopped)
    else if now - p.lastDetectionTime < p.detectionInterval then Tick(p, Throttled)
    else match TryPop(p.frameBuffer)
      case None => Tick(p, NoFrame)
      case Some((f, rest)) =>
        match predict(f)
        case None => Tick(p.(frameBuffer := rest), PredictFailed)
        case Some(pred) =>
          var r := Stamp(pred, at, FrameInfo(p.frameWidth, p.frameHeight));
          Tick(p.(frameBuffer := rest,
                  latestDetection := Some(r),
                  history := AppendHistory(p.history, r),
                  resultBuffer := PushIfRoom(p.resultBuffer, p.bufferSize, (f, r)),
                  lastDetectionTime := now),
               Detected(r))
  }

  /**
   `get_latest_frame`: pops the oldest (frame, result) pair of the result buffer, or
   returns nothing, and changes nothing, when it is empty.
   */
  function LatestFrame(p: Processor): (r: (Option<(Frame, DetectionResult)>, Processor))
    ensures r.0.None? <==> p.resultBuffer == []
    ensures r.0.None? ==> r.1 == p
    ensures r.0.Some? ==> [r.0.value] + r.1.resultBuffer == p.resultBuffer
    ensures r.1 == p.(resultBuffer := r.1.resultBuffer)
    ensures Inv(p) ==> Inv(r.1)
  {
    match TryPop(p.resultBuffer)
    case None => (None, p)
    case Some((entry, rest)) => (Some(entry), p.(resultBuffer := rest))
  }

  /**
   `get_detection_history`: with both bounds absent the whole history; otherwise
   exactly the entries inside the inclusive window, in history order.
   */
  function GetDetectionHistory(p: Processor, start: Option<nat>, end: Option<nat>): (r: seq<DetectionResult>)
    ensures forall x :: x in r <==> x in p.history && InWindow(x.timestamp, start, end)
    ensures r == FilterWindow(p.history, start, end)
    ensures start.None? && end.None? ==> r == p.history
  {
    if start.None? && end.None? then
      FilterWindowKeepsAll(p.history, start, end);
      p.history
    else
      FilterWindow(p.history, start, end)
  }

  /**
   An event seen by a running processor between two lifecycle calls: a capture
   iteration, or a detection iteration with its throttle time and its stamp time.
   */
  datatype Event = Capture(read: Option<Frame>) | DetectAt(now: nat, at: nat)

  /**
   Applies the loop iterations in order. Returns the final state, the results detected,
   in order, and for each of them the throttle time of the iteration that produced it.
   */
  function Run(p: Processor, predict: Frame -> Option<Prediction>, evs: seq<Event>)
    : (Processor, seq<DetectionResult>, seq<nat>)
    decreases |evs|
  {
    if evs == [] then (p, [], [])
    else match evs[0]
      case Capture(read) => Run(CaptureStep(p, read), predict, evs[1..])
      case DetectAt(now, at) =>
        var t := DetectionStep(p, now, at, predict);
        var (q, rs, ms) := Run(t.proc, predict, evs[1..]);
        if t.outcome.Detected? then (q, [t.outcome.result] + rs, [now] + ms) else (q, rs, ms)
  }

  /**
   The throttle, stated on the throttle clock: the throttle times of successive
   successful detections are at least `detectionInterval` apart (the first, after the
   mark the run started from), and the mark ends at the throttle time of the last one.
   */
  lemma {:induction false} DetectionsSpaced(p: Processor, predict: Frame -> Option<Prediction>, evs: seq<Event>)
    ensures var (q, rs, ms) := Run(p, predict, evs);
      && |ms| == |rs|
      && q.detectionInterval == p.detectionInterval
      && (ms == [] ==> q.lastDetectionTime == p.lastDetectionTime)
      && (ms != [] ==> q.lastDetectionTime == ms[|ms| - 1])
      && (ms != [] ==> ms[0] - p.lastDetectionTime >= p.detectionInterval)
      && forall i :: 0 < i < |ms| ==> ms[i] - ms[i - 1] >= p.detectionInterval
    decreases |evs|
  {
    if evs != [] {
      match evs[0]
      case Capture(read) =>
        DetectionsSpaced(CaptureStep(p, read), predict, evs[1..]);
      case DetectAt(now, at) =>
        var t := DetectionStep(p, now, at, predict);
        DetectionsSpaced(t.proc, predict, evs[1..]);
        var (q, rs, ms) := Run(t.proc, predict, evs[1..]);
        if t.outcome.Detected? {
          var ms' := [now] + ms;
          forall i | 0 < i < |ms'| ensures ms'[i] - ms'[i - 1] >= p.detectionInterval {
            if i > 1 {
              assert ms'[i] == ms[i - 1] && ms'[i - 1] == ms[i - 2];
            }
          }
        }
    }
  }

  /** Every detection iteration's prediction returns no earlier than its throttle clock reading. */
  predicate ClocksOrdered(evs: seq<Event>) {
    forall i :: 0 <= i < |evs| && evs[i].DetectAt? ==> evs[i].now <= evs[i].at
  }

  /**
   What the throttle does promise of the result timestamps: each result is stamped no
   earlier than its own throttle time, and so at least `detectionInterval` after the
   throttle time of the previous one. Two stamps can still be closer together than the
   interval, because a prediction can take any time.
   */
  lemma {:induction false} StampsAfterMarks(p: Processor, predict: Frame -> Option<Prediction>, evs: seq<Event>)
    requires ClocksOrdered(evs)
    ensures var (q, rs, ms) := Run(p, predict, evs);
      && |ms| == |rs|
      && (forall i :: 0 <= i < |rs| ==> rs[i].timestamp >= ms[i])
      && forall i :: 0 < i < |rs| ==> rs[i].timestamp - ms[i - 1] >= p.detectionInterval
    decreases |evs|
  {
    DetectionsSpaced(p, predict, evs);
    if evs != [] {
      assert ClocksOrdered(evs[1..]) by {
        forall i | 0 <= i < |evs[1..]| && evs[1..][i].DetectAt? ensures evs[1..][i].now <= evs[1..][i].at {
          assert evs[1..][i] == evs[i + 1];
        }
      }
      match evs[0]
      case Capture(read) =>
        StampsAfterMarks(CaptureStep(p, read), predict, evs[1..]);
      case DetectAt(now, at) =>
        var t := DetectionStep(p, now, at, predict);
        StampsAfterMarks(t.proc, predict, evs[1..]);
        DetectionsSpaced(t.proc, predict, evs[1..]);
        var (q, rs, ms) := Run(t.proc, predict, evs[1..]);
        if t.outcome.Detected? {
          assert evs[0].now <= evs[0].at;
          StampsCons(t.outcome.result, now, rs, ms, p.detectionInterval);
        }
    }
  }

  /** Putting one more detection, stamped no earlier than its throttle time, in front of a run. */
  lemma StampsCons(r: DetectionResult, now: nat, rs: seq<DetectionResult>, ms: seq<nat>, interval: int)
    requires |rs| == |ms| && r.timestamp >= now
    requires ms != [] ==> ms[0] - now >= interval
    requires forall i :: 0 <= i < |rs| ==> rs[i].timestamp >= ms[i]
    requires forall i :: 0 < i < |rs| ==> rs[i].timestamp - ms[i - 1] >= interval
    ensures var rs', ms' := [r] + rs, [now] + ms;
      && (forall i :: 0 <= i < |rs'| ==> rs'[i].timestamp >= ms'[i])
      && forall i :: 0 < i < |rs'| ==> rs'[i].timestamp - ms'[i - 1] >= interval
  {
    var rs', ms' := [r] + rs, [now] + ms;
    forall i | 0 <= i < |rs'| ensures rs'[i].timestamp >= ms'[i] {
      if i > 0 {
        assert rs'[i] == rs[i - 1] && ms'[i] == ms[i - 1];
      }
    }
    forall i | 0 < i < |rs'| ensures rs'[i].timestamp - ms'[i - 1] >= interval {
      assert rs'[i] == rs[i - 1] && ms'[i] == ms[i - 1];
      if i > 1 {
        assert ms'[i - 1] == ms[i - 2];
      }
    }
  }

  /** A detection iteration that detects contributes its result and its throttle time to the run. */
  lemma RunDetected(p: Processor, predict: Frame -> Option<Prediction>, now: nat, at: nat, rest: seq<Event>)
    requires DetectionStep(p, now, at, predict).outcome.Detected?
    ensures var t := DetectionStep(p, now, at, predict);
      var run := Run(t.proc, predict, rest);
      Run(p, predict, [DetectAt(now, at)] + rest) == (run.0, [t.outcome.result] + run.1, [now] + run.2)
  {
    var evs := [DetectAt(now, at)] + rest;
    assert evs[0] == DetectAt(now, at) && evs[1..] == rest;
  }

  /** Prepending one element to a short sequence literal. */
  lemma Pair<T>(x: T, ys: seq<T>)
    ensures |ys| == 0 ==> [x] + ys == [x]
    ensures |ys| == 1 ==> [x] + ys == [x, ys[0]]
  {
  }

  /** A model that succeeds on every frame and finds nothing. */
  function EmptyPrediction(f: Frame): Option<Prediction> {
    Some(Prediction([], map[]))
  }

  /**
   Stamps closer than the interval: with an interval of 500 ms, an iteration passing
   the throttle at 100000 whose prediction takes 400 ms, followed by one passing at
   100500 whose prediction takes 10 ms, stamps two results 110 ms apart.
   */
  lemma StampsCanBeCloser(p: Processor)
    requires p.isRunning && p.detectionInterval == 500 && p.lastDetectionTime == 0
    requires p.frameBuffer == [Frame(0), Frame(1)] && p.frameWidth.None? && p.frameHeight.None?
    ensures var run := Run(p, EmptyPrediction, [DetectAt(100000, 100400), DetectAt(100500, 100510)]);
      && run.2 == [100000, 100500]
      && |run.1| == 2 && run.1[1].timestamp - run.1[0].timestamp == 110 < p.detectionInterval
  {
    var r1 := DetectionResult([], map[], 100400, FrameInfo(None, None));
    var r2 := DetectionResult([], map[], 100510, FrameInfo(None, None));
    var t := DetectionStep(p, 100000, 100400, EmptyPrediction);
    assert t.outcome == Detected(r1);
    var t' := DetectionStep(t.proc, 100500, 100510, EmptyPrediction);
    assert t'.outcome == Detected(r2);
    var a, b := DetectAt(100000, 100400), DetectAt(100500, 100510);
    assert Run(t'.proc, EmptyPrediction, []) == (t'.proc, [], []);
    RunDetected(t.proc, EmptyPrediction, 100500, 100510, []);
    Pair(b, []);
    Pair(r2, []);
    Pair(100500, []);
    var tail := Run(t.proc, EmptyPrediction, [b]);
    assert tail == (t'.proc, [r2], [100500]);
    RunDetected(p, EmptyPrediction, 100000, 100400, [b]);
    Pair(a, [b]);
    Pair(r1, [r2]);
    Pair(100000, [100500]);
  }

  /**
   The history cap: a run that starts within the cap ends holding exactly the
   `MaxHistory` newest of the old entries followed by the run's detections.
   */
  lemma {:induction false} HistoryKeepsNewest(p: Processor, predict: Frame -> Option<Prediction>, evs: seq<Event>)
    requires |p.history| <= MaxHistory
    ensures var (q, rs, _) := Run(p, predict, evs);
      q.history == Newest(p.history + rs, MaxHistory)
    decreases |evs|
  {
    if evs == [] {
      assert p.history + [] == p.history;
    } else {
      match evs[0]
      case Capture(read) =>
        HistoryKeepsNewest(CaptureStep(p, read), predict, evs[1..]);
      case DetectAt(now, at) =>
        var t := DetectionStep(p, now, at, predict);
        HistoryKeepsNewest(t.proc, predict, evs[1..]);
        var (q, rs, _) := Run(t.proc, predict, evs[1..]);
        if t.outcome.Detected? {
          var r := t.outcome.result;
          AppendHistoryIsDropOldest(p.history, r);
          PushThenNewest(p.history, MaxHistory, r, rs);
        } else {
          assert t.proc.history == p.history;
        }
    }
  }

  /** The frame events of a run in which every read succeeds. */
  function Captures(frames: seq<Frame>): (evs: seq<Event>)
    ensures |evs| == |frames|
    ensures forall i :: 0 <= i < |frames| ==> evs[i] == Capture(Some(frames[i]))
  {
    seq(|frames|, i requires 0 <= i < |frames| => Capture(Some(frames[i])))
  }

  /**
   The frame buffer of a running processor fed `frames` with no detection in between
   holds the `bufferSize` newest frames, in capture order.
   */
  lemma {:induction false} CaptureKeepsNewest(p: Processor, predict: Frame -> Option<Prediction>, frames: seq<Frame>)
    requires p.isRunning && p.capturing
    requires 0 < p.bufferSize && |p.frameBuffer| <= p.bufferSize
    ensures Run(p, predict, Captures(frames)).0.frameBuffer == Newest(p.frameBuffer + frames, p.bufferSize)
    decreases |frames|
  {
    if frames == [] {
      assert p.frameBuffer + frames == p.frameBuffer;
    } else {
      var evs := Captures(frames);
      var p' := CaptureStep(p, Some(frames[0]));
      assert evs[1..] == Captures(frames[1..]);
      CaptureKeepsNewest(p', predict, frames[1..]);
      PushDropOldestIsNewest(p.frameBuffer, p.bufferSize, frames[0]);
      NewestStep(p.frameBuffer, frames, p.bufferSize);
    }
  }
}
