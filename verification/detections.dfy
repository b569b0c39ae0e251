/**
 The records that flow through the pipeline: frames, the model's predictions, and the
 stamped detection results kept in a processor's history, together with the inclusive
 time-window filter that history queries apply.

 Timestamps are abstracted as natural numbers. The window filter compares parsed
 datetimes while the cross-camera merge sorts on the ISO-8601 strings; the model
 assumes the two orders agree, which holds for timestamps written by one
 `isoformat()` call shape.
 */
module Detections {
  import opened Common

  /** A captured image. Its pixels never matter to the pipeline, only its identity. */
  datatype Frame = Frame(captureIndex: nat)

  /** One class the model reports above its own confidence cut-off. */
  datatype Detection = Detection(className: string, confidence: real)

  /** What the model's `predict` returns for one frame. */
  datatype Prediction = Prediction(detections: seq<Detection>, rawProbabilities: map<string, real>)

  /** The stream dimensions copied into every result; absent before the first start. */
  datatype FrameInfo = FrameInfo(width: Option<int>, height: Option<int>)

  /** A prediction stamped with its detection time and frame dimensions. */
  datatype DetectionResult = DetectionResult(
    detections: seq<Detection>,
    rawProbabilities: map<string, real>,
    timestamp: nat,
    frameInfo: FrameInfo)

  /** Adds the `timestamp` and `frame_info` entries to a prediction. */
  function Stamp(p: Prediction, now: nat, info: FrameInfo): DetectionResult {
    DetectionResult(p.detections, p.rawProbabilities, now, info)
  }

  /** Inclusive window `[start, end]`; a missing bound leaves that side open. */
  predicate InWindow(t: nat, start: Option<nat>, end: Option<nat>) {
    && (start.Some? ==> start.value <= t)
    && (end.Some? ==> t <= end.value)
  }

  /** The entries of `h` whose timestamp lies in the window, in their original order. */
  function FilterWindow(h: seq<DetectionResult>, start: Option<nat>, end: Option<nat>): (r: seq<DetectionResult>)
    ensures |r| <= |h|
    ensures forall x :: x in r <==> x in h && InWindow(x.timestamp, start, end)
    decreases |h|
  {
    if h == [] then []
    else (if InWindow(h[0].timestamp, start, end) then [h[0]] else []) + FilterWindow(h[1..], start, end)
  }

  /** Filtering keeps relative order: it distributes over concatenation. */
  lemma {:induction false} FilterWindowConcat(a: seq<DetectionResult>, b: seq<DetectionResult>, start: Option<nat>, end: Option<nat>)
    ensures FilterWindow(a + b, start, end) == FilterWindow(a, start, end) + FilterWindow(b, start, end)
    decreases |a|
  {
    if a == [] {
      assert a + b == b;
    } else {
      assert (a + b)[1..] == a[1..] + b;
      FilterWindowConcat(a[1..], b, start, end);
    }
  }

  /** When every entry lies in the window nothing is removed; in particular an open window keeps all. */
  lemma {:induction false} FilterWindowKeepsAll(h: seq<DetectionResult>, start: Option<nat>, end: Option<nat>)
    requires forall i :: 0 <= i < |h| ==> InWindow(h[i].timestamp, start, end)
    ensures FilterWindow(h, start, end) == h
    decreases |h|
  {
    if h != [] {
      FilterWindowKeepsAll(h[1..], start, end);
      assert [h[0]] + h[1..] == h;
    }
  }
}
