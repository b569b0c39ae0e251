/**
 The routing decision of the alert handler: an alert is immediate when one of its
 detections is both confident enough and of a dangerous class, and routine otherwise.
 */
module AlertRouting {
  import opened Common
  import opened Detections

  /** The classes eligible for immediate alerting. */
  const DangerClasses: set<string> := {"smoke", "spark", "overheat", "unauthorized_charging", "cable_damage"}

  /** A detection strictly above the threshold whose class is in the danger set. */
  predicate IsDangerous(d: Detection, threshold: real) {
    d.confidence > threshold && d.className in DangerClasses
  }

  /**
   `_should_trigger_immediate_alert`: scans the detections in order and answers true at
   the first dangerous one; an empty list answers false.
   */
  function ShouldTriggerImmediate(ds: seq<Detection>, threshold: real): (b: bool)
    ensures b <==> exists i :: 0 <= i < |ds| && IsDangerous(ds[i], threshold)
    decreases |ds|
  {
    if ds == [] then false
    else if ds[0].confidence > threshold && ds[0].className in DangerClasses then true
    else
      var b := ShouldTriggerImmediate(ds[1..], threshold);
      assert forall i :: 1 <= i < |ds| ==> ds[i] == ds[1..][i - 1];
      b
  }

  /** The two ways `_handle_alert` reports an alert. */
  datatype Route = Immediate | Routine

  /** `_handle_alert`, routing branch: exactly one route, chosen by the predicate. */
  function HandleAlert(alert: DetectionResult, threshold: real): (r: Route)
    ensures r == Immediate <==> exists i :: 0 <= i < |alert.detections| && IsDangerous(alert.detections[i], threshold)
    ensures r == Routine <==> !ShouldTriggerImmediate(alert.detections, threshold)
  {
    if ShouldTriggerImmediate(alert.detections, threshold) then Immediate else Routine
  }

  /**
   A detection exactly at the threshold, or of a class outside the danger set, never
   makes an alert immediate: an alert made only of such detections is routine.
   */
  lemma NoDangerIsRoutine(alert: DetectionResult, threshold: real)
    requires forall i :: 0 <= i < |alert.detections| ==>
      alert.detections[i].confidence <= threshold || alert.detections[i].className !in DangerClasses
    ensures HandleAlert(alert, threshold) == Routine
  {
  }

  /** Adding detections never turns an immediate alert routine. */
  lemma {:induction false} ImmediateMonotone(ds: seq<Detection>, extra: seq<Detection>, threshold: real)
    requires ShouldTriggerImmediate(ds, threshold)
    ensures ShouldTriggerImmediate(ds + extra, threshold)
  {
    var i :| 0 <= i < |ds| && IsDangerous(ds[i], threshold);
    assert (ds + extra)[i] == ds[i];
  }

  /** A stricter threshold never turns a routine alert immediate. */
  lemma ThresholdMonotone(ds: seq<Detection>, lower: real, higher: real)
    requires lower <= higher
    requires ShouldTriggerImmediate(ds, higher)
    ensures ShouldTriggerImmediate(ds, lower)
  {
  }

  /** The routing examples: spark at 0.81 and 0.79 around threshold 0.8, and `normal` at 0.95. */
  lemma RoutingExamples(threshold: real)
    ensures HandleAlert(DetectionResult([Detection("spark", 0.81)], map[], 0, FrameInfo(None, None)), 0.8) == Immediate
    ensures HandleAlert(DetectionResult([Detection("spark", 0.79)], map[], 0, FrameInfo(None, None)), 0.8) == Routine
    ensures HandleAlert(DetectionResult([Detection("normal", 0.95)], map[], 0, FrameInfo(None, None)), threshold) == Routine
  {
    var spark := DetectionResult([Detection("spark", 0.81)], map[], 0, FrameInfo(None, None));
    assert IsDangerous(spark.detections[0], 0.8);
    assert "normal" !in DangerClasses;
  }
}
