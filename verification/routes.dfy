/**
 The route handlers over the module-level manager global: the start guard, stop, the
 system and camera status projections, the alert history and summary queries, and
 the threshold update, each with the HTTP error it raises.
 */
module Routes {
  import opened Common
  import opened Dict
  import opened Detections
  import VP = VideoProcessor
  import MM = MonitorManager
  import AlertRouting
  import Summary

  /** The HTTP errors raised by the handlers. */
  datatype ApiError = NotInitialized | AlreadyRunning | NotFound(cameraId: string)

  /** The status code each error is raised with. */
  function StatusCode(e: ApiError): nat {
    match e
    case NotInitialized => 503
    case AlreadyRunning => 400
    case NotFound(_) => 404
  }

  /** The `monitor_manager` global: absent until the first successful start request. */
  type Global = Option<MM.Manager>

  predicate ValidGlobal(g: Global) {
    g.Some? ==> MM.Valid(g.value)
  }

  /** A handler's answer together with the global it leaves behind. */
  datatype Response<T> = Response(result: Result<T, ApiError>, global: Global)

  datatype TimeRange = TimeRange(start: Option<nat>, end: Option<nat>)

  datatype SystemStatus = SystemStatus(isRunning: bool, activeCameras: seq<string>, totalAlerts: nat, startTime: nat)

  datatype AlertSummary = AlertSummary(totalAlerts: nat, alertTypes: Dict<string, nat>, timeRange: TimeRange)

  /** `get_monitor_manager`: 503 until a manager exists. */
  function GetManager(g: Global): (r: Result<MM.Manager, ApiError>)
    ensures g.None? <==> r == Err(NotInitialized)
    ensures g.Some? ==> r == Ok(g.value)
    ensures r.Err? ==> StatusCode(r.error) == 503
  {
    match g
    case None => Err(NotInitialized)
    case Some(m) => Ok(m)
  }

  /**
   `start_system`: refuses while an existing manager runs, leaving it in place;
   otherwise replaces the global with a fresh manager for `configs` at the default
   threshold and starts it, `opens[i]` being the outcome of opening camera `i`.
   */
  function StartSystem(g: Global, configs: seq<MM.CameraConfig>, opens: seq<Option<VP.StreamProps>>): (r: Response<()>)
    requires |opens| == |configs|
    ensures g.Some? && g.value.isRunning ==> r == Response(Err(AlreadyRunning), g)
    ensures r.result.Err? ==> StatusCode(r.result.error) == 400
    ensures !(g.Some? && g.value.isRunning) ==>
      && r.result.Ok? && r.global.Some?
      && var m := r.global.value;
      && m.isRunning && m.configs == configs && m.alertThreshold == MM.DefaultThreshold && m.alertsQueue == []
      && m.processors.values.Keys == MM.Started(configs, opens)
      && forall i: nat :: MM.LastStart(configs, opens, i) ==>
           m.processors.values[configs[i].id] == MM.Launch(configs[i], opens[i]).value
    ensures ValidGlobal(g) ==> ValidGlobal(r.global)
  {
    if g.Some? && g.value.isRunning then Response(Err(AlreadyRunning), g)
    else
      var m := MM.StartMonitoring(MM.NewManager(configs, MM.DefaultThreshold), opens);
      Response(Ok(()), Some(m))
  }

  /** `stop_system`: stops the manager; stopping a stopped manager succeeds and changes nothing. */
  function StopSystem(g: Global): (r: Response<()>)
    ensures g.None? ==> r == Response(Err(NotInitialized), g)
    ensures g.Some? ==> r.result.Ok? && r.global == Some(MM.StopMonitoring(g.value)) && !r.global.value.isRunning
    ensures r.result.Err? ==> StatusCode(r.result.error) == 503
    ensures ValidGlobal(g) ==> ValidGlobal(r.global)
  {
    match g
    case None => Response(Err(NotInitialized), g)
    case Some(m) => Response(Ok(()), Some(MM.StopMonitoring(m)))
  }

  /**
   `get_system_status`: the running flag, the registered camera ids in registry order,
   and the number of pending alerts. `now` stands for the reported start time.
   */
  function GetSystemStatus(g: Global, now: nat): (r: Result<SystemStatus, ApiError>)
    requires ValidGlobal(g)
    ensures g.None? ==> r == Err(NotInitialized)
    ensures g.Some? ==>
      && r.Ok?
      && r.value.isRunning == g.value.isRunning
      && r.value.activeCameras == g.value.processors.keys
      && (forall id :: id in r.value.activeCameras <==> id in g.value.processors.values)
      && r.value.totalAlerts == |g.value.alertsQueue|
  {
    match g
    case None => Err(NotInitialized)
    case Some(m) => Ok(SystemStatus(m.isRunning, m.processors.keys, |m.alertsQueue|, now))
  }

  /** `get_camera_status` route: an unknown id becomes 404; a known one pops one result-buffer entry. */
  function GetCameraStatus(g: Global, id: string): (r: Response<MM.CameraStatus>)
    ensures g.None? ==> r == Response(Err(NotInitialized), g)
    ensures g.Some? && id !in g.value.processors.values ==> r == Response(Err(NotFound(id)), g)
    ensures r.result.Err? ==> StatusCode(r.result.error) == if g.None? then 503 else 404
    ensures g.Some? && id in g.value.processors.values ==>
      && MM.GetCameraStatus(g.value, id).Ok?
      && r == Response(Ok(MM.GetCameraStatus(g.value, id).value.0), Some(MM.GetCameraStatus(g.value, id).value.1))
    ensures ValidGlobal(g) ==> ValidGlobal(r.global)
  {
    match g
    case None => Response(Err(NotInitialized), g)
    case Some(m) =>
      match MM.GetCameraStatus(m, id)
      case Err(_) => Response(Err(NotFound(id)), g)
      case Ok((status, m')) => Response(Ok(status), Some(m'))
  }

  /** `get_alerts`: the alert history for the range; an unknown selected camera becomes 404. */
  function GetAlerts(g: Global, range: TimeRange, cameraId: Option<string>): (r: Result<seq<DetectionResult>, ApiError>)
    requires ValidGlobal(g)
    ensures g.None? ==> r == Err(NotInitialized)
    ensures g.Some? && MM.SelectsCamera(cameraId) && cameraId.value !in g.value.processors.values ==>
      r == Err(NotFound(cameraId.value))
    ensures r.Err? ==> StatusCode(r.error) == if g.None? then 503 else 404
    ensures g.Some? && !(MM.SelectsCamera(cameraId) && cameraId.value !in g.value.processors.values) ==>
      && MM.GetAlertsHistory(g.value, range.start, range.end, cameraId).Ok?
      && r == Ok(MM.GetAlertsHistory(g.value, range.start, range.end, cameraId).value)
  {
    match g
    case None => Err(NotInitialized)
    case Some(m) =>
      match MM.GetAlertsHistory(m, range.start, range.end, cameraId)
      case Err(e) => Err(NotFound(e.id))
      case Ok(alerts) => Ok(alerts)
  }

  /**
   `get_alerts_summary`: over the merged history of the range, the number of alerts
   and, per class, the number of detections of that class. Exactly the occurring
   classes are keys, and their counts add up to the number of detections.
   */
  function GetAlertsSummary(g: Global, range: TimeRange): (r: Result<AlertSummary, ApiError>)
    requires ValidGlobal(g)
    ensures g.None? ==> r == Err(NotInitialized)
    ensures g.Some? ==>
      && r.Ok? && GetAlerts(g, range, None).Ok?
      && var alerts, s := GetAlerts(g, range, None).value, r.value;
      && var ds := Summary.AllDetections(alerts);
      && s.totalAlerts == |alerts|
      && s.timeRange == range
      && s.alertTypes.Valid()
      && s.alertTypes.values.Keys == Summary.Classes(ds)
      && (forall c :: c in s.alertTypes.values ==> s.alertTypes.values[c] == Summary.CountClass(ds, c))
      && Summary.SumCounts(s.alertTypes.keys, s.alertTypes.values) == |ds|
  {
    match GetAlerts(g, range, None)
    case Err(e) => Err(e)
    case Ok(alerts) =>
      var ds := Summary.AllDetections(alerts);
      Summary.TallySum(ds);
      Ok(AlertSummary(|alerts|, Summary.Tally(ds), range))
  }

  /** `update_alert_config`: the threshold becomes exactly the supplied value; nothing else changes. */
  function UpdateAlertConfig(g: Global, threshold: real): (r: Response<()>)
    ensures g.None? ==> r == Response(Err(NotInitialized), g)
    ensures g.Some? ==> r.result.Ok? && r.global == Some(g.value.(alertThreshold := threshold))
    ensures ValidGlobal(g) ==> ValidGlobal(r.global)
  {
    match g
    case None => Response(Err(NotInitialized), g)
    case Some(m) => Response(Ok(()), Some(m.(alertThreshold := threshold)))
  }

  /** The next routing decision after an update uses exactly the supplied threshold. */
  lemma UpdatedThresholdRoutes(m: MM.Manager, threshold: real, alert: DetectionResult)
    ensures var g := UpdateAlertConfig(Some(m), threshold).global;
      MM.RouteAlert(g.value, alert) == AlertRouting.Immediate <==>
        exists i :: 0 <= i < |alert.detections| && AlertRouting.IsDangerous(alert.detections[i], threshold)
  {
  }

  /**
   Everything that can happen to the global: a handler call, or one loop iteration of
   a registered camera's capture or detection thread.
   */
  datatype Call =
    | StartCall(configs: seq<MM.CameraConfig>, opens: seq<Option<VP.StreamProps>>)
    | StopCall
    | CameraStatusCall(id: string)
    | UpdateConfigCall(threshold: real)
    | CameraTick(id: string, ev: VP.Event, predict: Detections.Frame -> Option<Prediction>)

  predicate WellFormed(c: Call) {
    c.StartCall? ==> |c.opens| == |c.configs|
  }

  /** The global after one call; queries that do not change state are left out. */
  function Serve(g: Global, c: Call): (r: Global)
    requires WellFormed(c)
    ensures ValidGlobal(g) ==> ValidGlobal(r)
  {
    match c
    case StartCall(configs, opens) => StartSystem(g, configs, opens).global
    case StopCall => StopSystem(g).global
    case CameraStatusCall(id) => GetCameraStatus(g, id).global
    case UpdateConfigCall(threshold) => UpdateAlertConfig(g, threshold).global
    case CameraTick(id, ev, predict) =>
      if g.Some? && id in g.value.processors.values then
        var m := g.value;
        var p' := VP.Run(m.processors.values[id], predict, [ev]).0;
        assert VP.Inv(m.processors.values[id]) ==> VP.Inv(p') by {
          if VP.Inv(m.processors.values[id]) {
            RunOneKeepsInv(m.processors.values[id], predict, ev);
          }
        }
        Some(m.(processors := Dict(m.processors.keys, m.processors.values[id := p'])))
      else g
  }

  /** One capture or detection iteration keeps a processor's invariant. */
  lemma RunOneKeepsInv(p: VP.Processor, predict: Detections.Frame -> Option<Prediction>, ev: VP.Event)
    requires VP.Inv(p)
    ensures VP.Inv(VP.Run(p, predict, [ev]).0)
  {
    assert [ev][1..] == [];
  }

  /** The global after a sequence of calls. */
  function ServeAll(g: Global, cs: seq<Call>): Global
    requires forall i :: 0 <= i < |cs| ==> WellFormed(cs[i])
    decreases |cs|
  {
    if cs == [] then g else ServeAll(Serve(g, cs[0]), cs[1..])
  }

  /**
   Nothing ever enqueues onto the alert queue: from the initial empty global, every
   reachable manager is well formed and has no pending alert, so the system status
   always reports zero alerts.
   */
  lemma {:induction false} AlertQueueStaysEmpty(g: Global, cs: seq<Call>, now: nat)
    requires forall i :: 0 <= i < |cs| ==> WellFormed(cs[i])
    requires ValidGlobal(g) && (g.Some? ==> g.value.alertsQueue == [])
    ensures var g' := ServeAll(g, cs);
      && ValidGlobal(g')
      && (g'.Some? ==> g'.value.alertsQueue == [] && GetSystemStatus(g', now).value.totalAlerts == 0)
    decreases |cs|
  {
    if cs != [] {
      var g1 := Serve(g, cs[0]);
      assert g1.Some? ==> g1.value.alertsQueue == [];
      AlertQueueStaysEmpty(g1, cs[1..], now);
    }
  }
}
