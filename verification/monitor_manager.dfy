/**
 The cross-camera monitor: a registry of per-camera processors keyed by camera id (in
 the insertion order of a Python dict), the pending-alert queue, the running flag and
 the alert threshold, with the lifecycle and query operations over them.
 */
module MonitorManager {
  import opened Common
  import opened Dict
  import opened Detections
  import opened Sorting
  import VP = VideoProcessor
  import AlertRouting

  /** The threshold a manager is constructed with unless told otherwise. */
  const DefaultThreshold: real := 0.8
  /** Every processor the manager creates uses a buffer of 30 ... */
  const CameraBufferSize: int := 30
  /** ... and detects at most every 0.5 s, written in the model's clock unit (milliseconds). */
  const CameraDetectionInterval: int := 500

  datatype CameraConfig = CameraConfig(id: string, source: string)

  datatype Manager = Manager(
    configs: seq<CameraConfig>,
    alertThreshold: real,
    processors: Dict<string, VP.Processor>,
    alertsQueue: seq<DetectionResult>,
    isRunning: bool,
    displaced: seq<VP.Processor>)   // processors a later start under the same id dropped from the registry

  datatype ManagerError = CameraNotFound(id: string)

  /** A point-in-time view of one camera, as `get_camera_status` returns it. */
  datatype CameraStatus = CameraStatus(
    cameraId: string,
    isActive: bool,
    latestDetection: Option<DetectionResult>,
    frameWidth: Option<int>,
    frameHeight: Option<int>,
    fps: Option<int>)

  /** The registry is a well-formed dict and every processor in it keeps its invariant. */
  predicate Valid(m: Manager) {
    && m.processors.Valid()
    && forall id :: id in m.processors.values ==> VP.Inv(m.processors.values[id])
  }

  /** A manager as constructed: stopped, with no processors and no pending alerts. */
  function NewManager(configs: seq<CameraConfig>, threshold: real): (m: Manager)
    ensures Valid(m) && !m.isRunning
    ensures m.processors.keys == [] && m.alertsQueue == [] && m.displaced == []
    ensures m.configs == configs && m.alertThreshold == threshold
  {
    Manager(configs, threshold, Empty(), [], false, [])
  }

  /** The processor created for one config, started with the outcome of opening its source. */
  function Launch(c: CameraConfig, open: Option<VP.StreamProps>): (r: Result<VP.Processor, VP.StartError>)
    ensures r.Ok? <==> open.Some?
    ensures r.Ok? ==> VP.Inv(r.value) && r.value.isRunning && r.value.source == c.source
    ensures r.Ok? ==> r.value.bufferSize == CameraBufferSize && r.value.detectionInterval == CameraDetectionInterval
    ensures r.Ok? ==> r.value.frameBuffer == [] && r.value.resultBuffer == [] && r.value.history == []
  {
    VP.Start(VP.New(c.source, CameraBufferSize, CameraDetectionInterval), open)
  }

  /** The ids of the configs whose source opened, i.e. whose processor started. */
  function Started(configs: seq<CameraConfig>, opens: seq<Option<VP.StreamProps>>): set<string>
    requires |opens| == |configs|
  {
    set i | 0 <= i < |configs| && opens[i].Some? :: configs[i].id
  }

  /** Config `i` started and no later config with the same id did. */
  predicate LastStart(configs: seq<CameraConfig>, opens: seq<Option<VP.StreamProps>>, i: nat)
    requires |opens| == |configs|
  {
    && i < |configs| && opens[i].Some?
    && forall j :: i < j < |configs| && configs[j].id == configs[i].id ==> opens[j].None?
  }

  lemma StartedCons(configs: seq<CameraConfig>, opens: seq<Option<VP.StreamProps>>)
    requires |opens| == |configs| && configs != []
    ensures Started(configs, opens) ==
      (if opens[0].Some? then {configs[0].id} else {}) + Started(configs[1..], opens[1..])
  {
    var rest := Started(configs[1..], opens[1..]);
    forall id | id in Started(configs, opens) ensures id in (if opens[0].Some? then {configs[0].id} else {}) + rest {
      var i :| 0 <= i < |configs| && opens[i].Some? && configs[i].id == id;
      if i > 0 {
        assert configs[1..][i - 1] == configs[i] && opens[1..][i - 1] == opens[i];
      }
    }
    forall id | id in rest ensures id in Started(configs, opens) {
      var i :| 0 <= i < |configs| - 1 && opens[1..][i].Some? && configs[1..][i].id == id;
      assert opens[i + 1].Some? && configs[i + 1].id == id;
    }
  }

  /** A last start after the first config is a last start of the remaining configs. */
  lemma LastStartTail(configs: seq<CameraConfig>, opens: seq<Option<VP.StreamProps>>)
    requires |opens| == |configs| && configs != []
    ensures forall i: nat :: 0 < i && LastStart(configs, opens, i) ==> LastStart(configs[1..], opens[1..], i - 1)
  {
    forall i: nat | 0 < i && LastStart(configs, opens, i) ensures LastStart(configs[1..], opens[1..], i - 1) {
      forall j | i - 1 < j < |configs| - 1 && configs[1..][j].id == configs[1..][i - 1].id
        ensures opens[1..][j].None?
      {
        assert configs[1..][j] == configs[j + 1] && opens[1..][j] == opens[j + 1];
      }
    }
  }

  /** One iteration of that loop: store the started processor, or skip a failed start. */
  function Register(procs: Dict<string, VP.Processor>, c: CameraConfig, open: Option<VP.StreamProps>)
    : (r: Dict<string, VP.Processor>)
    requires procs.Valid()
    ensures r.Valid()
    ensures |procs.keys| <= |r.keys| && r.keys[..|procs.keys|] == procs.keys
    ensures r.keys == procs.keys + if open.Some? && c.id !in procs.values then [c.id] else []
    ensures open.None? ==> r == procs
    ensures open.Some? ==> r.values == procs.values[c.id := Launch(c, open).value]
  {
    match Launch(c, open)
    case Ok(p) => Put(procs, c.id, p)
    case Err(_) => procs
  }

  /**
   The loop of `start_monitoring` over the configs, in order: each processor that starts
   is stored under its camera id (overwriting an earlier one with the same id); one that
   fails is skipped and the loop goes on.
   */
  function StartCameras(procs: Dict<string, VP.Processor>, configs: seq<CameraConfig>, opens: seq<Option<VP.StreamProps>>)
    : (r: Dict<string, VP.Processor>)
    requires |opens| == |configs| && procs.Valid()
    ensures r.Valid()
    ensures r.values.Keys == procs.values.Keys + Started(configs, opens)
    ensures forall id :: id in procs.values && id !in Started(configs, opens) ==> r.values[id] == procs.values[id]
    ensures forall i: nat :: LastStart(configs, opens, i) ==> r.values[configs[i].id] == Launch(configs[i], opens[i]).value
    decreases |configs|
  {
    if configs == [] then procs
    else
      var procs' := Register(procs, configs[0], opens[0]);
      var r := StartCameras(procs', configs[1..], opens[1..]);
      StartCamerasStep(procs, configs, opens, r);
      r
  }

  /**
   The step of `StartCameras`: what the rest of the loop establishes from `Register`'s
   result extends to the whole loop.
   */
  lemma StartCamerasStep(
    procs: Dict<string, VP.Processor>, configs: seq<CameraConfig>, opens: seq<Option<VP.StreamProps>>,
    r: Dict<string, VP.Processor>)
    requires |opens| == |configs| && procs.Valid() && configs != []
    requires var procs', rest, ropens := Register(procs, configs[0], opens[0]), configs[1..], opens[1..];
      && r.values.Keys == procs'.values.Keys + Started(rest, ropens)
      && (forall id :: id in procs'.values && id !in Started(rest, ropens) ==> r.values[id] == procs'.values[id])
      && forall i: nat :: LastStart(rest, ropens, i) ==> r.values[rest[i].id] == Launch(rest[i], ropens[i]).value
    ensures r.values.Keys == procs.values.Keys + Started(configs, opens)
    ensures forall id :: id in procs.values && id !in Started(configs, opens) ==> r.values[id] == procs.values[id]
    ensures forall i: nat :: LastStart(configs, opens, i) ==> r.values[configs[i].id] == Launch(configs[i], opens[i]).value
  {
    StartedCons(configs, opens);
    var procs' := Register(procs, configs[0], opens[0]);
    StepUnchanged(procs, configs, opens, procs', r);
    StepLastStart(configs, opens, procs', r);
  }

  /** The untouched-entries part of that step. */
  lemma StepUnchanged(
    procs: Dict<string, VP.Processor>, configs: seq<CameraConfig>, opens: seq<Option<VP.StreamProps>>,
    procs': Dict<string, VP.Processor>, r: Dict<string, VP.Processor>)
    requires |opens| == |configs| && configs != []
    requires opens[0].None? ==> procs'.values == procs.values
    requires opens[0].Some? ==> procs'.values == procs.values[configs[0].id := Launch(configs[0], opens[0]).value]
    requires Started(configs, opens) ==
      (if opens[0].Some? then {configs[0].id} else {}) + Started(configs[1..], opens[1..])
    requires r.values.Keys == procs'.values.Keys + Started(configs[1..], opens[1..])
    requires forall id :: id in procs'.values && id !in Started(configs[1..], opens[1..]) ==> r.values[id] == procs'.values[id]
    ensures forall id :: id in procs.values && id !in Started(configs, opens) ==> r.values[id] == procs.values[id]
  {
  }

  /** The last-start part of that step. */
  lemma StepLastStart(
    configs: seq<CameraConfig>, opens: seq<Option<VP.StreamProps>>, procs': Dict<string, VP.Processor>,
    r: Dict<string, VP.Processor>)
    requires |opens| == |configs| && configs != []
    requires opens[0].Some? ==> configs[0].id in procs'.values && procs'.values[configs[0].id] == Launch(configs[0], opens[0]).value
    requires var rest, ropens := configs[1..], opens[1..];
      && r.values.Keys == procs'.values.Keys + Started(rest, ropens)
      && (forall id :: id in procs'.values && id !in Started(rest, ropens) ==> r.values[id] == procs'.values[id])
      && forall i: nat :: LastStart(rest, ropens, i) ==> r.values[rest[i].id] == Launch(rest[i], ropens[i]).value
    ensures forall i: nat :: LastStart(configs, opens, i) ==> r.values[configs[i].id] == Launch(configs[i], opens[i]).value
  {
    LastStartTail(configs, opens);
    if LastStart(configs, opens, 0) {
      LastStartFirst(configs, opens);
    }
    forall i: nat | 0 < i && LastStart(configs, opens, i)
      ensures r.values[configs[i].id] == Launch(configs[i], opens[i]).value
    {
      assert configs[1..][i - 1] == configs[i] && opens[1..][i - 1] == opens[i];
    }
  }

  /** A first config that is its id's last start leaves no later start under that id. */
  lemma LastStartFirst(configs: seq<CameraConfig>, opens: seq<Option<VP.StreamProps>>)
    requires |opens| == |configs| && LastStart(configs, opens, 0)
    ensures configs[0].id !in Started(configs[1..], opens[1..])
  {
    forall k | 0 <= k < |configs[1..]| && opens[1..][k].Some? ensures configs[1..][k].id != configs[0].id {
      assert configs[k + 1] == configs[1..][k] && opens[k + 1] == opens[1..][k];
    }
  }

  /**
   The ids a dict whose keys are `known` gains from that loop, in the order they are
   added: each id at its first successful start, unless it was already a key.
   */
  function NewIds(known: set<string>, configs: seq<CameraConfig>, opens: seq<Option<VP.StreamProps>>): seq<string>
    requires |opens| == |configs|
    decreases |configs|
  {
    if configs == [] then []
    else if opens[0].Some? && configs[0].id !in known then
      [configs[0].id] + NewIds(known + {configs[0].id}, configs[1..], opens[1..])
    else
      NewIds(known, configs[1..], opens[1..])
  }

  /**
   The loop keeps the dict's key order: the ids registered before come first, in their
   old order, and a replaced entry keeps its position; the new ids follow in the order
   of their first successful start.
   */
  lemma {:induction false} StartCamerasKeepsKeyOrder(
    procs: Dict<string, VP.Processor>, configs: seq<CameraConfig>, opens: seq<Option<VP.StreamProps>>)
    requires |opens| == |configs| && procs.Valid()
    ensures StartCameras(procs, configs, opens).keys == procs.keys + NewIds(procs.values.Keys, configs, opens)
    decreases |configs|
  {
    if configs == [] {
      assert procs.keys + [] == procs.keys;
    } else {
      var procs' := Register(procs, configs[0], opens[0]);
      StartCamerasKeepsKeyOrder(procs', configs[1..], opens[1..]);
      assert StartCameras(procs, configs, opens) == StartCameras(procs', configs[1..], opens[1..]);
      KeyOrderStep(procs, configs, opens);
    }
  }

  /** One iteration of that loop, as the key order sees it. */
  lemma KeyOrderStep(procs: Dict<string, VP.Processor>, configs: seq<CameraConfig>, opens: seq<Option<VP.StreamProps>>)
    requires |opens| == |configs| && configs != [] && procs.Valid()
    ensures var procs' := Register(procs, configs[0], opens[0]);
      procs.keys + NewIds(procs.values.Keys, configs, opens)
      == procs'.keys + NewIds(procs'.values.Keys, configs[1..], opens[1..])
  {
    var id := configs[0].id;
    var procs' := Register(procs, configs[0], opens[0]);
    if opens[0].Some? && id !in procs.values {
      assert procs'.values.Keys == procs.values.Keys + {id};
      ConcatAssoc(procs.keys, [id], NewIds(procs'.values.Keys, configs[1..], opens[1..]));
    } else {
      assert procs'.keys == procs.keys + [];
      assert procs'.values.Keys == procs.values.Keys;
    }
  }

  /**
   The processors that loop drops from the registry, in order: whenever a start
   succeeds under an id that is already registered, the processor held there is
   replaced. The dict keeps no other reference to it, so nothing stops it later.
   */
  function Displaced(procs: Dict<string, VP.Processor>, configs: seq<CameraConfig>, opens: seq<Option<VP.StreamProps>>)
    : (r: seq<VP.Processor>)
    requires |opens| == |configs| && procs.Valid()
    ensures |r| <= |configs|
    decreases |configs|
  {
    if configs == [] then []
    else
      var c := configs[0];
      var out := if opens[0].Some? && c.id in procs.values then [procs.values[c.id]] else [];
      out + Displaced(Register(procs, c, opens[0]), configs[1..], opens[1..])
  }

  /** A registered processor is displaced as soon as any config with its id starts. */
  lemma {:induction false} DisplacedKeepsRegistered(
    procs: Dict<string, VP.Processor>, configs: seq<CameraConfig>, opens: seq<Option<VP.StreamProps>>, j: nat)
    requires |opens| == |configs| && procs.Valid()
    requires j < |configs| && opens[j].Some? && configs[j].id in procs.values
    ensures procs.values[configs[j].id] in Displaced(procs, configs, opens)
    decreases j
  {
    var c, id := configs[0], configs[j].id;
    var procs' := Register(procs, c, opens[0]);
    if !(opens[0].Some? && c.id == id) {
      assert configs[1..][j - 1] == configs[j] && opens[1..][j - 1] == opens[j];
      assert procs'.values[id] == procs.values[id];
      DisplacedKeepsRegistered(procs', configs[1..], opens[1..], j - 1);
    }
  }

  /** Only processors that were registered before, or that the loop itself started, are displaced. */
  lemma {:induction false} DisplacedOnlyKnown(
    procs: Dict<string, VP.Processor>, configs: seq<CameraConfig>, opens: seq<Option<VP.StreamProps>>, p: VP.Processor)
    requires |opens| == |configs| && procs.Valid()
    requires p in Displaced(procs, configs, opens)
    ensures (exists id :: id in procs.values && procs.values[id] == p) ||
      exists i :: 0 <= i < |configs| && opens[i].Some? && p == Launch(configs[i], opens[i]).value
    decreases |configs|
  {
    var c := configs[0];
    var procs' := Register(procs, c, opens[0]);
    var rest := Displaced(procs', configs[1..], opens[1..]);
    if p in rest {
      DisplacedOnlyKnown(procs', configs[1..], opens[1..], p);
      if exists id :: id in procs'.values && procs'.values[id] == p {
        RegisteredBefore(procs, c, opens[0], p);
      } else {
        var i :| 0 <= i < |configs[1..]| && opens[1..][i].Some? && p == Launch(configs[1..][i], opens[1..][i]).value;
        assert configs[1..][i] == configs[i + 1] && opens[1..][i] == opens[i + 1];
        assert 0 <= i + 1 < |configs| && opens[i + 1].Some? && p == Launch(configs[i + 1], opens[i + 1]).value;
      }
    } else {
      assert Displaced(procs, configs, opens) ==
        (if opens[0].Some? && c.id in procs.values then [procs.values[c.id]] else []) + rest;
      assert c.id in procs.values && procs.values[c.id] == p;
    }
  }

  /** A processor held after one registration was held before, or is the one just started. */
  lemma RegisteredBefore(procs: Dict<string, VP.Processor>, c: CameraConfig, open: Option<VP.StreamProps>, p: VP.Processor)
    requires procs.Valid()
    requires exists id :: id in Register(procs, c, open).values && Register(procs, c, open).values[id] == p
    ensures (exists id :: id in procs.values && procs.values[id] == p) || (open.Some? && p == Launch(c, open).value)
  {
    var procs' := Register(procs, c, open);
    var id :| id in procs'.values && procs'.values[id] == p;
    if !(open.Some? && id == c.id) {
      assert procs.values[id] == p;
    }
  }

  /**
   Two successful starts under one id: the processor of the earlier one, which is
   running, is displaced.
   */
  lemma {:induction false} RepeatedStartDisplaced(
    procs: Dict<string, VP.Processor>, configs: seq<CameraConfig>, opens: seq<Option<VP.StreamProps>>, i: nat, j: nat)
    requires |opens| == |configs| && procs.Valid()
    requires i < j < |configs| && configs[i].id == configs[j].id && opens[i].Some? && opens[j].Some?
    ensures Launch(configs[i], opens[i]).value in Displaced(procs, configs, opens)
    decreases i
  {
    var procs' := Register(procs, configs[0], opens[0]);
    assert configs[1..][j - 1] == configs[j] && opens[1..][j - 1] == opens[j];
    if i == 0 {
      DisplacedKeepsRegistered(procs', configs[1..], opens[1..], j - 1);
    } else {
      assert configs[1..][i - 1] == configs[i] && opens[1..][i - 1] == opens[i];
      RepeatedStartDisplaced(procs', configs[1..], opens[1..], i - 1, j - 1);
    }
    DisplacedTail(procs, configs, opens);
  }

  /** What the rest of the loop displaces, the whole loop displaces. */
  lemma DisplacedTail(procs: Dict<string, VP.Processor>, configs: seq<CameraConfig>, opens: seq<Option<VP.StreamProps>>)
    requires |opens| == |configs| && configs != [] && procs.Valid()
    ensures forall v :: v in Displaced(Register(procs, configs[0], opens[0]), configs[1..], opens[1..]) ==>
      v in Displaced(procs, configs, opens)
  {
  }

  /**
   `start_monitoring`: silently does nothing when already running; otherwise sets the
   running flag and starts every configured camera, where `opens[i]` is the outcome of
   opening the source of config `i`. The registry keeps its earlier entries and gains
   exactly the cameras that started; a failing camera does not stop the others.
   */
  function StartMonitoring(m: Manager, opens: seq<Option<VP.StreamProps>>): (r: Manager)
    requires Valid(m) && |opens| == |m.configs|
    ensures Valid(r)
    ensures m.isRunning ==> r == m
    ensures !m.isRunning ==> r.isRunning && r == m.(isRunning := true, processors := r.processors, displaced := r.displaced)
    ensures !m.isRunning ==> r.displaced == m.displaced + Displaced(m.processors, m.configs, opens)
    ensures !m.isRunning ==> r.processors.values.Keys == m.processors.values.Keys + Started(m.configs, opens)
    ensures !m.isRunning ==> r.processors.keys == m.processors.keys + NewIds(m.processors.values.Keys, m.configs, opens)
    ensures !m.isRunning ==> forall id :: id in m.processors.values && id !in Started(m.configs, opens) ==>
      r.processors.values[id] == m.processors.values[id]
    ensures !m.isRunning ==> forall i: nat :: LastStart(m.configs, opens, i) ==>
      r.processors.values[m.configs[i].id] == Launch(m.configs[i], opens[i]).value
  {
    if m.isRunning then m
    else
      var procs := StartCameras(m.processors, m.configs, opens);
      StartCamerasKeepsKeyOrder(m.processors, m.configs, opens);
      var r := m.(isRunning := true, processors := procs,
                  displaced := m.displaced + Displaced(m.processors, m.configs, opens));
      assert forall id :: id in procs.values ==> VP.Inv(procs.values[id]) by {
        forall id | id in procs.values ensures VP.Inv(procs.values[id]) {
          if id in Started(m.configs, opens) {
            var i :| 0 <= i < |m.configs| && opens[i].Some? && m.configs[i].id == id;
            LastStartExists(m.configs, opens, i);
          }
        }
      }
      r
  }

  /** Every started camera id has a last config that started it. */
  lemma {:induction false} LastStartExists(configs: seq<CameraConfig>, opens: seq<Option<VP.StreamProps>>, i: nat)
    requires |opens| == |configs| && i < |configs| && opens[i].Some?
    ensures exists k: nat :: LastStart(configs, opens, k) && configs[k].id == configs[i].id
    decreases |configs| - i
  {
    if LastStart(configs, opens, i) {
      assert configs[i].id == configs[i].id;
    } else {
      var j :| i < j < |configs| && configs[j].id == configs[i].id && opens[j].Some?;
      LastStartExists(configs, opens, j);
    }
  }

  /**
   `stop_monitoring`: does nothing when not running; otherwise clears the running flag
   and stops every processor in the registry. Processor stops cannot leave one running
   (see `VideoProcessor.Stop`), so all registered processors end stopped; displaced
   processors are not reached and are left as they are.
   */
  function StopMonitoring(m: Manager): (r: Manager)
    ensures Valid(m) ==> Valid(r)
    ensures !m.isRunning ==> r == m
    ensures m.isRunning ==> !r.isRunning && r == m.(isRunning := false, processors := r.processors)
    ensures m.isRunning ==> r.processors.keys == m.processors.keys && r.processors.values.Keys == m.processors.values.Keys
    ensures m.isRunning ==> forall id :: id in m.processors.values ==>
      r.processors.values[id] == VP.Stop(m.processors.values[id]) && !r.processors.values[id].isRunning
  {
    if !m.isRunning then m
    else
      var stopped := map id | id in m.processors.values :: VP.Stop(m.processors.values[id]);
      m.(isRunning := false, processors := Dict(m.processors.keys, stopped))
  }

  /**
   A repeated camera id outlives the stop: when two configs with the same id both
   start, the processor of the earlier one is still running after `stop_monitoring`,
   and no registry entry holds it.
   */
  lemma RepeatedIdOutlivesStop(m: Manager, opens: seq<Option<VP.StreamProps>>, i: nat, j: nat)
    requires Valid(m) && !m.isRunning && |opens| == |m.configs|
    requires i < j < |m.configs| && m.configs[i].id == m.configs[j].id && opens[i].Some? && opens[j].Some?
    ensures var m', p := StopMonitoring(StartMonitoring(m, opens)), Launch(m.configs[i], opens[i]).value;
      && !m'.isRunning && p.isRunning && p in m'.displaced
      && forall id :: id in m'.processors.values ==> m'.processors.values[id] != p
  {
    RepeatedStartDisplaced(m.processors, m.configs, opens, i, j);
  }

  /** Stopping twice is stopping once. */
  lemma StopIdempotent(m: Manager)
    ensures StopMonitoring(StopMonitoring(m)) == StopMonitoring(m)
  {
  }

  /** `_handle_alert`, routing branch, under the manager's current threshold. */
  function RouteAlert(m: Manager, alert: DetectionResult): (r: AlertRouting.Route)
    ensures r == AlertRouting.Immediate <==>
      exists i :: 0 <= i < |alert.detections| && AlertRouting.IsDangerous(alert.detections[i], m.alertThreshold)
  {
    AlertRouting.HandleAlert(alert, m.alertThreshold)
  }

  /**
   `get_camera_status`: fails for an unknown id; otherwise reports the processor's flag,
   dimensions and frame rate, and as latest detection the result of the entry it pops
   from the processor's result buffer (none when that buffer is empty).
   */
  function GetCameraStatus(m: Manager, id: string): (r: Result<(CameraStatus, Manager), ManagerError>)
    ensures r.Err? <==> id !in m.processors.values
    ensures r.Err? ==> r.error == CameraNotFound(id)
    ensures r.Ok? ==>
      var p, st, m' := m.processors.values[id], r.value.0, r.value.1;
      && st == CameraStatus(id, p.isRunning, st.latestDetection, p.frameWidth, p.frameHeight, p.fps)
      && (p.resultBuffer == [] ==> st.latestDetection.None? && m' == m)
      && (p.resultBuffer != [] ==>
            && st.latestDetection == Some(p.resultBuffer[0].1)
            && m' == m.(processors := Dict(m.processors.keys,
                                           m.processors.values[id := p.(resultBuffer := p.resultBuffer[1..])])))
    ensures r.Ok? && Valid(m) ==> Valid(r.value.1)
  {
    if id !in m.processors.values then Err(CameraNotFound(id))
    else
      var p := m.processors.values[id];
      var (entry, p') := VP.LatestFrame(p);
      var latest := match entry case None => None case Some((_, result)) => Some(result);
      var m' := if entry.None? then m
                else m.(processors := Dict(m.processors.keys, m.processors.values[id := p']));
      Ok((CameraStatus(id, p.isRunning, latest, p.frameWidth, p.frameHeight, p.fps), m'))
  }

  /** Python truthiness of the optional camera id: absent and `""` both select no camera. */
  predicate SelectsCamera(cameraId: Option<string>) {
    cameraId.Some? && cameraId.value != ""
  }

  /** The filtered histories of the cameras `ks`, concatenated in that order. */
  function ConcatHistories(ks: seq<string>, procs: map<string, VP.Processor>, start: Option<nat>, end: Option<nat>)
    : seq<DetectionResult>
    requires forall k :: k in ks ==> k in procs
    decreases |ks|
  {
    if ks == [] then [] else VP.GetDetectionHistory(procs[ks[0]], start, end) + ConcatHistories(ks[1..], procs, start, end)
  }

  /** An entry is in the concatenation iff it is an in-window history entry of one of the cameras `ks`. */
  lemma {:induction false} ConcatHistoriesMembers(
    ks: seq<string>, procs: map<string, VP.Processor>, start: Option<nat>, end: Option<nat>)
    requires forall k :: k in ks ==> k in procs
    ensures forall x :: x in ConcatHistories(ks, procs, start, end) <==>
      exists k :: k in ks && x in procs[k].history && InWindow(x.timestamp, start, end)
    decreases |ks|
  {
    if ks != [] {
      ConcatHistoriesMembers(ks[1..], procs, start, end);
      assert forall k :: k in ks <==> k == ks[0] || k in ks[1..];
    }
  }

  /** Sequence concatenation regroups freely. */
  lemma ConcatAssoc<T>(x: seq<T>, y: seq<T>, z: seq<T>)
    ensures x + (y + z) == (x + y) + z
  {
  }

  /**
   Camera by camera: the concatenation distributes over splitting the camera list, and
   a single camera contributes exactly its filtered history.
   */
  lemma {:induction false} ConcatHistoriesSplit(
    a: seq<string>, b: seq<string>, procs: map<string, VP.Processor>, start: Option<nat>, end: Option<nat>)
    requires forall k :: k in a ==> k in procs
    requires forall k :: k in b ==> k in procs
    ensures ConcatHistories(a + b, procs, start, end) ==
      ConcatHistories(a, procs, start, end) + ConcatHistories(b, procs, start, end)
    ensures |a| == 1 ==> ConcatHistories(a, procs, start, end) == VP.GetDetectionHistory(procs[a[0]], start, end)
    decreases |a|
  {
    if a == [] {
      assert a + b == b;
    } else {
      var ab := a + b;
      assert ab != [] && ab[0] == a[0] && ab[1..] == a[1..] + b;
      assert forall k :: k in a[1..] ==> k in a;
      ConcatHistoriesSplit(a[1..], b, procs, start, end);
      var h := VP.GetDetectionHistory(procs[a[0]], start, end);
      var x, y := ConcatHistories(a[1..], procs, start, end), ConcatHistories(b, procs, start, end);
      assert ConcatHistories(ab, procs, start, end) == h + (x + y);
      assert ConcatHistories(a, procs, start, end) == h + x;
      ConcatAssoc(h, x, y);
      if |a| == 1 {
        assert a[1..] == [];
      }
    }
  }

  /** Every camera's filtered history, concatenated in registry order. */
  function Merged(d: Dict<string, VP.Processor>, start: Option<nat>, end: Option<nat>): seq<DetectionResult>
    requires d.Valid()
  {
    ConcatHistories(d.keys, d.values, start, end)
  }

  /**
   `get_alerts_history`: with a camera selected, fails for an unknown id and otherwise is
   that camera's filtered history. With none selected, the merged history: a
   permutation of every camera's filtered history concatenated in registry order,
   ascending by timestamp, with entries of equal timestamp in concatenation order.
   */
  function GetAlertsHistory(m: Manager, start: Option<nat>, end: Option<nat>, cameraId: Option<string>)
    : (r: Result<seq<DetectionResult>, ManagerError>)
    requires m.processors.Valid()
    ensures SelectsCamera(cameraId) && cameraId.value !in m.processors.values ==> r == Err(CameraNotFound(cameraId.value))
    ensures SelectsCamera(cameraId) && cameraId.value in m.processors.values ==>
      r == Ok(VP.GetDetectionHistory(m.processors.values[cameraId.value], start, end))
    ensures !SelectsCamera(cameraId) ==>
      && r.Ok?
      && SortedByTime(r.value)
      && multiset(r.value) == multiset(Merged(m.processors, start, end))
      && (forall t :: AtTime(r.value, t) == AtTime(Merged(m.processors, start, end), t))
      && (forall x :: x in r.value <==>
            exists id :: id in m.processors.values && x in m.processors.values[id].history && InWindow(x.timestamp, start, end))
  {
    if SelectsCamera(cameraId) then
      if cameraId.value !in m.processors.values then Err(CameraNotFound(cameraId.value))
      else Ok(VP.GetDetectionHistory(m.processors.values[cameraId.value], start, end))
    else
      var all := Merged(m.processors, start, end);
      ConcatHistoriesMembers(m.processors.keys, m.processors.values, start, end);
      var sorted := SortByTime(all);
      assert forall x :: x in sorted <==> x in all by {
        forall x ensures x in sorted <==> x in all {
          assert x in sorted <==> x in multiset(sorted);
        }
      }
      Ok(sorted)
  }

  /**
   The merged history is the one and only stable sort of the concatenated histories:
   any sequence sorted by timestamp that keeps, timestamp by timestamp, the
   concatenation's entries in their order is exactly what the query returns.
   */
  lemma MergedIsTheStableSort(m: Manager, start: Option<nat>, end: Option<nat>, other: seq<DetectionResult>)
    requires m.processors.Valid()
    requires SortedByTime(other)
    requires forall t :: AtTime(other, t) == AtTime(Merged(m.processors, start, end), t)
    ensures GetAlertsHistory(m, start, end, None) == Ok(other)
  {
    StableSortUnique(GetAlertsHistory(m, start, end, None).value, other);
  }
}
