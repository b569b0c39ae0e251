/**
 The per-class count of the alerts summary: a dict from class name to the number of
 detections of that class, filled by one pass over the detections of every alert.
 */
module Summary {
  import opened Dict
  import opened Detections

  /** The detections of every alert, alert by alert, in order. */
  function AllDetections(alerts: seq<DetectionResult>): (ds: seq<Detection>)
    ensures forall d :: d in ds <==> exists i :: 0 <= i < |alerts| && d in alerts[i].detections
    decreases |alerts|
  {
    if alerts == [] then []
    else
      var rest := AllDetections(alerts[1..]);
      assert forall i :: 1 <= i < |alerts| ==> alerts[i] == alerts[1..][i - 1];
      alerts[0].detections + rest
  }

  /** The pass visits the alerts one after the other: it distributes over concatenation. */
  lemma {:induction false} AllDetectionsConcat(a: seq<DetectionResult>, b: seq<DetectionResult>)
    ensures AllDetections(a + b) == AllDetections(a) + AllDetections(b)
    ensures |a| == 1 ==> AllDetections(a) == a[0].detections
    decreases |a|
  {
    if a == [] {
      assert a + b == b;
    } else {
      var ab := a + b;
      assert ab != [] && ab[0] == a[0] && ab[1..] == a[1..] + b;
      AllDetectionsConcat(a[1..], b);
      assert AllDetections(ab) == a[0].detections + AllDetections(a[1..] + b);
      assert AllDetections(a) == a[0].detections + AllDetections(a[1..]);
      if |a| == 1 {
        assert a[1..] == [];
      }
    }
  }

  /** The number of detections of class `c`. */
  function CountClass(ds: seq<Detection>, c: string): nat
    decreases |ds|
  {
    if ds == [] then 0 else (if ds[0].className == c then 1 else 0) + CountClass(ds[1..], c)
  }

  lemma {:induction false} CountClassSnoc(ds: seq<Detection>, d: Detection, c: string)
    ensures CountClass(ds + [d], c) == CountClass(ds, c) + (if d.className == c then 1 else 0)
    decreases |ds|
  {
    if ds != [] {
      assert (ds + [d])[1..] == ds[1..] + [d];
      CountClassSnoc(ds[1..], d, c);
    }
  }

  /** The classes that occur in `ds`. */
  function Classes(ds: seq<Detection>): set<string> {
    set i | 0 <= i < |ds| :: ds[i].className
  }

  /** `alert_types[c] = alert_types.get(c, 0) + 1`. */
  function Bump(t: Dict<string, nat>, c: string): (r: Dict<string, nat>)
    requires t.Valid()
    ensures r.Valid()
  {
    Put(t, c, (if c in t.values then t.values[c] else 0) + 1)
  }

  /**
   The counting loop over `ds`, in order. Exactly the classes that occur are keys, and
   each maps to its number of occurrences.
   */
  function Tally(ds: seq<Detection>): (r: Dict<string, nat>)
    ensures r.Valid()
    ensures r.values.Keys == Classes(ds)
    ensures forall c :: c in r.values ==> r.values[c] == CountClass(ds, c)
    decreases |ds|
  {
    if ds == [] then Empty()
    else
      var init, d := ds[..|ds| - 1], ds[|ds| - 1];
      var t := Tally(init);
      assert ds == init + [d];
      SnocFacts(init, d, t);
      Bump(t, d.className)
  }

  /** What one more detection `d` changes in the class counts and the class set. */
  lemma SnocFacts(init: seq<Detection>, d: Detection, t: Dict<string, nat>)
    requires t.values.Keys == Classes(init)
    ensures forall c :: CountClass(init + [d], c) == CountClass(init, c) + (if d.className == c then 1 else 0)
    ensures Classes(init + [d]) == Classes(init) + {d.className}
    ensures forall c :: c !in t.values ==> CountClass(init, c) == 0
  {
    var ds := init + [d];
    forall c ensures CountClass(ds, c) == CountClass(init, c) + (if d.className == c then 1 else 0) {
      CountClassSnoc(init, d, c);
    }
    forall c | c in Classes(ds) ensures c in Classes(init) + {d.className}
    {
      var i :| 0 <= i < |ds| && ds[i].className == c;
      if i < |init| {
        assert init[i] == ds[i];
      }
    }
    forall c | c in Classes(init) ensures c in Classes(ds)
    {
      var i :| 0 <= i < |init| && init[i].className == c;
      assert ds[i] == init[i];
    }
    assert ds[|init|].className == d.className;
    forall c | c !in t.values ensures CountClass(init, c) == 0 {
      CountAbsent(init, c);
    }
  }

  /** A class that does not occur has count zero. */
  lemma {:induction false} CountAbsent(ds: seq<Detection>, c: string)
    requires forall i :: 0 <= i < |ds| ==> ds[i].className != c
    ensures CountClass(ds, c) == 0
    decreases |ds|
  {
    if ds != [] {
      CountAbsent(ds[1..], c);
    }
  }

  /** The sum of the counts stored under the keys `ks`. */
  function SumCounts(ks: seq<string>, m: map<string, nat>): nat
    requires forall k :: k in ks ==> k in m
    decreases |ks|
  {
    if ks == [] then 0 else SumCounts(ks[..|ks| - 1], m) + m[ks[|ks| - 1]]
  }

  /** The sum only depends on the counts under the keys summed. */
  lemma {:induction false} SumCountsAgree(ks: seq<string>, m: map<string, nat>, m': map<string, nat>)
    requires forall k :: k in ks ==> k in m && k in m' && m[k] == m'[k]
    ensures SumCounts(ks, m) == SumCounts(ks, m')
    decreases |ks|
  {
    if ks != [] {
      SumCountsAgree(ks[..|ks| - 1], m, m');
    }
  }

  /** Adding one to the count of a key that occurs once adds one to the sum. */
  lemma {:induction false} SumCountsBump(ks: seq<string>, m: map<string, nat>, c: string)
    requires forall k :: k in ks ==> k in m
    requires forall i, j :: 0 <= i < j < |ks| ==> ks[i] != ks[j]
    requires c in ks
    ensures SumCounts(ks, m[c := m[c] + 1]) == SumCounts(ks, m) + 1
    decreases |ks|
  {
    var init, last := ks[..|ks| - 1], ks[|ks| - 1];
    if last == c {
      assert c !in init;
      SumCountsAgree(init, m, m[c := m[c] + 1]);
    } else {
      assert c in init;
      SumCountsBump(init, m, c);
    }
  }

  /** Bumping a count, for a key already present or a new one, adds one to the sum of a valid tally. */
  lemma SumCountsAfterBump(t: Dict<string, nat>, c: string)
    requires t.Valid()
    ensures SumCounts(Bump(t, c).keys, Bump(t, c).values) == SumCounts(t.keys, t.values) + 1
  {
    var r := Bump(t, c);
    if c in t.values {
      assert r.keys == t.keys && r.values == t.values[c := t.values[c] + 1];
      SumCountsBump(t.keys, t.values, c);
    } else {
      assert r.keys == t.keys + [c] && r.values == t.values[c := 1];
      assert r.keys[..|r.keys| - 1] == t.keys;
      SumCountsAgree(t.keys, t.values, r.values);
    }
  }

  /** The counts of the summary add up to the number of detections counted. */
  lemma {:induction false} TallySum(ds: seq<Detection>)
    ensures SumCounts(Tally(ds).keys, Tally(ds).values) == |ds|
    decreases |ds|
  {
    if ds != [] {
      var init, d := ds[..|ds| - 1], ds[|ds| - 1];
      TallySum(init);
      assert Tally(ds) == Bump(Tally(init), d.className);
      SumCountsAfterBump(Tally(init), d.className);
    }
  }
}
