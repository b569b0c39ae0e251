/**
 The stable sort by timestamp that orders the merged cross-camera history
 (Python's `list.sort(key=...)`, which is guaranteed stable), written as an insertion sort.
 */
module Sorting {
  import opened Common
  import opened Detections

  predicate SortedByTime(xs: seq<DetectionResult>) {
    forall i, j :: 0 <= i < j < |xs| ==> xs[i].timestamp <= xs[j].timestamp
  }

  /** The entries of `xs` stamped exactly `t`, in their order in `xs`. */
  function AtTime(xs: seq<DetectionResult>, t: nat): seq<DetectionResult> {
    FilterWindow(xs, Some(t), Some(t))
  }

  /** A sorted sequence stays sorted when an entry no later than all of it is put in front. */
  lemma SortedCons(y: DetectionResult, rest: seq<DetectionResult>)
    requires SortedByTime(rest)
    requires forall e :: e in rest ==> y.timestamp <= e.timestamp
    ensures SortedByTime([y] + rest)
  {
    var r := [y] + rest;
    forall i, j | 0 <= i < j < |r| ensures r[i].timestamp <= r[j].timestamp {
      assert r[j] == rest[j - 1];
      if i > 0 {
        assert r[i] == rest[i - 1];
      }
    }
  }

  /** Inserts `x` into a sorted sequence in front of every entry whose timestamp is at least its own. */
  function Insert(x: DetectionResult, ys: seq<DetectionResult>): (r: seq<DetectionResult>)
    requires SortedByTime(ys)
    ensures SortedByTime(r)
    ensures multiset(r) == multiset(ys) + multiset{x}
    decreases |ys|
  {
    if ys == [] || x.timestamp <= ys[0].timestamp then
      SortedCons(x, ys);
      [x] + ys
    else
      var rest := Insert(x, ys[1..]);
      InsertTail(x, ys, rest);
      [ys[0]] + rest
  }

  /** The facts the recursive case of `Insert` needs about the insertion into the tail. */
  lemma InsertTail(x: DetectionResult, ys: seq<DetectionResult>, rest: seq<DetectionResult>)
    requires ys != [] && SortedByTime(ys) && ys[0].timestamp < x.timestamp
    requires SortedByTime(rest) && multiset(rest) == multiset(ys[1..]) + multiset{x}
    ensures SortedByTime([ys[0]] + rest)
    ensures multiset([ys[0]] + rest) == multiset(ys) + multiset{x}
  {
    forall e | e in rest ensures ys[0].timestamp <= e.timestamp {
      assert e in multiset(rest);
      assert e == x || e in ys[1..];
    }
    SortedCons(ys[0], rest);
    assert ys == [ys[0]] + ys[1..];
  }

  /** Inserting `x` adds it in front of the entries stamped `x.timestamp` and touches no other timestamp. */
  lemma {:induction false} InsertAtTime(x: DetectionResult, ys: seq<DetectionResult>, t: nat)
    requires SortedByTime(ys)
    ensures AtTime(Insert(x, ys), t) == if x.timestamp == t then [x] + AtTime(ys, t) else AtTime(ys, t)
    decreases |ys|
  {
    if ys == [] || x.timestamp <= ys[0].timestamp {
      assert ([x] + ys)[1..] == ys;
    } else {
      var rest := Insert(x, ys[1..]);
      InsertAtTime(x, ys[1..], t);
      assert ([ys[0]] + rest)[1..] == rest;
    }
  }

  /**
   Sorts by timestamp, ascending. The result is a permutation of the input, and the
   entries sharing any one timestamp keep their input order (the sort is stable).
   */
  function SortByTime(xs: seq<DetectionResult>): (r: seq<DetectionResult>)
    ensures SortedByTime(r)
    ensures multiset(r) == multiset(xs)
    ensures forall t :: AtTime(r, t) == AtTime(xs, t)
    decreases |xs|
  {
    if xs == [] then []
    else
      var rest := SortByTime(xs[1..]);
      SortStep(xs, rest);
      Insert(xs[0], rest)
  }

  /** The facts the recursive case of `SortByTime` needs about inserting the head into the sorted tail. */
  lemma SortStep(xs: seq<DetectionResult>, rest: seq<DetectionResult>)
    requires xs != [] && SortedByTime(rest)
    requires multiset(rest) == multiset(xs[1..])
    requires forall t :: AtTime(rest, t) == AtTime(xs[1..], t)
    ensures multiset(Insert(xs[0], rest)) == multiset(xs)
    ensures forall t :: AtTime(Insert(xs[0], rest), t) == AtTime(xs, t)
  {
    assert xs == [xs[0]] + xs[1..];
    forall t ensures AtTime(Insert(xs[0], rest), t) == AtTime(xs, t) {
      InsertAtTime(xs[0], rest, t);
    }
  }

  /** The entry at the front of a sequence heads the entries sharing its timestamp. */
  lemma AtTimeFront(xs: seq<DetectionResult>, t: nat)
    requires xs != []
    ensures AtTime(xs, t) == if xs[0].timestamp == t then [xs[0]] + AtTime(xs[1..], t) else AtTime(xs[1..], t)
  {
  }

  /** A non-empty sequence has an entry at the timestamp of its front. */
  lemma FrontAtItsTime(b: seq<DetectionResult>)
    requires b != []
    ensures b[0] in AtTime(b, b[0].timestamp)
  {
  }

  /** Two sorted sequences with the same entries at every timestamp start at the same time. */
  lemma SameFrontTime(a: seq<DetectionResult>, b: seq<DetectionResult>)
    requires a != [] && b != [] && SortedByTime(a) && SortedByTime(b)
    requires forall t :: AtTime(a, t) == AtTime(b, t)
    ensures a[0].timestamp == b[0].timestamp
  {
    var ta, tb := a[0].timestamp, b[0].timestamp;
    assert b[0] in AtTime(b, tb);
    assert b[0] in AtTime(a, tb);
    assert a[0] in AtTime(a, ta);
    assert a[0] in AtTime(b, ta);
    var k :| 0 <= k < |a| && a[k] == b[0];
    var l :| 0 <= l < |b| && b[l] == a[0];
    assert ta <= a[k].timestamp by {
      if k > 0 {
        assert a[0].timestamp <= a[k].timestamp;
      }
    }
    assert tb <= b[l].timestamp by {
      if l > 0 {
        assert b[0].timestamp <= b[l].timestamp;
      }
    }
  }

  /** Sequences agreeing at every timestamp whose fronts are the same entry agree after the front. */
  lemma TailsAgree(a: seq<DetectionResult>, b: seq<DetectionResult>)
    requires a != [] && b != [] && a[0].timestamp == b[0].timestamp
    requires forall t :: AtTime(a, t) == AtTime(b, t)
    ensures a[0] == b[0]
    ensures forall t :: AtTime(a[1..], t) == AtTime(b[1..], t)
  {
    var t0 := a[0].timestamp;
    AtTimeFront(a, t0);
    AtTimeFront(b, t0);
    assert AtTime(a, t0)[0] == a[0] && AtTime(b, t0)[0] == b[0];
    forall t ensures AtTime(a[1..], t) == AtTime(b[1..], t) {
      AtTimeFront(a, t);
      AtTimeFront(b, t);
      if t == t0 {
        assert AtTime(a[1..], t) == AtTime(a, t)[1..];
        assert AtTime(b[1..], t) == AtTime(b, t)[1..];
      }
    }
  }

  /**
   A stable sort by timestamp is unique: two sorted sequences that agree, timestamp by
   timestamp, on which entries they hold and in what order, are equal. So `SortByTime`
   is the only result a stable sort of the merged history can have.
   */
  lemma {:induction false} StableSortUnique(a: seq<DetectionResult>, b: seq<DetectionResult>)
    requires SortedByTime(a) && SortedByTime(b)
    requires forall t :: AtTime(a, t) == AtTime(b, t)
    ensures a == b
    decreases |a| + |b|
  {
    if a == [] || b == [] {
      if a != [] {
        FrontAtItsTime(a);
        assert false;
      } else if b != [] {
        FrontAtItsTime(b);
        assert false;
      }
    } else {
      SameFrontTime(a, b);
      TailsAgree(a, b);
      StableSortUnique(a[1..], b[1..]);
      assert a == [a[0]] + a[1..] && b == [b[0]] + b[1..];
    }
  }
}
