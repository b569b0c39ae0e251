/**
 The FIFO buffers of a video processor, as Python's `queue.Queue` behaves when only
 its non-blocking operations are used: `full`, `get_nowait` and `put_nowait`.
 The front of a sequence is the oldest element.
 */
module Queues {
  import opened Common

  /** `queue.Queue.full()`: a `maxsize` of zero or less makes the queue unbounded. */
  predicate IsFull<T>(q: seq<T>, maxsize: int) {
    0 < maxsize <= |q|
  }

  /** The `n` newest elements of `s` (all of them when there are fewer), oldest first. */
  function Newest<T>(s: seq<T>, n: nat): (r: seq<T>)
    ensures |r| == if |s| < n then |s| else n
    ensures r == s[|s| - |r|..]
  {
    if |s| <= n then s else s[|s| - n..]
  }

  /**
   Drop-oldest admission: when the queue is full the oldest element is removed first,
   then the new element is appended. The push never blocks and never fails.
   */
  function PushDropOldest<T>(q: seq<T>, maxsize: int, x: T): (r: seq<T>)
    ensures |r| == if IsFull(q, maxsize) then |q| else |q| + 1
    ensures r == (q + [x])[|q| + 1 - |r|..]
    ensures 0 < maxsize && |q| <= maxsize ==> |r| <= maxsize
  {
    var a := q + [x];
    if IsFull(q, maxsize) then a[1..] else a
  }

  /**
   Admission that discards the NEW element when the queue is full: the old contents
   are kept as they are, and the new element is appended exactly when there is room.
   */
  function PushIfRoom<T>(q: seq<T>, maxsize: int, x: T): (r: seq<T>)
    ensures |q| <= |r| <= |q| + 1 && r[..|q|] == q
    ensures |r| == |q| + 1 <==> !IsFull(q, maxsize)
    ensures |r| == |q| + 1 ==> r[|q|] == x
    ensures 0 < maxsize && |q| <= maxsize ==> |r| <= maxsize
  {
    if IsFull(q, maxsize) then q else q + [x]
  }

  /** `get_nowait()`: the oldest element and the rest of the queue, or nothing when empty. */
  function TryPop<T>(q: seq<T>): (r: Option<(T, seq<T>)>)
    ensures r.None? <==> q == []
    ensures r.Some? ==> [r.value.0] + r.value.1 == q
  {
    if q == [] then None else Some((q[0], q[1..]))
  }

  /** A run of drop-oldest pushes with no pops in between, in push order. */
  function PushAll<T>(q: seq<T>, maxsize: int, xs: seq<T>): seq<T>
    decreases |xs|
  {
    if xs == [] then q else PushAll(PushDropOldest(q, maxsize, xs[0]), maxsize, xs[1..])
  }

  /** Keeping the newest `n` of `a`, then appending `b`, keeps the same newest `n` as `a + b`. */
  lemma NewestAbsorbs<T>(a: seq<T>, b: seq<T>, n: nat)
    ensures Newest(Newest(a, n) + b, n) == Newest(a + b, n)
  {
    var k := |a| - |Newest(a, n)|;
    assert Newest(a, n) == a[k..];
    assert a[k..] + b == (a + b)[k..];
    var s, s' := a[k..] + b, a + b;
    assert |s'| - |s| == k;
    if |s'| <= n {
      assert k == 0;
    } else if |s| <= n {
      assert Newest(s, n) == s == s'[k..];
    } else {
      assert s[|s| - n..] == s'[|s'| - n..];
    }
  }

  /** On a queue within its bound, one drop-oldest push keeps the newest `maxsize` elements. */
  lemma PushDropOldestIsNewest<T>(q: seq<T>, maxsize: int, x: T)
    requires 0 < maxsize && |q| <= maxsize
    ensures PushDropOldest(q, maxsize, x) == Newest(q + [x], maxsize)
  {
    var r := PushDropOldest(q, maxsize, x);
    assert |r| == |Newest(q + [x], maxsize)|;
  }

  /** Keeping the newest `n` after the first push, then pushing the rest, is keeping the newest `n` overall. */
  lemma NewestStep<T>(q: seq<T>, xs: seq<T>, n: nat)
    requires xs != []
    ensures Newest(Newest(q + [xs[0]], n) + xs[1..], n) == Newest(q + xs, n)
  {
    var a := q + [xs[0]];
    assert a + xs[1..] == q + xs;
    NewestAbsorbs(a, xs[1..], n);
  }

  /** One push followed by more elements keeps the same newest `maxsize` as all of them together. */
  lemma PushThenNewest<T>(q: seq<T>, maxsize: int, x: T, rest: seq<T>)
    requires 0 < maxsize && |q| <= maxsize
    ensures Newest(PushDropOldest(q, maxsize, x) + rest, maxsize) == Newest(q + ([x] + rest), maxsize)
  {
    PushDropOldestIsNewest(q, maxsize, x);
    NewestAbsorbs(q + [x], rest, maxsize);
    assert (q + [x]) + rest == q + ([x] + rest);
  }

  /**
   A bounded queue fed only by drop-oldest pushes holds exactly the `maxsize` most
   recently pushed elements (all of them while fewer were pushed), in push order.
   */
  lemma {:induction false} PushAllKeepsNewest<T>(q: seq<T>, maxsize: int, xs: seq<T>)
    requires 0 < maxsize && |q| <= maxsize
    ensures PushAll(q, maxsize, xs) == Newest(q + xs, maxsize)
    decreases |xs|
  {
    if xs == [] {
      assert q + xs == q;
    } else {
      var q' := PushDropOldest(q, maxsize, xs[0]);
      PushDropOldestIsNewest(q, maxsize, xs[0]);
      PushAllKeepsNewest(q', maxsize, xs[1..]);
      NewestStep(q, xs, maxsize);
    }
  }

  /** An unbounded queue (`maxsize` of zero or less) keeps every pushed element. */
  lemma {:induction false} PushAllUnbounded<T>(q: seq<T>, maxsize: int, xs: seq<T>)
    requires maxsize <= 0
    ensures PushAll(q, maxsize, xs) == q + xs
    decreases |xs|
  {
    if xs == [] {
      assert q + xs == q;
    } else {
      PushAllUnbounded(q + [xs[0]], maxsize, xs[1..]);
      assert (q + [xs[0]]) + xs[1..] == q + xs;
    }
  }

  /** From an empty queue, `n` pushes leave the last `min(n, maxsize)` of them in push order. */
  lemma PushAllFromEmpty<T>(maxsize: int, xs: seq<T>)
    requires 0 < maxsize
    ensures PushAll([], maxsize, xs) == Newest(xs, maxsize)
  {
    PushAllKeepsNewest([], maxsize, xs);
    assert [] + xs == xs;
  }
}
