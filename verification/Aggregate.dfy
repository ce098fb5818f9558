/** Windowed aggregation: the bucket loop against a plain group-by. */
module Aggregate {
  import opened Words
  import opened Model
  import opened Points

  /** Integer division as Go does it: toward zero. */
  function Quotient(a: int, n: int): int
    requires n > 0
  {
    if a >= 0 then a / n else -(-a / n)
  }

  /** Where the bucket loop starts. */
  function FirstBucket(base: int, win: int): int
    requires win > 0
  {
    Quotient(base, win) * win
  }

  /** The start of the window of length win, counted from `start`, that holds ts. */
  function BucketOf(ts: int, start: int, win: int): int
    requires win > 0
  {
    start + (ts - start) / win * win
  }

  /** The values of the points in one window, in order. */
  function Bucket(ps: seq<Point>, start: int, win: int, key: int): seq<uint64>
    requires win > 0
  {
    if ps == [] then []
    else (if ps[0].ts >= start && BucketOf(ps[0].ts, start, win) == key then [ps[0].bits] else [])
         + Bucket(ps[1..], start, win, key)
  }

  ghost predicate Increasing(r: seq<Point>) {
    forall i, j :: 0 <= i < j < |r| ==> r[i].ts < r[j].ts
  }

  /** r has exactly one point per non-empty window that starts at or after `start`, in time
      order, holding the aggregate of exactly the values in the window. */
  ghost predicate GroupBy(r: seq<Point>, ps: seq<Point>, start: int, win: int, agg: seq<uint64> -> uint64)
    requires win > 0
  {
    && Increasing(r)
    && (forall i :: 0 <= i < |r| ==>
          var values := Bucket(ps, start, win, r[i].ts);
          values != [] && r[i].bits == agg(values))
    && (forall p :: p in ps && p.ts >= start ==> HasWindow(r, BucketOf(p.ts, start, win)))
  }

  ghost predicate HasWindow(r: seq<Point>, key: int) {
    exists i :: 0 <= i < |r| && r[i].ts == key
  }

  // ---- windows ----

  lemma {:induction false} MulStep(a: int, b: int, n: int)
    requires a < b && n > 0
    ensures a * n + n <= b * n
  {
    Distribute(b, a, n);
    AtLeastOne(b - a, n);
  }

  lemma {:induction false} AtLeastOne(d: int, n: int)
    requires d >= 1 && n > 0
    ensures d * n >= n
    decreases d
  {
    if d > 1 {
      AtLeastOne(d - 1, n);
      Distribute(d, 1, n);
    }
  }

  lemma {:induction false} Distribute(a: int, b: int, n: int)
    ensures (a - b) * n == a * n - b * n
  {
  }

  lemma {:induction false} DivBounds(x: int, n: int)
    requires n > 0
    ensures x / n * n <= x < x / n * n + n
  {
  }

  lemma {:induction false} QuotientUnique(x: int, n: int, k: int)
    requires n > 0 && k * n <= x < k * n + n
    ensures x / n == k
  {
    var q := x / n;
    DivBounds(x, n);
    if q < k {
      MulStep(q, k, n);
    } else if q > k {
      MulStep(k, q, n);
    }
  }

  /** The windows [key, key + win) tile the line from `start` on. */
  lemma {:induction false} WindowHolds(ts: int, start: int, win: int, k: int)
    requires win > 0
    ensures BucketOf(ts, start, win) == start + k * win <==> start + k * win <= ts < start + k * win + win
  {
    DivBounds(ts - start, win);
    if start + k * win <= ts < start + k * win + win {
      QuotientUnique(ts - start, win, k);
    }
  }

  /** What one point adds to a window. */
  function Share(p: Point, start: int, win: int, key: int): seq<uint64>
    requires win > 0
  {
    if p.ts >= start && BucketOf(p.ts, start, win) == key then [p.bits] else []
  }

  lemma {:induction false} BucketCons(p: Point, ps: seq<Point>, start: int, win: int, key: int)
    requires win > 0
    ensures Bucket([p] + ps, start, win, key) == Share(p, start, win, key) + Bucket(ps, start, win, key)
    ensures Bucket([], start, win, key) == []
  {
    hide BucketOf;
    assert ([p] + ps)[1..] == ps;
  }

  lemma {:induction false} BucketConcat(a: seq<Point>, b: seq<Point>, start: int, win: int, key: int)
    requires win > 0
    ensures Bucket(a + b, start, win, key) == Bucket(a, start, win, key) + Bucket(b, start, win, key)
  {
    hide Bucket, Share;
    if a == [] {
      BucketCons(Point(0, 0), b, start, win, key);
      assert a + b == b;
    } else {
      BucketConcat(a[1..], b, start, win, key);
      BucketCons(a[0], a[1..] + b, start, win, key);
      BucketCons(a[0], a[1..], start, win, key);
      assert a == [a[0]] + a[1..] && a + b == [a[0]] + (a[1..] + b);
    }
  }

  lemma {:induction false} BucketNone(ps: seq<Point>, start: int, win: int, key: int)
    requires win > 0
    requires forall p :: p in ps ==> BucketOf(p.ts, start, win) != key
    ensures Bucket(ps, start, win, key) == []
  {
    hide BucketOf;
    if ps != [] {
      BucketNone(ps[1..], start, win, key);
    }
  }

  function ValuesOf(ps: seq<Point>): seq<uint64> {
    seq(|ps|, i requires 0 <= i < |ps| => ps[i].bits)
  }

  lemma {:induction false} BucketAll(ps: seq<Point>, start: int, win: int, key: int)
    requires win > 0
    requires forall p :: p in ps ==> p.ts >= start && BucketOf(p.ts, start, win) == key
    ensures Bucket(ps, start, win, key) == ValuesOf(ps)
  {
    hide BucketOf;
    if ps != [] {
      BucketAll(ps[1..], start, win, key);
    }
  }

  /** [key, key + win) is one of the windows. */
  ghost predicate IsWindow(key: int, start: int, win: int)
    requires win > 0
  {
    key >= start && forall ts: int :: BucketOf(ts, start, win) == key <==> key <= ts < key + win
  }

  lemma {:induction false} AlignedWindow(start: int, win: int, k: nat)
    requires win > 0
    ensures IsWindow(start + k * win, start, win)
  {
    hide BucketOf;
    forall ts: int ensures BucketOf(ts, start, win) == start + k * win
                      <==> start + k * win <= ts < start + k * win + win {
      WindowHolds(ts, start, win, k);
    }
    ProductNotNegative(k, win);
  }

  lemma {:induction false} ProductNotNegative(k: nat, n: int)
    requires n > 0
    ensures k * n >= 0
  {
  }

  /** In a list in time order a window is the slice between the two searches. */
  lemma {:induction false} BucketIsSlice(ps: seq<Point>, start: int, win: int, key: int)
    requires win > 0 && Sorted(ps) && IsWindow(key, start, win)
    ensures
      var lo, hi := FirstAtLeast(ps, key), FirstAtLeast(ps, key + win);
      lo <= hi && Bucket(ps, start, win, key) == ValuesOf(ps[lo..hi])
  {
    hide FirstAtLeast, Bucket, BucketOf, Sorted, ValuesOf;
    SearchesOrdered(ps, key, key + win);
    SliceTimes(ps, key, key + win);
    SliceParts(ps, start, win, key, FirstAtLeast(ps, key), FirstAtLeast(ps, key + win));
  }

  lemma {:induction false} SliceTimes(ps: seq<Point>, a: int, b: int)
    requires Sorted(ps) && FirstAtLeast(ps, a) <= FirstAtLeast(ps, b)
    ensures
      var lo, hi := FirstAtLeast(ps, a), FirstAtLeast(ps, b);
      && (forall p :: p in ps[..lo] ==> p in ps && p.ts < a)
      && (forall p :: p in ps[lo..hi] ==> p in ps && a <= p.ts < b)
      && (forall p :: p in ps[hi..] ==> p in ps && p.ts >= b)
  {
    hide FirstAtLeast;
    var lo, hi := FirstAtLeast(ps, a), FirstAtLeast(ps, b);
    forall i | lo <= i < |ps| ensures ps[i].ts >= a {
      assert ps[lo].ts <= ps[i].ts;
    }
    forall i | hi <= i < |ps| ensures ps[i].ts >= b {
      assert ps[hi].ts <= ps[i].ts;
    }
  }

  lemma {:induction false} SearchesOrdered(ps: seq<Point>, a: int, b: int)
    requires Sorted(ps) && a <= b
    ensures FirstAtLeast(ps, a) <= FirstAtLeast(ps, b)
  {
  }

  lemma {:induction false} SliceParts(ps: seq<Point>, start: int, win: int, key: int, lo: nat, hi: nat)
    requires win > 0 && lo <= hi <= |ps|
    requires forall p :: p in ps[..lo] || p in ps[hi..] ==> BucketOf(p.ts, start, win) != key
    requires forall p :: p in ps[lo..hi] ==> p.ts >= start && BucketOf(p.ts, start, win) == key
    ensures Bucket(ps, start, win, key) == ValuesOf(ps[lo..hi])
  {
    hide BucketOf, Bucket;
    assert ps == ps[..lo] + (ps[lo..hi] + ps[hi..]);
    BucketConcat(ps[..lo], ps[lo..hi] + ps[hi..], start, win, key);
    BucketConcat(ps[lo..hi], ps[hi..], start, win, key);
    BucketNone(ps[..lo], start, win, key);
    BucketAll(ps[lo..hi], start, win, key);
    BucketNone(ps[hi..], start, win, key);
  }

  // ---- the loop ----

  /** The base of the first window: the query's lower bound, or the first point. */
  function BaseOf(ps: seq<Point>, from: int64): int64
    requires ps != []
  {
    if from == 0 then ps[0].ts else from
  }

  /** The windows before `done` are finished. */
  ghost predicate Finished(r: seq<Point>, ps: seq<Point>, start: int, win: int, agg: seq<uint64> -> uint64, done: int)
    requires win > 0
  {
    && Increasing(r)
    && (forall i :: 0 <= i < |r| ==>
          var values := Bucket(ps, start, win, r[i].ts);
          r[i].ts < done && values != [] && r[i].bits == agg(values))
    && (forall p :: p in ps && start <= p.ts < done ==> HasWindow(r, BucketOf(p.ts, start, win)))
  }

  /** Finishing one more window, whose point is q. */
  lemma {:induction false} WindowDone(
    r: seq<Point>, ps: seq<Point>, start: int, win: int, agg: seq<uint64> -> uint64, q: Point, lo: nat, hi: nat)
    requires win > 0 && Sorted(ps) && IsWindow(q.ts, start, win)
    requires Finished(r, ps, start, win, agg, q.ts)
    requires lo == FirstAtLeast(ps, q.ts) && hi == FirstAtLeast(ps, q.ts + win)
    requires lo <= hi && (lo < hi ==> q.bits == agg(ValuesOf(ps[lo..hi])))
    ensures Finished(if lo < hi then r + [q] else r, ps, start, win, agg, q.ts + win)
  {
    hide FirstAtLeast, Bucket, BucketOf, Sorted, ValuesOf, Finished;
    BucketIsSlice(ps, start, win, q.ts);
    SomeValues(ps[lo..hi]);
    if lo < hi {
      AddWindow(r, ps, start, win, agg, q);
    } else {
      forall p | p in ps ensures !(q.ts <= p.ts < q.ts + win) {
        if q.ts <= p.ts < q.ts + win {
          InSlice(ps, q.ts, q.ts + win, p);
        }
      }
      SkipWindow(r, ps, start, win, agg, q.ts);
    }
  }

  lemma {:induction false} AddWindow(
    r: seq<Point>, ps: seq<Point>, start: int, win: int, agg: seq<uint64> -> uint64, q: Point)
    requires win > 0 && IsWindow(q.ts, start, win) && Finished(r, ps, start, win, agg, q.ts)
    requires Bucket(ps, start, win, q.ts) != [] && q.bits == agg(Bucket(ps, start, win, q.ts))
    ensures Finished(r + [q], ps, start, win, agg, q.ts + win)
  {
    hide Bucket, BucketOf;
    var r' := r + [q];
    assert r'[|r|] == q;
    forall p | p in ps && start <= p.ts < q.ts + win ensures HasWindow(r', BucketOf(p.ts, start, win)) {
      if p.ts < q.ts {
        var i :| 0 <= i < |r| && r[i].ts == BucketOf(p.ts, start, win);
        assert r'[i] == r[i];
      }
    }
  }

  lemma {:induction false} SkipWindow(
    r: seq<Point>, ps: seq<Point>, start: int, win: int, agg: seq<uint64> -> uint64, key: int)
    requires win > 0 && Finished(r, ps, start, win, agg, key)
    requires forall p :: p in ps ==> !(key <= p.ts < key + win)
    ensures Finished(r, ps, start, win, agg, key + win)
  {
    hide Bucket, BucketOf, HasWindow;
  }

  lemma {:induction false} SomeValues(ps: seq<Point>)
    ensures ValuesOf(ps) == [] <==> ps == []
  {
  }

  lemma {:induction false} InSlice(ps: seq<Point>, a: int, b: int, p: Point)
    requires Sorted(ps) && p in ps && a <= p.ts < b
    ensures FirstAtLeast(ps, a) < FirstAtLeast(ps, b)
  {
    hide FirstAtLeast, Sorted;
    SearchesOrdered(ps, a, b);
    SliceTimes(ps, a, b);
    var lo, hi := FirstAtLeast(ps, a), FirstAtLeast(ps, b);
    InPart(ps, lo, hi, p);
  }

  lemma {:induction false} InPart(ps: seq<Point>, lo: nat, hi: nat, p: Point)
    requires lo <= hi <= |ps| && p in ps
    ensures p in ps[..lo] || p in ps[lo..hi] || p in ps[hi..]
  {
    assert ps == ps[..lo] + ps[lo..hi] + ps[hi..];
  }

  /** Every point stands at the start of a window before `done`, in time order. */
  ghost predicate AtWindows(r: seq<Point>, start: int, win: int, done: int)
    requires win > 0
  {
    Increasing(r) && forall i :: 0 <= i < |r| ==> start <= r[i].ts < done && (r[i].ts - start) % win == 0
  }

  lemma {:induction false} NextAtWindow(r: seq<Point>, start: int, win: int, k: nat, q: Point)
    requires win > 0 && q.ts == start + k * win && AtWindows(r, start, win, q.ts)
    ensures AtWindows(r + [q], start, win, q.ts + win) && AtWindows(r, start, win, q.ts + win)
  {
    Aligned(k, win);
    ProductNotNegative(k, win);
  }

  /** One window of the loop. */
  lemma {:induction false} OneWindow(
    r: seq<Point>, ps: seq<Point>, start: int, win: int, agg: seq<uint64> -> uint64, k: nat, q: Point, lo: nat,
    hi: nat)
    requires win > 0 && q.ts == start + k * win && AtWindows(r, start, win, q.ts)
    requires lo <= |ps| && hi <= |ps| && (lo < hi ==> q.bits == agg(ValuesOf(ps[lo..hi])))
    requires Sorted(ps) ==>
               && Finished(r, ps, start, win, agg, q.ts)
               && lo == FirstAtLeast(ps, q.ts) && hi == FirstAtLeast(ps, q.ts + win)
    ensures
      var r' := if lo < hi then r + [q] else r;
      && AtWindows(r', start, win, q.ts + win)
      && (Sorted(ps) ==> Finished(r', ps, start, win, agg, q.ts + win))
  {
    hide Finished, FirstAtLeast, AtWindows, Sorted, ValuesOf;
    NextAtWindow(r, start, win, k, q);
    if Sorted(ps) {
      SearchesOrdered(ps, q.ts, q.ts + win);
      AlignedWindow(start, win, k);
      WindowDone(r, ps, start, win, agg, q, lo, hi);
    }
  }

  /** The window that holds `last` ends inside int64, when windows are counted from the first one
      for a base. */
  predicate EndFits(base: int, last: int, win: int) {
    win > 0 ==>
      var start := FirstBucket(base, win);
      start <= last ==> BucketOf(last, start, win) + win < TWO_63
  }

  /** The last window that the loop comes to ends inside int64. */
  predicate LastEndFits(ps: seq<Point>, from: int64, win: int) {
    ps != [] ==> EndFits(BaseOf(ps, from), ps[|ps| - 1].ts, win)
  }

  lemma {:induction false} BeforeLast(start: int, win: int, k: int, last: int)
    requires win > 0 && start + k * win <= last
    ensures start + k * win <= BucketOf(last, start, win) <= last < BucketOf(last, start, win) + win
  {
    var q := (last - start) / win;
    DivBounds(last - start, win);
    if q < k {
      MulStep(q, k, win);
    } else if q > k {
      MulStep(k, q, win);
    }
  }

  // ---- windows by their bounds ----

  /** The points from lo up to hi, and no others, are in the n units of time from t on. */
  ghost predicate Span(ps: seq<Point>, lo: int, hi: int, t: int, n: int) {
    0 <= lo <= hi <= |ps| && forall i :: 0 <= i < |ps| ==> (lo <= i < hi <==> t <= ps[i].ts < t + n)
  }

  /** The point holds the aggregate of the values of the points in its window, in order; there is
      at least one. */
  ghost predicate WindowValue(q: Point, ps: seq<Point>, win: int, agg: seq<uint64> -> uint64) {
    exists lo, hi :: Span(ps, lo, hi, q.ts, win) && lo < hi
      && q.bits == agg(seq(hi - lo, i requires 0 <= i < hi - lo => ps[lo + i].bits))
  }

  /** Windows are counted from a multiple of their length: the last one up to the base, or for a
      negative base the first one from it on. */
  ghost predicate StartsAt(start: int, base: int, win: int)
    requires win > 0
  {
    start % win == 0 && if base >= 0 then start <= base < start + win else start - win < base <= start
  }

  /** One point for each window with values, at its start, in time order. */
  ghost predicate Windowed(r: seq<Point>, ps: seq<Point>, start: int, win: int, agg: seq<uint64> -> uint64)
    requires win > 0
  {
    && (forall i, j :: 0 <= i < j < |r| ==> r[i].ts < r[j].ts)
    && (forall i :: 0 <= i < |r| ==>
          start <= r[i].ts && (r[i].ts - start) % win == 0 && WindowValue(r[i], ps, win, agg))
    && (forall p :: p in ps && p.ts >= start ==> exists i :: 0 <= i < |r| && r[i].ts <= p.ts < r[i].ts + win)
  }

  /** The same with the windows counted from the lower bound, or from the first point when that is
      zero. */
  ghost predicate WindowsFrom(r: seq<Point>, ps: seq<Point>, from: int64, win: int, agg: seq<uint64> -> uint64)
    requires win > 0 && ps != []
  {
    exists start :: StartsAt(start, if from == 0 then ps[0].ts else from, win) && Windowed(r, ps, start, win, agg)
  }

  lemma {:induction false} FirstStartsAt(base: int, win: int)
    requires win > 0
    ensures StartsAt(FirstBucket(base, win), base, win)
  {
    if base >= 0 {
      DivBounds(base, win);
      Aligned(base / win, win);
    } else {
      DivBounds(-base, win);
      Negated(-base / win, win);
      Aligned(-(-base / win), win);
    }
  }

  lemma {:induction false} WindowByBounds(
    ps: seq<Point>, start: int, win: int, agg: seq<uint64> -> uint64, q: Point)
    requires win > 0 && Sorted(ps) && start <= q.ts && (q.ts - start) % win == 0
    requires Bucket(ps, start, win, q.ts) != [] && q.bits == agg(Bucket(ps, start, win, q.ts))
    ensures WindowValue(q, ps, win, agg) && IsWindow(q.ts, start, win)
  {
    hide FirstAtLeast, Bucket, BucketOf, Sorted, IsWindow, Span, ValuesOf;
    AlignedIsWindow(start, win, q.ts);
    BucketIsSlice(ps, start, win, q.ts);
    var lo, hi := FirstAtLeast(ps, q.ts), FirstAtLeast(ps, q.ts + win);
    SliceTimes(ps, q.ts, q.ts + win);
    SliceSpans(ps, lo, hi, q.ts, win);
    SomeValues(ps[lo..hi]);
    SliceValues(ps, lo, hi);
  }

  lemma {:induction false} SliceValues(ps: seq<Point>, lo: nat, hi: nat)
    requires lo <= hi <= |ps|
    ensures ValuesOf(ps[lo..hi]) == seq(hi - lo, i requires 0 <= i < hi - lo => ps[lo + i].bits)
  {
  }

  lemma {:induction false} AlignedIsWindow(start: int, win: int, key: int)
    requires win > 0 && start <= key && (key - start) % win == 0
    ensures IsWindow(key, start, win)
  {
    hide IsWindow;
    var k := (key - start) / win;
    DivBounds(key - start, win);
    assert key - start == k * win + (key - start) % win;
    AlignedWindow(start, win, k);
  }

  lemma {:induction false} SliceSpans(ps: seq<Point>, lo: nat, hi: nat, t: int, n: int)
    requires lo <= hi <= |ps|
    requires forall p :: p in ps[..lo] ==> p.ts < t
    requires forall p :: p in ps[lo..hi] ==> t <= p.ts < t + n
    requires forall p :: p in ps[hi..] ==> p.ts >= t + n
    ensures Span(ps, lo, hi, t, n)
  {
    forall i | 0 <= i < |ps| ensures lo <= i < hi <==> t <= ps[i].ts < t + n {
      if i < lo {
        assert ps[..lo][i] == ps[i];
      } else if i < hi {
        assert ps[lo..hi][i - lo] == ps[i];
      } else {
        assert ps[hi..][i - hi] == ps[i];
      }
    }
  }

  /** The group-by, said by the bounds of its windows. */
  lemma {:induction false} GroupsByBounds(
    r: seq<Point>, ps: seq<Point>, from: int64, win: int, agg: seq<uint64> -> uint64)
    requires win > 0 && ps != [] && Sorted(ps)
    requires
      var start := FirstBucket(BaseOf(ps, from), win);
      AtWindows(r, start, win, ps[|ps| - 1].ts + 1) && GroupBy(r, ps, start, win, agg)
    ensures WindowsFrom(r, ps, from, win, agg)
  {
    hide Bucket, BucketOf, Sorted, FirstBucket, WindowValue;
    var start := FirstBucket(BaseOf(ps, from), win);
    FirstStartsAt(BaseOf(ps, from), win);
    forall i | 0 <= i < |r| ensures WindowValue(r[i], ps, win, agg) && IsWindow(r[i].ts, start, win) {
      WindowByBounds(ps, start, win, agg, r[i]);
    }
    forall p | p in ps && p.ts >= start ensures exists i :: 0 <= i < |r| && r[i].ts <= p.ts < r[i].ts + win {
      assert HasWindow(r, BucketOf(p.ts, start, win));
      var i :| 0 <= i < |r| && r[i].ts == BucketOf(p.ts, start, win);
      assert IsWindow(r[i].ts, start, win);
    }
    assert Windowed(r, ps, start, win, agg);
  }

  /** One pass over the windows from the first one up to the last point: one point for some of
      the windows, and for points in time order exactly the group-by. */
  method AggregatePoints(ps: seq<Point>, from: int64, window: int64, agg: seq<uint64> -> uint64)
    returns (result: seq<Point>)
    requires LastEndFits(ps, from, window)
    ensures ps == [] || window <= 0 ==> result == []
    ensures ps != [] && window > 0 ==>
              var start := FirstBucket(BaseOf(ps, from), window);
              && AtWindows(result, start, window, ps[|ps| - 1].ts + 1)
              && (Sorted(ps) ==> GroupBy(result, ps, start, window, agg))
    ensures ps != [] && window > 0 && Sorted(ps) ==> WindowsFrom(result, ps, from, window, agg)
  {
    hide Finished, FirstAtLeast, FirstBucket, BucketOf, GroupBy, AtWindows, Sorted, WindowsFrom;
    if |ps| == 0 || window <= 0 {
      return [];
    }
    var base := from;
    if base == 0 {
      base := ps[0].ts;
    }
    FirstBucketBound(base, window);
    var bucketStart: int64 := FirstBucket(base, window);
    ghost var start := bucketStart;
    var last := ps[|ps| - 1].ts;
    result := [];
    ghost var k := 0;
    NothingFinished(ps, start, window, agg);
    while bucketStart <= last
      invariant 0 <= k && bucketStart as int == start + k * window
      invariant AtWindows(result, start, window, bucketStart) && forall i :: 0 <= i < |result| ==> result[i].ts <= last
      invariant Sorted(ps) ==> Finished(result, ps, start, window, agg, bucketStart)
      decreases last - bucketStart
    {
      BeforeLast(start, window, k, last);
      FirstStep(start, window, k);
      var bucketEnd := Wrap(bucketStart + window);
      var lo := Search(ps, bucketStart);
      var hi := Search(ps, bucketEnd);
      ghost var q := Point(bucketStart, if lo < hi then agg(ValuesOf(ps[lo..hi])) else 0);
      OneWindow(result, ps, start, window, agg, k, q, lo, hi);
      if lo < hi {
        result := result + [Point(bucketStart, agg(ValuesOf(ps[lo..hi])))];
      }
      NextWindow(k, window);
      k := k + 1;
      bucketStart := bucketEnd;
    }
    if Sorted(ps) {
      AllFinished(result, ps, start, window, agg, bucketStart);
    }
    NoneLater(result, start, window, bucketStart, last);
    if Sorted(ps) {
      GroupsByBounds(result, ps, from, window, agg);
    }
  }

  lemma {:induction false} FirstStep(start: int, win: int, k: nat)
    requires win > 0
    ensures start <= start + k * win
  {
    ProductNotNegative(k, win);
  }

  lemma {:induction false} NoneLater(r: seq<Point>, start: int, win: int, done: int, last: int)
    requires win > 0 && AtWindows(r, start, win, done) && forall i :: 0 <= i < |r| ==> r[i].ts <= last
    ensures AtWindows(r, start, win, last + 1)
  {
  }

  lemma {:induction false} NothingFinished(ps: seq<Point>, start: int, win: int, agg: seq<uint64> -> uint64)
    requires win > 0
    ensures Finished([], ps, start, win, agg, start) && AtWindows([], start, win, start)
  {
  }

  lemma {:induction false} AllFinished(
    r: seq<Point>, ps: seq<Point>, start: int, win: int, agg: seq<uint64> -> uint64, done: int)
    requires win > 0 && Sorted(ps) && ps != [] && ps[|ps| - 1].ts < done
    requires Finished(r, ps, start, win, agg, done)
    ensures GroupBy(r, ps, start, win, agg)
  {
    hide Bucket, BucketOf;
    AllBefore(ps, ps[|ps| - 1].ts);
  }

  lemma {:induction false} NextWindow(k: nat, win: int)
    ensures (k + 1) * win == k * win + win
  {
  }

  lemma {:induction false} AllBefore(ps: seq<Point>, last: int)
    requires Sorted(ps) && ps != [] && last == ps[|ps| - 1].ts
    ensures forall p :: p in ps ==> p.ts <= last
  {
  }

  lemma {:induction false} FirstBucketBound(base: int, win: int)
    requires win > 0
    ensures base >= 0 ==> 0 <= FirstBucket(base, win) <= base
    ensures base < 0 ==> base <= FirstBucket(base, win) <= 0
  {
    if base >= 0 {
      DivBounds(base, win);
      NonNegative(base, win);
    } else {
      DivBounds(-base, win);
      NonNegative(-base, win);
      Negated(-base / win, win);
    }
  }

  lemma {:induction false} NonNegative(x: int, n: int)
    requires x >= 0 && n > 0
    ensures x / n * n >= 0
  {
    assert x / n >= 0;
  }

  lemma {:induction false} Negated(a: int, n: int)
    ensures (-a) * n == -(a * n)
  {
  }

  // ---- what the result means ----

  /** For a base that is not negative the windows are the multiples of the window length and
      a point belongs to ts/win*win. */
  lemma {:induction false} PlainWindows(base: int, win: int, ts: int)
    requires win > 0 && base >= 0
    ensures FirstBucket(base, win) % win == 0
    ensures BucketOf(ts, FirstBucket(base, win), win) == ts / win * win
  {
    var q, t := base / win, ts / win;
    DivBounds(base, win);
    DivBounds(ts, win);
    Distribute(t, q, win);
    QuotientUnique(ts - q * win, win, t - q);
    Aligned(q, win);
  }

  lemma {:induction false} Aligned(q: int, n: int)
    requires n > 0
    ensures q * n % n == 0
  {
    var x := q * n;
    QuotientUnique(x, n, q);
    assert x == x / n * n + x % n;
  }

  /** No point is skipped exactly when the first window starts at or before the first point. */
  lemma {:induction false} NothingSkipped(ps: seq<Point>, start: int)
    requires Sorted(ps) && ps != []
    ensures (forall p :: p in ps ==> p.ts >= start) <==> start <= ps[0].ts
  {
    assert ps[0] in ps;
    if start <= ps[0].ts {
      forall p | p in ps ensures p.ts >= start {
        var i :| 0 <= i < |ps| && ps[i] == p;
      }
    }
  }

  /** Without a lower bound that holds exactly when the first timestamp is not negative or is
      a multiple of the window: division toward zero starts late for other negative ones. */
  lemma {:induction false} SkipsNegativeStart(first: int, win: int)
    requires win > 0
    ensures FirstBucket(first, win) <= first <==> first >= 0 || first % win == 0
  {
    if first >= 0 {
      FirstBucketBound(first, win);
    } else {
      var q := -first / win;
      DivBounds(-first, win);
      Negated(q, win);
      if -(q * win) <= first {
        Aligned(-q, win);
      } else if first % win == 0 {
        var t := first / win;
        assert first == t * win + first % win;
        Negated(t, win);
        QuotientUnique(-first, win, -t);
      }
    }
  }

  lemma {:induction false} BucketWitness(ps: seq<Point>, start: int, win: int, key: int)
    requires win > 0 && Bucket(ps, start, win, key) != []
    ensures exists p :: p in ps && p.ts >= start && BucketOf(p.ts, start, win) == key
  {
    hide BucketOf;
    if ps[0].ts >= start && BucketOf(ps[0].ts, start, win) == key {
      assert ps[0] in ps;
    } else {
      BucketWitness(ps[1..], start, win, key);
      var p :| p in ps[1..] && p.ts >= start && BucketOf(p.ts, start, win) == key;
      assert p in ps;
    }
  }

  /** Every window of r is a window of s. */
  ghost predicate Covers(s: seq<Point>, r: seq<Point>) {
    forall i :: 0 <= i < |r| ==> HasWindow(s, r[i].ts)
  }

  lemma {:induction false} GroupByCovers(
    r: seq<Point>, s: seq<Point>, ps: seq<Point>, start: int, win: int, agg: seq<uint64> -> uint64)
    requires win > 0 && GroupBy(r, ps, start, win, agg) && GroupBy(s, ps, start, win, agg)
    ensures Covers(s, r)
  {
    hide Bucket, BucketOf;
    forall i | 0 <= i < |r| ensures HasWindow(s, r[i].ts) {
      BucketWitness(ps, start, win, r[i].ts);
    }
  }

  /** The group-by is determined by its definition: there is only one. */
  lemma {:induction false} GroupByUnique(
    r: seq<Point>, s: seq<Point>, ps: seq<Point>, start: int, win: int, agg: seq<uint64> -> uint64)
    requires win > 0 && GroupBy(r, ps, start, win, agg) && GroupBy(s, ps, start, win, agg)
    ensures r == s
  {
    hide Bucket, BucketOf, Covers;
    GroupByCovers(r, s, ps, start, win, agg);
    GroupByCovers(s, r, ps, start, win, agg);
    SameTimes(r, s);
    forall i | 0 <= i < |r| ensures r[i] == s[i] {
      assert r[i].bits == agg(Bucket(ps, start, win, r[i].ts)) == s[i].bits;
    }
  }

  lemma {:induction false} SameTimes(r: seq<Point>, s: seq<Point>)
    requires Increasing(r) && Increasing(s) && Covers(s, r) && Covers(r, s)
    ensures |r| == |s| && forall i :: 0 <= i < |r| ==> r[i].ts == s[i].ts
    decreases |r|
  {
    hide Covers;
    BothEmpty(r, s);
    if r != [] {
      var m, n := |r| - 1, |s| - 1;
      SameLast(r, s);
      WithoutLast(r, s);
      WithoutLast(s, r);
      SameTimes(r[..m], s[..n]);
      forall i | 0 <= i < m ensures r[i].ts == s[i].ts {
        assert r[..m][i].ts == s[..n][i].ts;
      }
    }
  }

  lemma {:induction false} BothEmpty(r: seq<Point>, s: seq<Point>)
    requires Covers(s, r) && Covers(r, s)
    ensures r == [] <==> s == []
  {
    assert r != [] ==> HasWindow(s, r[0].ts);
    assert s != [] ==> HasWindow(r, s[0].ts);
  }

  lemma {:induction false} SameLast(r: seq<Point>, s: seq<Point>)
    requires Increasing(r) && Increasing(s) && Covers(s, r) && Covers(r, s) && r != [] && s != []
    ensures r[|r| - 1].ts == s[|s| - 1].ts
  {
    assert HasWindow(s, r[|r| - 1].ts);
    assert HasWindow(r, s[|s| - 1].ts);
  }

  lemma {:induction false} WithoutLast(r: seq<Point>, s: seq<Point>)
    requires Increasing(r) && Increasing(s) && r != [] && s != [] && r[|r| - 1].ts == s[|s| - 1].ts
    requires Covers(s, r)
    ensures Increasing(r[..|r| - 1]) && Covers(s[..|s| - 1], r[..|r| - 1])
  {
    var r', s' := r[..|r| - 1], s[..|s| - 1];
    forall i | 0 <= i < |r'| ensures HasWindow(s', r'[i].ts) {
      assert HasWindow(s, r[i].ts);
      var j :| 0 <= j < |s| && s[j].ts == r[i].ts;
      assert s'[j].ts == r[i].ts;
    }
  }

  /** The sizes of the windows in the result. */
  ghost function Total(r: seq<Point>, ps: seq<Point>, start: int, win: int): nat
    requires win > 0
    decreases r
  {
    if r == [] then 0 else |Bucket(ps, start, win, r[0].ts)| + Total(r[1..], ps, start, win)
  }

  lemma {:induction false} TotalStep(r: seq<Point>, p: Point, ps: seq<Point>, start: int, win: int)
    requires win > 0 && Increasing(r) && p.ts >= start
    ensures Total(r, [p] + ps, start, win)
         == Total(r, ps, start, win) + (if HasWindow(r, BucketOf(p.ts, start, win)) then 1 else 0)
    decreases r
  {
    hide BucketOf;
    if r != [] {
      var key := BucketOf(p.ts, start, win);
      assert ([p] + ps)[1..] == ps;
      TotalStep(r[1..], p, ps, start, win);
      HasWindowStep(r, key);
    }
  }

  lemma {:induction false} HasWindowStep(r: seq<Point>, key: int)
    requires r != [] && Increasing(r)
    ensures HasWindow(r, key) <==> r[0].ts == key || HasWindow(r[1..], key)
    ensures r[0].ts == key ==> !HasWindow(r[1..], key)
  {
    if HasWindow(r[1..], key) {
      var i :| 0 <= i < |r[1..]| && r[1..][i].ts == key;
      assert r[i + 1].ts == key;
    }
    if HasWindow(r, key) && r[0].ts != key {
      var i :| 0 <= i < |r| && r[i].ts == key;
      assert r[1..][i - 1].ts == key;
    }
  }

  lemma {:induction false} TotalEmpty(r: seq<Point>, start: int, win: int)
    requires win > 0
    ensures Total(r, [], start, win) == 0
    decreases r
  {
    if r != [] {
      TotalEmpty(r[1..], start, win);
    }
  }

  lemma {:induction false} TotalIsAll(r: seq<Point>, ps: seq<Point>, start: int, win: int)
    requires win > 0 && Increasing(r)
    requires forall p :: p in ps ==> p.ts >= start && HasWindow(r, BucketOf(p.ts, start, win))
    ensures Total(r, ps, start, win) == |ps|
    decreases ps
  {
    hide BucketOf;
    if ps == [] {
      TotalEmpty(r, start, win);
    } else {
      assert ps[0] in ps;
      TotalStep(r, ps[0], ps[1..], start, win);
      TotalIsAll(r, ps[1..], start, win);
      assert ps == [ps[0]] + ps[1..];
    }
  }

  /** Every point is counted in exactly one window. */
  lemma {:induction false} CountsSum(r: seq<Point>, ps: seq<Point>, start: int, win: int, agg: seq<uint64> -> uint64)
    requires win > 0 && Sorted(ps) && ps != [] && start <= ps[0].ts
    requires GroupBy(r, ps, start, win, agg)
    ensures Total(r, ps, start, win) == |ps|
  {
    NothingSkipped(ps, start);
    TotalIsAll(r, ps, start, win);
  }
}
