/** The window loop when the end of a window wraps around, step by step. */
module WindowWrap {
  import opened Words
  import opened Model
  import opened Points
  import opened Aggregate

  /** The variables of the loop. */
  datatype Loop = Loop(bucketStart: int64, result: seq<Point>)

  /** One turn of the loop over points in time order. */
  ghost function Turn(l: Loop, ps: seq<Point>, window: int64, agg: seq<uint64> -> uint64): Loop {
    var bucketEnd := Wrap(l.bucketStart + window);
    var lo, hi := FirstAtLeast(ps, l.bucketStart), FirstAtLeast(ps, bucketEnd);
    Loop(bucketEnd, if lo < hi then l.result + [Point(l.bucketStart, agg(ValuesOf(ps[lo..hi])))] else l.result)
  }

  ghost function Start(ps: seq<Point>, from: int64, window: int64): int64
    requires ps != [] && window > 0
  {
    FirstBucketBound(BaseOf(ps, from), window);
    FirstBucket(BaseOf(ps, from), window)
  }

  /** The variables after n turns. */
  ghost function After(ps: seq<Point>, from: int64, window: int64, agg: seq<uint64> -> uint64, n: nat): Loop
    requires ps != [] && window > 0
  {
    if n == 0 then Loop(Start(ps, from, window), []) else Turn(After(ps, from, window, agg, n - 1), ps, window, agg)
  }

  /** The loop ends after n turns. */
  ghost predicate EndsAt(ps: seq<Point>, from: int64, window: int64, agg: seq<uint64> -> uint64, n: nat)
    requires ps != [] && window > 0
  {
    var last := ps[|ps| - 1].ts;
    && After(ps, from, window, agg, n).bucketStart > last
    && forall m :: 0 <= m < n ==> After(ps, from, window, agg, m).bucketStart <= last
  }

  // ---- when the last end fits ----

  /** One turn finishes one window. */
  lemma {:induction false} TurnFinishes(
    l: Loop, ps: seq<Point>, start: int, window: int64, agg: seq<uint64> -> uint64, k: nat)
    requires ps != [] && window > 0 && Sorted(ps) && l.bucketStart as int == start + k * window
    requires l.bucketStart + window < TWO_63
    requires Finished(l.result, ps, start, window, agg, l.bucketStart)
    requires AtWindows(l.result, start, window, l.bucketStart)
    ensures
      var l' := Turn(l, ps, window, agg);
      && l'.bucketStart as int == l.bucketStart + window
      && Finished(l'.result, ps, start, window, agg, l'.bucketStart)
      && AtWindows(l'.result, start, window, l'.bucketStart)
  {
    hide Finished, AtWindows, FirstAtLeast, Sorted, ValuesOf;
    var lo, hi := FirstAtLeast(ps, l.bucketStart), FirstAtLeast(ps, l.bucketStart + window);
    var q := Point(l.bucketStart, if lo < hi then agg(ValuesOf(ps[lo..hi])) else 0);
    OneWindow(l.result, ps, start, window, agg, k, q, lo, hi);
  }

  lemma {:induction false} TurnsFinish(ps: seq<Point>, from: int64, window: int64, agg: seq<uint64> -> uint64, n: nat)
    requires ps != [] && window > 0 && Sorted(ps) && LastEndFits(ps, from, window)
    requires n > 0 ==> Start(ps, from, window) + (n - 1) * window <= ps[|ps| - 1].ts
    ensures
      var l := After(ps, from, window, agg, n);
      && l.bucketStart as int == Start(ps, from, window) + n * window
      && Finished(l.result, ps, Start(ps, from, window), window, agg, l.bucketStart)
      && AtWindows(l.result, Start(ps, from, window), window, l.bucketStart)
    decreases n
  {
    hide Finished, AtWindows, Sorted, Turn, Start, LastEndFits;
    var start, last := Start(ps, from, window), ps[|ps| - 1].ts;
    if n == 0 {
      NothingFinished(ps, start, window, agg);
    } else {
      if n > 1 {
        NextWindow(n - 2, window);
      }
      TurnsFinish(ps, from, window, agg, n - 1);
      var l := After(ps, from, window, agg, n - 1);
      EndBelow(ps, from, window, n - 1);
      TurnFinishes(l, ps, start, window, agg, n - 1);
      NextWindow(n - 1, window);
    }
  }

  /** Up to the window of the last point no end wraps around. */
  lemma {:induction false} EndBelow(ps: seq<Point>, from: int64, window: int64, k: nat)
    requires ps != [] && window > 0 && LastEndFits(ps, from, window)
    requires Start(ps, from, window) + k * window <= ps[|ps| - 1].ts
    ensures Start(ps, from, window) + k * window + window < TWO_63
  {
    hide FirstBucket, BucketOf;
    BeforeLast(Start(ps, from, window), window, k, ps[|ps| - 1].ts);
    FirstStep(Start(ps, from, window), window, k);
  }

  lemma {:induction false} TurnsBelow(
    ps: seq<Point>, from: int64, window: int64, agg: seq<uint64> -> uint64, n: nat, m: nat)
    requires ps != [] && window > 0 && Sorted(ps) && LastEndFits(ps, from, window) && m < n
    requires Start(ps, from, window) + (n - 1) * window <= ps[|ps| - 1].ts
    ensures After(ps, from, window, agg, m).bucketStart <= ps[|ps| - 1].ts
  {
    hide Finished, AtWindows, FirstAtLeast, FirstBucket, BucketOf, Sorted;
    MulLess(m, n - 1, window);
    if m > 0 {
      MulLess(m - 1, n - 1, window);
    }
    TurnsFinish(ps, from, window, agg, m);
  }

  lemma {:induction false} MulLess(a: int, b: int, n: int)
    requires a <= b && n > 0
    ensures a * n <= b * n
  {
    if a < b {
      MulStep(a, b, n);
    }
  }

  /** The number of windows from the first one to the one that holds the last point. */
  function Count(start: int, win: int, last: int): (n: nat)
    requires win > 0
  {
    if start > last then 0
    else
      assert (last - start) / win >= 0;
      (last - start) / win + 1
  }

  /** The loop ends with the group-by. */
  lemma {:induction false} FittingEnds(
    ps: seq<Point>, from: int64, window: int64, agg: seq<uint64> -> uint64) returns (n: nat)
    requires ps != [] && window > 0 && Sorted(ps) && LastEndFits(ps, from, window)
    ensures EndsAt(ps, from, window, agg, n)
    ensures GroupBy(After(ps, from, window, agg, n).result, ps, Start(ps, from, window), window, agg)
  {
    hide Finished, AtWindows, FirstAtLeast, FirstBucket, GroupBy, Sorted, After, LastEndFits, Start;
    var start: int, last: int := Start(ps, from, window), ps[|ps| - 1].ts;
    n := Count(start, window, last);
    if start <= last {
      DivBounds(last - start, window);
      NextWindow(n - 1, window);
    }
    TurnsFinish(ps, from, window, agg, n);
    forall m | 0 <= m < n ensures After(ps, from, window, agg, m).bucketStart <= last {
      TurnsBelow(ps, from, window, agg, n, m);
    }
    var l := After(ps, from, window, agg, n);
    AllFinished(l.result, ps, start, window, agg, l.bucketStart);
  }

  // ---- when the last end wraps around ----

  /** The window of the last point: its end, when it does not fit, is before its start. */
  lemma {:induction false} WrappedEnd(ps: seq<Point>, from: int64, window: int64)
    requires ps != [] && window > 0 && !LastEndFits(ps, from, window)
    ensures
      var start, last := Start(ps, from, window), ps[|ps| - 1].ts;
      var key := BucketOf(last, start, window);
      start <= key <= last < TWO_63 <= key + window
  {
    BeforeLast(Start(ps, from, window), window, 0, ps[|ps| - 1].ts);
  }

  /** The window of the last point is never in the result, however long the loop goes on. */
  lemma {:induction false} LastIsLost(ps: seq<Point>, from: int64, window: int64, agg: seq<uint64> -> uint64, n: nat)
    requires ps != [] && window > 0 && Sorted(ps) && !LastEndFits(ps, from, window)
    ensures
      var key := BucketOf(ps[|ps| - 1].ts, Start(ps, from, window), window);
      forall q :: q in After(ps, from, window, agg, n).result ==> q.ts != key
    decreases n
  {
    hide FirstAtLeast, FirstBucket, BucketOf, Sorted, ValuesOf, LastEndFits, Start;
    if n > 0 {
      LastIsLost(ps, from, window, agg, n - 1);
      WrappedEnd(ps, from, window);
      var l := After(ps, from, window, agg, n - 1);
      if l.bucketStart == BucketOf(ps[|ps| - 1].ts, Start(ps, from, window), window) {
        SearchesOrdered(ps, Wrap(l.bucketStart + window), l.bucketStart);
      }
    }
  }

  /** Exactly: the loop ends with the group-by of its points if and only if the end of the last
      window that it comes to fits int64. Otherwise it loses that window: the end wraps around to
      a negative time, the search for it finds nothing after the start, and the loop goes on from
      there. */
  lemma {:induction false} GroupsExactly(ps: seq<Point>, from: int64, window: int64, agg: seq<uint64> -> uint64)
    requires ps != [] && window > 0 && Sorted(ps)
    ensures LastEndFits(ps, from, window)
       <==> exists n :: EndsAt(ps, from, window, agg, n)
                        && GroupBy(After(ps, from, window, agg, n).result, ps, Start(ps, from, window), window, agg)
  {
    hide EndsAt, GroupBy, After, LastEndFits, Start, Sorted;
    if LastEndFits(ps, from, window) {
      var n := FittingEnds(ps, from, window, agg);
    } else {
      forall n: nat ensures !GroupBy(After(ps, from, window, agg, n).result, ps, Start(ps, from, window), window, agg) {
        LastIsLost(ps, from, window, agg, n);
        WrappedEnd(ps, from, window);
        NotGrouped(After(ps, from, window, agg, n).result, ps, Start(ps, from, window), window, agg);
      }
    }
  }

  lemma {:induction false} NotGrouped(
    r: seq<Point>, ps: seq<Point>, start: int, win: int, agg: seq<uint64> -> uint64)
    requires win > 0 && ps != [] && ps[|ps| - 1].ts >= start
    requires forall q :: q in r ==> q.ts != BucketOf(ps[|ps| - 1].ts, start, win)
    ensures !GroupBy(r, ps, start, win, agg)
  {
    hide Bucket, BucketOf;
    assert ps[|ps| - 1] in ps;
  }

  /** The turn goes from one window start to the next, modulo 2^64. */
  lemma {:induction false} NextStart(ps: seq<Point>, from: int64, window: int64, agg: seq<uint64> -> uint64, n: nat)
    requires ps != [] && window > 0 && n > 0
    ensures
      var b, b' := After(ps, from, window, agg, n - 1).bucketStart, After(ps, from, window, agg, n).bucketStart;
      b' == b + window || (b + window >= TWO_63 && b' == b + window - TWO_64)
  {
    hide FirstAtLeast, ValuesOf, Start;
  }

  /** With a last point at the largest time, or with a window length that divides 2^64, the loop
      never ends when it goes wrong. */
  lemma {:induction false} NeverEnds(ps: seq<Point>, from: int64, window: int64, agg: seq<uint64> -> uint64, n: nat)
    requires ps != [] && window > 0 && !LastEndFits(ps, from, window)
    requires ps[|ps| - 1].ts == TWO_63 - 1 || TWO_64 % window == 0
    ensures After(ps, from, window, agg, n).bucketStart <= ps[|ps| - 1].ts
    decreases n
  {
    hide FirstAtLeast, ValuesOf, LastEndFits, Start, After;
    if TWO_64 % window == 0 {
      var _ := InWindow(ps, from, window, agg, n);
    }
  }

  lemma {:induction false} InWindow(
    ps: seq<Point>, from: int64, window: int64, agg: seq<uint64> -> uint64, n: nat) returns (k: int)
    requires ps != [] && window > 0 && !LastEndFits(ps, from, window) && TWO_64 % window == 0
    ensures
      var b := After(ps, from, window, agg, n).bucketStart;
      b as int == Start(ps, from, window) + k * window && b <= ps[|ps| - 1].ts
    decreases n
  {
    hide FirstAtLeast, ValuesOf, LastEndFits, Start, BucketOf, Turn;
    WrappedEnd(ps, from, window);
    k := 0;
    if n > 0 {
      var j := InWindow(ps, from, window, agg, n - 1);
      var start, last := Start(ps, from, window), ps[|ps| - 1].ts;
      NextStart(ps, from, window, agg, n);
      BeforeLast(start, window, j, last);
      var b := After(ps, from, window, agg, n - 1).bucketStart;
      Distribute(j, -1, window);
      if After(ps, from, window, agg, n).bucketStart == b + window {
        k := j + 1;
        SameWindow(start, window, j, last);
      } else {
        k := j + 1 - TWO_64 / window;
        Distribute(j + 1, TWO_64 / window, window);
        assert TWO_64 / window * window == TWO_64;
      }
    }
  }

  /** A window that starts at or before a time but does not end after it is before that time's. */
  lemma {:induction false} SameWindow(start: int, win: int, j: int, last: int)
    requires win > 0 && start + j * win <= last
    ensures start + j * win + win > last ==> BucketOf(last, start, win) == start + j * win
  {
    hide BucketOf;
    WindowHolds(last, start, win, j);
  }
}
