/** Point lists in time order: insertion, binary search and range filters. */
module Points {
  import opened Words
  import opened Model

  ghost predicate Sorted(ps: seq<Point>) {
    forall i, j :: 0 <= i < j < |ps| ==> ps[i].ts <= ps[j].ts
  }

  ghost predicate AllAbove(ps: seq<Point>, t: int) {
    forall p :: p in ps ==> p.ts > t
  }

  ghost predicate AllAtMost(ps: seq<Point>, t: int) {
    forall p :: p in ps ==> p.ts <= t
  }

  /** The number of leading points before time t. */
  function FirstAtLeast(ps: seq<Point>, t: int): (i: nat)
    ensures i <= |ps|
    ensures forall j :: 0 <= j < i ==> ps[j].ts < t
    ensures i < |ps| ==> ps[i].ts >= t
  {
    if ps == [] || ps[0].ts >= t then 0 else 1 + FirstAtLeast(ps[1..], t)
  }

  /** sort.Search for a point at or after t: an end of the list or a place where the timestamps
      pass t, and in a list in time order the first such point. */
  method Search(ps: seq<Point>, t: int) returns (i: nat)
    ensures i <= |ps| && (i > 0 ==> ps[i - 1].ts < t) && (i < |ps| ==> ps[i].ts >= t)
    ensures Sorted(ps) ==> i == FirstAtLeast(ps, t)
  {
    i := 0;
    var j := |ps|;
    while i < j
      invariant 0 <= i <= j <= |ps|
      invariant (i > 0 ==> ps[i - 1].ts < t) && (j < |ps| ==> ps[j].ts >= t)
    {
      var h := (i + j) / 2;
      if !(ps[h].ts >= t) {
        i := h + 1;
      } else {
        j := h;
      }
    }
    if Sorted(ps) {
      FirstUnique(ps, t, i);
    }
  }

  lemma {:induction false} FirstUnique(ps: seq<Point>, t: int, i: nat)
    requires i <= |ps|
    requires forall j :: 0 <= j < i ==> ps[j].ts < t
    requires i < |ps| ==> ps[i].ts >= t
    ensures i == FirstAtLeast(ps, t)
  {
  }

  lemma {:induction false} NoneSorted()
    ensures Sorted([])
  {
  }

  // ---- insertion ----

  /** Where a point goes: at the end when it is not older than the last one, otherwise
      before the first point that is not older than it. */
  function Insert(ps: seq<Point>, p: Point): seq<Point> {
    if ps == [] || ps[|ps| - 1].ts <= p.ts then ps + [p]
    else
      var i := FirstAtLeast(ps, p.ts);
      ps[..i] + [p] + ps[i..]
  }

  /** Where the new point is: at the end, after those of its time, when it is not older than any;
      otherwise after exactly the older ones, before those of its time. */
  ghost predicate InPlace(ps: seq<Point>, p: Point, qs: seq<Point>) {
    if forall q :: q in ps ==> q.ts <= p.ts then qs == ps + [p]
    else
      exists a, b :: ps == a + b && qs == a + [p] + b
        && (forall q :: q in a ==> q.ts < p.ts) && (forall q :: q in b ==> q.ts >= p.ts)
  }

  lemma {:induction false} InsertPlace(ps: seq<Point>, p: Point)
    requires Sorted(ps)
    ensures InPlace(ps, p, Insert(ps, p))
  {
    hide FirstAtLeast, Sorted;
    if ps == [] || ps[|ps| - 1].ts <= p.ts {
      LastIsLatest(ps);
    } else {
      var i := FirstAtLeast(ps, p.ts);
      assert ps[|ps| - 1] in ps;
      LaterPart(ps, p.ts);
      assert ps == ps[..i] + ps[i..];
    }
  }

  lemma {:induction false} LastIsLatest(ps: seq<Point>)
    requires Sorted(ps)
    ensures forall q :: q in ps ==> q.ts <= ps[|ps| - 1].ts
  {
  }

  lemma {:induction false} LaterPart(ps: seq<Point>, t: int)
    requires Sorted(ps)
    ensures forall q :: q in ps[..FirstAtLeast(ps, t)] ==> q.ts < t
    ensures forall q :: q in ps[FirstAtLeast(ps, t)..] ==> q.ts >= t
  {
    hide FirstAtLeast;
  }

  /** Appends, or makes room by shifting the later points one place to the right. */
  method InsertPointSorted(points: seq<Point>, p: Point) returns (ps: seq<Point>)
    requires Sorted(points)
    ensures ps == Insert(points, p) && InPlace(points, p, ps)
  {
    hide InPlace;
    InsertPlace(points, p);
    ps := points;
    var n := |ps|;
    if n == 0 || ps[n - 1].ts <= p.ts {
      ps := ps + [p];
      return;
    }
    var i := Search(ps, p.ts);
    if i == n {
      ps := ps + [p];
      return;
    }
    Shifted(points, p, i);
    ps := ps + [Point(0, 0)];
    ps := ps[..i + 1] + ps[i..n];
    ps := ps[i := p];
  }

  /** Making room at place i and writing the point there is inserting it. */
  lemma {:induction false} Shifted(points: seq<Point>, p: Point, i: nat)
    requires i < |points|
    ensures
      var wide := points + [Point(0, 0)];
      var moved := wide[..i + 1] + wide[i..|points|];
      |moved| == |points| + 1 && moved[i := p] == points[..i] + [p] + points[i..]
  {
  }

  /** Insertion keeps time order and adds exactly the one point. */
  lemma {:induction false} InsertKeepsOrder(ps: seq<Point>, p: Point)
    requires Sorted(ps)
    ensures Sorted(Insert(ps, p))
    ensures multiset(Insert(ps, p)) == multiset(ps) + multiset{p}
  {
    hide FirstAtLeast;
    if ps != [] && ps[|ps| - 1].ts > p.ts {
      var i := FirstAtLeast(ps, p.ts);
      assert ps == ps[..i] + ps[i..];
    }
  }

  function InsertAll(ps: seq<Point>, more: seq<Point>): seq<Point>
    decreases more
  {
    if more == [] then ps else InsertAll(Insert(ps, more[0]), more[1..])
  }

  lemma {:induction false} InsertAllKeepsOrder(ps: seq<Point>, more: seq<Point>)
    requires Sorted(ps)
    ensures Sorted(InsertAll(ps, more))
    ensures multiset(InsertAll(ps, more)) == multiset(ps) + multiset(more)
    decreases more
  {
    if more != [] {
      InsertKeepsOrder(ps, more[0]);
      InsertAllKeepsOrder(Insert(ps, more[0]), more[1..]);
      assert more == [more[0]] + more[1..];
    }
  }

  /** Points that do not step back in time are kept in the order of their insertion. */
  lemma {:induction false} InsertAllInOrder(ps: seq<Point>, more: seq<Point>)
    requires Sorted(ps + more)
    ensures InsertAll(ps, more) == ps + more
    decreases more
  {
    hide Insert;
    if more != [] {
      var all := ps + more;
      assert forall i :: 0 <= i < |ps| ==> ps[i] == all[i];
      assert all[|ps|] == more[0];
      InsertPlace(ps, more[0]);
      assert forall q :: q in ps ==> q.ts <= more[0].ts;
      assert ps + [more[0]] + more[1..] == all;
      InsertAllInOrder(ps + [more[0]], more[1..]);
    } else {
      assert ps + more == ps;
    }
  }

  lemma {:induction false} InsertAllAppend(ps: seq<Point>, a: seq<Point>, b: seq<Point>)
    ensures InsertAll(ps, a + b) == InsertAll(InsertAll(ps, a), b)
    decreases a
  {
    hide Insert;
    if a == [] {
      assert a + b == b;
    } else {
      InsertAllAppend(Insert(ps, a[0]), a[1..], b);
      assert (a + b)[1..] == a[1..] + b;
    }
  }

  /** Inserts the points one by one. */
  method InsertPoints(points: seq<Point>, more: seq<Point>) returns (ps: seq<Point>)
    requires Sorted(points)
    ensures ps == InsertAll(points, more)
    ensures Sorted(points + more) ==> ps == points + more
  {
    hide Insert, Sorted;
    if Sorted(points + more) {
      InsertAllInOrder(points, more);
    }
    ps := points;
    var i := 0;
    while i < |more|
      invariant 0 <= i <= |more|
      invariant Sorted(ps) && InsertAll(points, more) == InsertAll(ps, more[i..])
    {
      InsertKeepsOrder(ps, more[i]);
      assert more[i..][1..] == more[i + 1..];
      ps := InsertPointSorted(ps, more[i]);
      i := i + 1;
    }
  }

  /** A point later than everything in `early` only moves points after `early`. */
  lemma {:induction false} InsertAfter(early: seq<Point>, ps: seq<Point>, p: Point, t: int)
    requires AllAtMost(early, t) && AllAbove(ps, t) && p.ts > t
    ensures Insert(early + ps, p) == early + Insert(ps, p)
  {
    hide FirstAtLeast, AllAbove;
    assert ps != [] ==> ps[|ps| - 1] in ps;
    var all := early + ps;
    if ps == [] {
      assert all == early;
      assert early != [] ==> early[|early| - 1] in early;
    } else if ps[|ps| - 1].ts > p.ts {
      SearchAfter(early, ps, p.ts);
      SpliceAfter(early, ps, p, FirstAtLeast(ps, p.ts));
    } else {
      assert all + [p] == early + (ps + [p]);
    }
  }

  lemma {:induction false} SpliceAfter(early: seq<Point>, ps: seq<Point>, p: Point, i: nat)
    requires i <= |ps|
    ensures
      var all := early + ps;
      all[..|early| + i] + [p] + all[|early| + i..] == early + (ps[..i] + [p] + ps[i..])
  {
    var all := early + ps;
    assert all[..|early| + i] == early + ps[..i];
    assert all[|early| + i..] == ps[i..];
  }

  lemma {:induction false} SearchAfter(early: seq<Point>, ps: seq<Point>, t: int)
    requires AllAtMost(early, t - 1)
    ensures FirstAtLeast(early + ps, t) == |early| + FirstAtLeast(ps, t)
  {
    hide FirstAtLeast;
    var all, i := early + ps, FirstAtLeast(ps, t);
    forall j | 0 <= j < |early| + i ensures all[j].ts < t {
      if j < |early| {
        assert all[j] in early;
      }
    }
    FirstUnique(all, t, |early| + i);
  }

  lemma {:induction false} InsertAbove(ps: seq<Point>, p: Point, t: int)
    requires AllAbove(ps, t) && p.ts > t
    ensures AllAbove(Insert(ps, p), t)
  {
    if ps != [] && ps[|ps| - 1].ts > p.ts {
      var i := FirstAtLeast(ps, p.ts);
      assert ps == ps[..i] + ps[i..];
    }
  }

  lemma {:induction false} InsertAllAfter(early: seq<Point>, ps: seq<Point>, more: seq<Point>, t: int)
    requires AllAtMost(early, t) && AllAbove(ps, t) && AllAbove(more, t)
    ensures InsertAll(early + ps, more) == early + InsertAll(ps, more)
    ensures AllAbove(InsertAll(ps, more), t)
    decreases more
  {
    if more != [] {
      InsertAfter(early, ps, more[0], t);
      InsertAbove(ps, more[0], t);
      InsertAllAfter(early, Insert(ps, more[0]), more[1..], t);
    }
  }

  // ---- cutting by time ----

  /** The points after time t of a list in time order. */
  function After(ps: seq<Point>, t: int): seq<Point> {
    ps[FirstAtLeast(ps, t + 1)..]
  }

  lemma {:induction false} AfterIsAbove(ps: seq<Point>, t: int)
    requires Sorted(ps)
    ensures AllAbove(After(ps, t), t) && Sorted(After(ps, t))
    ensures AllAtMost(ps[..FirstAtLeast(ps, t + 1)], t)
    ensures ps == ps[..FirstAtLeast(ps, t + 1)] + After(ps, t)
  {
  }

  lemma {:induction false} AfterOfAbove(ps: seq<Point>, t: int)
    requires AllAbove(ps, t)
    ensures After(ps, t) == ps
  {
  }

  lemma {:induction false} AfterOfAtMost(ps: seq<Point>, t: int)
    requires AllAtMost(ps, t)
    ensures After(ps, t) == []
  {
    forall j | 0 <= j < |ps| ensures ps[j].ts < t + 1 {
      assert ps[j] in ps;
    }
    FirstUnique(ps, t + 1, |ps|);
  }

  lemma {:induction false} AfterConcat(early: seq<Point>, ps: seq<Point>, t: int)
    requires AllAtMost(early, t)
    ensures After(early + ps, t) == After(ps, t)
  {
    SearchAfter(early, ps, t + 1);
    assert (early + ps)[|early| + FirstAtLeast(ps, t + 1)..] == After(ps, t);
  }

  /** Inserting points after t into a list changes only its part after t. */
  lemma {:induction false} AfterInsertAll(ps: seq<Point>, more: seq<Point>, t: int)
    requires Sorted(ps) && AllAbove(more, t)
    ensures After(InsertAll(ps, more), t) == InsertAll(After(ps, t), more)
  {
    AfterIsAbove(ps, t);
    var early := ps[..FirstAtLeast(ps, t + 1)];
    InsertAllAfter(early, After(ps, t), more, t);
    AfterConcat(early, InsertAll(After(ps, t), more), t);
    AfterOfAbove(InsertAll(After(ps, t), more), t);
  }

  // ---- range filters ----

  /** from <= ts <= to; a bound of zero (or less) is no bound. */
  predicate InRange(p: Point, from: int, to: int) {
    (from > 0 ==> p.ts >= from) && (to > 0 ==> p.ts <= to)
  }

  /** The points in range, in order: the point-by-point filter. */
  function Filter(ps: seq<Point>, from: int, to: int): seq<Point> {
    if ps == [] then []
    else (if InRange(ps[0], from, to) then [ps[0]] else []) + Filter(ps[1..], from, to)
  }

  lemma {:induction false} FilterCons(p: Point, ps: seq<Point>, from: int, to: int)
    ensures Filter([p] + ps, from, to) == (if InRange(p, from, to) then [p] else []) + Filter(ps, from, to)
    ensures Filter([], from, to) == []
  {
    hide InRange;
    assert ([p] + ps)[1..] == ps;
  }

  lemma {:induction false} FilterConcat(a: seq<Point>, b: seq<Point>, from: int, to: int)
    ensures Filter(a + b, from, to) == Filter(a, from, to) + Filter(b, from, to)
  {
    hide InRange, Filter;
    if a == [] {
      FilterCons(Point(0, 0), b, from, to);
      assert a + b == b;
    } else {
      var p, rest := a[0], a[1..];
      FilterConcat(rest, b, from, to);
      FilterCons(p, rest, from, to);
      FilterCons(p, rest + b, from, to);
      assert a == [p] + rest && a + b == [p] + (rest + b);
    }
  }

  lemma {:induction false} FilterAll(ps: seq<Point>, from: int, to: int)
    requires forall p :: p in ps ==> InRange(p, from, to)
    ensures Filter(ps, from, to) == ps
  {
    if ps != [] {
      FilterAll(ps[1..], from, to);
    }
  }

  lemma {:induction false} FilterNone(ps: seq<Point>, from: int, to: int)
    requires forall p :: p in ps ==> !InRange(p, from, to)
    ensures Filter(ps, from, to) == []
  {
    if ps != [] {
      FilterNone(ps[1..], from, to);
    }
  }

  lemma {:induction false} FilterMembers(ps: seq<Point>, from: int, to: int)
    ensures forall p :: multiset(Filter(ps, from, to))[p] == if InRange(p, from, to) then multiset(ps)[p] else 0
  {
    if ps != [] {
      FilterMembers(ps[1..], from, to);
      assert ps == [ps[0]] + ps[1..];
      assert multiset(ps) == multiset{ps[0]} + multiset(ps[1..]);
    }
  }

  lemma {:induction false} FilterFrom(ps: seq<Point>, from: int, to: int)
    ensures forall p :: p in Filter(ps, from, to) ==> p in ps
  {
    hide InRange;
    if ps != [] {
      FilterFrom(ps[1..], from, to);
    }
  }

  lemma {:induction false} FilterSorted(ps: seq<Point>, from: int, to: int)
    requires Sorted(ps)
    ensures Sorted(Filter(ps, from, to))
    ensures forall p :: p in Filter(ps, from, to) ==> p in ps
  {
    hide InRange;
    FilterFrom(ps, from, to);
    if ps != [] {
      FilterSorted(ps[1..], from, to);
      var rest := Filter(ps[1..], from, to);
      forall i | 0 <= i < |rest| ensures ps[0].ts <= rest[i].ts {
        assert rest[i] in ps[1..];
      }
    }
  }

  lemma {:induction false} FilterMiddle(a: seq<Point>, b: seq<Point>, c: seq<Point>, from: int, to: int)
    requires forall p :: p in a || p in c ==> !InRange(p, from, to)
    requires forall p :: p in b ==> InRange(p, from, to)
    ensures Filter(a + (b + c), from, to) == b
  {
    hide InRange, Filter;
    FilterConcat(a, b + c, from, to);
    FilterConcat(b, c, from, to);
    FilterNone(a, from, to);
    FilterAll(b, from, to);
    FilterNone(c, from, to);
  }

  /** In a list in time order the points in range are the slice between the two searches. */
  lemma {:induction false} FilterIsSlice(ps: seq<Point>, from: int, to: int)
    requires Sorted(ps)
    ensures
      var lo := if from > 0 then FirstAtLeast(ps, from) else 0;
      var hi := if to > 0 then FirstAtLeast(ps, to + 1) else |ps|;
      Filter(ps, from, to) == if lo < hi then ps[lo..hi] else []
  {
    hide Filter, InRange, FirstAtLeast;
    var lo := if from > 0 then FirstAtLeast(ps, from) else 0;
    var hi := if to > 0 then FirstAtLeast(ps, to + 1) else |ps|;
    forall i | 0 <= i < |ps| ensures InRange(ps[i], from, to) <==> lo <= i < hi {
      IndexInRange(ps, from, to, i);
    }
    SliceInRange(ps, from, to, lo, hi);
  }

  lemma {:induction false} SliceInRange(ps: seq<Point>, from: int, to: int, lo: nat, hi: nat)
    requires lo <= |ps| && hi <= |ps|
    requires forall i :: 0 <= i < |ps| ==> (InRange(ps[i], from, to) <==> lo <= i < hi)
    ensures Filter(ps, from, to) == if lo < hi then ps[lo..hi] else []
  {
    hide Filter, InRange;
    if lo < hi {
      assert ps == ps[..lo] + (ps[lo..hi] + ps[hi..]);
      FilterMiddle(ps[..lo], ps[lo..hi], ps[hi..], from, to);
    } else {
      FilterNone(ps, from, to);
    }
  }

  lemma {:induction false} IndexInRange(ps: seq<Point>, from: int, to: int, i: nat)
    requires Sorted(ps) && i < |ps|
    ensures InRange(ps[i], from, to)
       <==> && (from > 0 ==> FirstAtLeast(ps, from) <= i)
            && (to > 0 ==> i < FirstAtLeast(ps, to + 1))
  {
    hide FirstAtLeast;
    var lo, hi := FirstAtLeast(ps, from), FirstAtLeast(ps, to + 1);
    if lo < i {
      assert ps[lo].ts <= ps[i].ts;
    }
    if hi < i {
      assert ps[hi].ts <= ps[i].ts;
    }
  }

  /** The contiguous part of the list with exactly the points from `from` on, if that is above
      zero, and up to `to`, if that is above zero. */
  ghost predicate PartInTime(ps: seq<Point>, from: int, to: int, part: seq<Point>) {
    exists lo, hi :: 0 <= lo <= hi <= |ps| && part == ps[lo..hi]
      && forall i :: 0 <= i < |ps| ==>
           (lo <= i < hi <==> (from <= 0 || from <= ps[i].ts) && (to <= 0 || ps[i].ts <= to))
  }

  lemma {:induction false} FilterInTime(ps: seq<Point>, from: int, to: int)
    requires Sorted(ps)
    ensures PartInTime(ps, from, to, Filter(ps, from, to))
  {
    hide Filter, FirstAtLeast, Sorted;
    var lo := if from > 0 then FirstAtLeast(ps, from) else 0;
    var hi := if to > 0 then FirstAtLeast(ps, to + 1) else |ps|;
    FilterIsSlice(ps, from, to);
    forall i | 0 <= i < |ps|
      ensures lo <= i < hi <==> (from <= 0 || from <= ps[i].ts) && (to <= 0 || ps[i].ts <= to)
    {
      IndexInRange(ps, from, to, i);
    }
    if lo >= hi {
      assert ps[0..0] == [];
    }
  }

  /** Two binary searches and a copy. */
  method FilterPoints(points: seq<Point>, from: int, to: int) returns (out: seq<Point>)
    requires Sorted(points)
    ensures out == Filter(points, from, to) && PartInTime(points, from, to, out)
  {
    hide PartInTime;
    FilterInTime(points, from, to);
    FilterIsSlice(points, from, to);
    if |points| == 0 {
      return [];
    }
    var start := 0;
    if from > 0 {
      start := Search(points, from);
    }
    var end := |points|;
    if to > 0 {
      end := Search(points, to + 1);
    }
    if start >= end {
      return [];
    }
    out := points[start..end];
  }

  /** Reading the points after t and then from `from` on takes one lower bound. */
  lemma {:induction false} FilterAfter(ps: seq<Point>, t: int, from: int, to: int)
    requires Sorted(ps) && t > 0
    ensures
      var lower := if from == 0 || t + 1 > from then t + 1 else from;
      Filter(ps, lower, to) == Filter(After(ps, t), from, to)
  {
    hide Filter, FirstAtLeast, After;
    var lower := if from == 0 || t + 1 > from then t + 1 else from;
    AfterIsAbove(ps, t);
    var early := ps[..FirstAtLeast(ps, t + 1)];
    FilterConcat(early, After(ps, t), lower, to);
    FilterNone(early, lower, to);
    SameFilter(After(ps, t), lower, from, to);
  }

  lemma {:induction false} SameFilter(ps: seq<Point>, lower: int, from: int, to: int)
    requires forall p :: p in ps ==> InRange(p, lower, to) == InRange(p, from, to)
    ensures Filter(ps, lower, to) == Filter(ps, from, to)
  {
    if ps != [] {
      SameFilter(ps[1..], lower, from, to);
    }
  }

  // ---- concatenation ----

  lemma {:induction false} ConcatSorted(a: seq<Point>, b: seq<Point>, t: int)
    requires Sorted(a) && Sorted(b) && AllAtMost(a, t) && AllAbove(b, t)
    ensures Sorted(a + b)
  {
    forall i, j | 0 <= i < j < |a + b| ensures (a + b)[i].ts <= (a + b)[j].ts {
      if i < |a| <= j {
        assert a[i] in a && b[j - |a|] in b;
      }
    }
  }
}
