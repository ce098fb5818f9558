/** The aggregates of one window, over the reals. */
module AggValues {

  datatype AggType = AggOther | AggAvg | AggMin | AggMax | AggSum | AggCount

  function SumOf(vals: seq<real>): real {
    if vals == [] then 0.0 else SumOf(vals[..|vals| - 1]) + vals[|vals| - 1]
  }

  ghost predicate IsLeast(m: real, vals: seq<real>) {
    m in vals && forall v :: v in vals ==> m <= v
  }

  ghost predicate IsGreatest(m: real, vals: seq<real>) {
    m in vals && forall v :: v in vals ==> v <= m
  }

  /** applyAgg; `limit` is the largest finite value, from which the minimum and the maximum
      start. */
  method ApplyAgg(vals: seq<real>, agg: AggType, limit: real) returns (r: real)
    requires vals != [] && forall v :: v in vals ==> -limit <= v <= limit
    ensures agg.AggAvg? ==> r * |vals| as real == SumOf(vals)
    ensures agg.AggMin? ==> IsLeast(r, vals)
    ensures agg.AggMax? ==> IsGreatest(r, vals)
    ensures agg.AggSum? ==> r == SumOf(vals)
    ensures agg.AggCount? ==> r == |vals| as real
    ensures agg.AggOther? ==> r == 0.0
  {
    match agg
    case AggAvg =>
      var sum := Sum(vals);
      r := sum / |vals| as real;
    case AggMin =>
      r := Least(vals, limit);
    case AggMax =>
      r := Greatest(vals, limit);
    case AggSum =>
      r := Sum(vals);
    case AggCount =>
      r := |vals| as real;
    case AggOther =>
      r := 0.0;
  }

  method Sum(vals: seq<real>) returns (sum: real)
    ensures sum == SumOf(vals)
  {
    sum := 0.0;
    var i := 0;
    while i < |vals|
      invariant 0 <= i <= |vals|
      invariant sum == SumOf(vals[..i])
    {
      assert vals[..i + 1][..i] == vals[..i];
      sum := sum + vals[i];
      i := i + 1;
    }
    assert vals[..i] == vals;
  }

  method Least(vals: seq<real>, limit: real) returns (m: real)
    requires vals != [] && forall v :: v in vals ==> v <= limit
    ensures IsLeast(m, vals)
  {
    m := limit;
    var i := 0;
    while i < |vals|
      invariant 0 <= i <= |vals|
      invariant m <= limit && forall j :: 0 <= j < i ==> m <= vals[j]
      invariant m in vals[..i] || m == limit
    {
      assert vals[i] in vals && vals[..i + 1] == vals[..i] + [vals[i]];
      if vals[i] < m {
        m := vals[i];
      }
      i := i + 1;
    }
    assert vals[..i] == vals;
    assert vals[0] in vals;
  }

  method Greatest(vals: seq<real>, limit: real) returns (m: real)
    requires vals != [] && forall v :: v in vals ==> -limit <= v
    ensures IsGreatest(m, vals)
  {
    m := -limit;
    var i := 0;
    while i < |vals|
      invariant 0 <= i <= |vals|
      invariant m >= -limit && forall j :: 0 <= j < i ==> vals[j] <= m
      invariant m in vals[..i] || m == -limit
    {
      assert vals[i] in vals && vals[..i + 1] == vals[..i] + [vals[i]];
      if vals[i] > m {
        m := vals[i];
      }
      i := i + 1;
    }
    assert vals[..i] == vals;
    assert vals[0] in vals;
  }

  // ---- what the aggregates have to do with each other ----

  /** The sum lies between the number of values times the least and times the greatest, and so
      the average lies between the minimum and the maximum. */
  lemma {:induction false} SumBetween(vals: seq<real>, least: real, greatest: real)
    requires forall v :: v in vals ==> least <= v <= greatest
    ensures least * |vals| as real <= SumOf(vals) <= greatest * |vals| as real
    decreases |vals|
  {
    if vals != [] {
      var n := |vals| - 1;
      forall v | v in vals[..n] ensures least <= v <= greatest {
        assert v in vals;
      }
      SumBetween(vals[..n], least, greatest);
      assert vals[n] in vals;
      assert least * |vals| as real == least * n as real + least;
      assert greatest * |vals| as real == greatest * n as real + greatest;
    }
  }

  lemma {:induction false} AverageBetween(vals: seq<real>, least: real, average: real, greatest: real)
    requires vals != [] && IsLeast(least, vals) && IsGreatest(greatest, vals)
    requires average * |vals| as real == SumOf(vals)
    ensures least <= average <= greatest
  {
    SumBetween(vals, least, greatest);
    Scale(least, average, |vals| as real);
    Scale(average, greatest, |vals| as real);
  }

  lemma {:induction false} Scale(a: real, b: real, n: real)
    requires n > 0.0
    ensures a * n <= b * n <==> a <= b
  {
    assert b * n - a * n == (b - a) * n;
  }

  /** The sum does not depend on how the values are split over adjacent windows. */
  lemma {:induction false} SumConcat(a: seq<real>, b: seq<real>)
    ensures SumOf(a + b) == SumOf(a) + SumOf(b)
    decreases |b|
  {
    if b == [] {
      assert a + b == a;
    } else {
      var n := |b| - 1;
      SumConcat(a, b[..n]);
      assert (a + b)[..|a + b| - 1] == a + b[..n];
    }
  }
}
