/** The directory of one metric as the program lists it: the next file number, the files in name
    order, and the series they hold. */
module ChunkStore {
  import opened Words
  import opened Model
  import opened Names
  import opened EngineState
  import opened EngineLemmas
  import opened DiskContent
  import SeriesKey

  // ---- numbers ----

  /** The numbers that are read back from the file names. */
  ghost function Parsed(numbers: set<nat>): set<nat> {
    set n | n in numbers && n < NUMBERS
  }

  /** The largest number read back, or zero. */
  ghost function Latest(numbers: set<nat>): nat {
    if Parsed(numbers) == {} then 0 else Largest(Parsed(numbers))
  }

  method LatestNumber(numbers: set<nat>) returns (latest: nat)
    ensures latest == Latest(numbers)
  {
    hide NumberName, ParseNumber;
    latest := 0;
    var left := numbers;
    while left != {}
      invariant left <= numbers
      invariant forall n :: n in Parsed(numbers) && n !in left ==> n <= latest
      invariant latest == 0 || latest in Parsed(numbers)
      decreases left
    {
      var n :| n in left;
      NumberReadBack(n);
      match ParseNumber(NumberName(n)) {
        case Some(k) =>
          if k > latest {
            latest := k;
          }
        case None =>
      }
      left := left - {n};
    }
    if Parsed(numbers) != {} {
      var n := Largest(Parsed(numbers));
      assert n in Parsed(numbers);
    }
  }

  method NextChunkNum(numbers: set<nat>) returns (n: nat)
    ensures n == Latest(numbers) + 1
    ensures forall k :: k in numbers && k < NUMBERS ==> k < n
    ensures n == 1 || (n - 1 in numbers && n - 1 < NUMBERS)
  {
    var latest := LatestNumber(numbers);
    n := latest + 1;
    forall k | k in numbers && k < NUMBERS ensures k < n {
      assert k in Parsed(numbers);
    }
  }

  /** The next number is in use exactly when 999999 and 1000000 both are: then every further file
      replaces number 1000000. */
  lemma {:induction false} NextNumberUsed(numbers: set<nat>)
    ensures Latest(numbers) + 1 in numbers <==> NUMBERS - 1 in numbers && NUMBERS in numbers
  {
    var n := Latest(numbers);
    assert n + 1 in Parsed(numbers) <==> n + 1 in numbers && n + 1 < NUMBERS;
    assert NUMBERS - 1 in Parsed(numbers) <==> NUMBERS - 1 in numbers;
  }

  /** Below one million the next number is one after the largest. */
  lemma {:induction false} LatestIsLargest(numbers: set<nat>)
    requires forall n :: n in numbers ==> n < NUMBERS
    ensures Latest(numbers) == if numbers == {} then 0 else Largest(numbers)
  {
    assert Parsed(numbers) == numbers;
  }

  // ---- names ----

  ghost predicate InNameOrder(order: seq<nat>) {
    forall i, j :: 0 <= i < j < |order| ==>
      order[i] != order[j] && SeriesKey.AtMost(NumberName(order[i]), NumberName(order[j]))
  }

  method LastName(numbers: set<nat>) returns (last: nat)
    requires numbers != {}
    ensures last in numbers
    ensures forall n :: n in numbers ==> SeriesKey.AtMost(NumberName(n), NumberName(last))
  {
    hide NumberName, SeriesKey.AtMost;
    last :| last in numbers;
    SeriesKey.AtMostTotal(NumberName(last), NumberName(last));
    var left := numbers - {last};
    while left != {}
      invariant left <= numbers && last in numbers
      invariant forall n :: n in numbers && n !in left ==> SeriesKey.AtMost(NumberName(n), NumberName(last))
      decreases left
    {
      var n :| n in left;
      SeriesKey.AtMostTotal(NumberName(n), NumberName(n));
      if !SeriesKey.AtMost(NumberName(n), NumberName(last)) {
        LaterName(numbers - left, last, n);
        last := n;
      }
      left := left - {n};
    }
  }

  lemma {:induction false} LaterName(numbers: set<nat>, last: nat, n: nat)
    requires forall m :: m in numbers ==> SeriesKey.AtMost(NumberName(m), NumberName(last))
    requires !SeriesKey.AtMost(NumberName(n), NumberName(last))
    ensures forall m :: m in numbers ==> SeriesKey.AtMost(NumberName(m), NumberName(n))
  {
    hide NumberName, SeriesKey.AtMost;
    SeriesKey.AtMostTotal(NumberName(n), NumberName(last));
    forall m | m in numbers ensures SeriesKey.AtMost(NumberName(m), NumberName(n)) {
      SeriesKey.AtMostTransitive(NumberName(m), NumberName(last), NumberName(n));
    }
  }

  /** The file numbers of a directory in the order of their names, which is the order of the
      numbers when all are below one million. */
  method ListNumbers(numbers: set<nat>) returns (order: seq<nat>)
    ensures (forall n :: n in order <==> n in numbers) && InNameOrder(order)
    ensures (forall n :: n in numbers ==> n < NUMBERS) ==> order == Ascending(numbers)
  {
    hide NumberName, SeriesKey.AtMost, Ascending;
    order := [];
    var left := numbers;
    while left != {}
      invariant left <= numbers && InNameOrder(order)
      invariant forall n :: n in order <==> n in numbers && n !in left
      invariant forall n, m :: n in left && m in order ==> SeriesKey.AtMost(NumberName(n), NumberName(m))
      decreases left
    {
      var n := LastName(left);
      order := [n] + order;
      left := left - {n};
    }
    NameOrder(numbers, order);
  }

  lemma {:induction false} NameOrder(numbers: set<nat>, order: seq<nat>)
    requires (forall n :: n in order <==> n in numbers) && InNameOrder(order)
    ensures (forall n :: n in numbers ==> n < NUMBERS) ==> order == Ascending(numbers)
  {
    hide NumberName, SeriesKey.AtMost, Ascending;
    if forall n :: n in numbers ==> n < NUMBERS {
      forall i, j | 0 <= i < j < |order| ensures order[i] < order[j] {
        assert order[i] in order && order[j] in order;
        NamesInOrder(order[i], order[j]);
      }
      assert Rising(order) && Rising(Ascending(numbers));
      AscendingUnique(order, Ascending(numbers));
    }
  }

  ghost predicate Rising(order: seq<nat>) {
    forall i, j :: 0 <= i < j < |order| ==> order[i] < order[j]
  }

  lemma {:induction false} RisingLast(order: seq<nat>)
    requires Rising(order) && order != []
    ensures
      var most, last := order[..|order| - 1], order[|order| - 1];
      && Rising(most) && last in order
      && (forall n :: n in order ==> n <= last)
      && (forall n :: n in most <==> n in order && n != last)
  {
    var most, last := order[..|order| - 1], order[|order| - 1];
    assert order == most + [last];
    forall n | n in most ensures n != last {
      var i :| 0 <= i < |most| && most[i] == n;
      assert order[i] < order[|order| - 1];
    }
  }

  /** Two ascending lists of the same numbers are equal. */
  lemma {:induction false} AscendingUnique(a: seq<nat>, b: seq<nat>)
    requires (forall n :: n in a <==> n in b) && Rising(a) && Rising(b)
    ensures a == b
    decreases |a|
  {
    hide Rising;
    assert a != [] ==> a[0] in b;
    assert b != [] ==> b[0] in a;
    if a != [] && b != [] {
      RisingLast(a);
      RisingLast(b);
      AscendingUnique(a[..|a| - 1], b[..|b| - 1]);
      assert a == a[..|a| - 1] + [a[|a| - 1]] && b == b[..|b| - 1] + [b[|b| - 1]];
    }
  }

  // ---- gathering series from files ----

  /** The series of the files, in file order. */
  ghost function SeriesIn(files: Files, order: seq<nat>): seq<SeriesData> {
    if order == [] then []
    else SeriesIn(files, order[..|order| - 1])
         + (var n := order[|order| - 1]; if n in files then files[n].series else [])
  }

  /** The points of one series inside a file, when it is the one asked for. */
  function Own(d: SeriesData, labels: Labels): seq<Point> {
    if d.labels == labels then d.points else []
  }

  lemma {:induction false} FilePointsCons(d: SeriesData, series: seq<SeriesData>, labels: Labels)
    ensures FilePoints([d] + series, labels) == Own(d, labels) + FilePoints(series, labels)
  {
    assert ([d] + series)[1..] == series;
  }

  lemma {:induction false} FilePointsConcat(a: seq<SeriesData>, b: seq<SeriesData>, labels: Labels)
    ensures FilePoints(a + b, labels) == FilePoints(a, labels) + FilePoints(b, labels)
  {
    hide FilePoints, Own;
    if a == [] {
      FilePointsNone([], labels);
      assert a + b == b;
    } else {
      FilePointsConcat(a[1..], b, labels);
      FilePointsCons(a[0], a[1..] + b, labels);
      FilePointsCons(a[0], a[1..], labels);
      assert a == [a[0]] + a[1..] && a + b == [a[0]] + (a[1..] + b);
    }
  }

  lemma {:induction false} FilePointsPush(a: seq<SeriesData>, d: SeriesData, labels: Labels)
    ensures FilePoints(a + [d], labels) == FilePoints(a, labels) + Own(d, labels)
  {
    FilePointsConcat(a, [d], labels);
    assert [d][1..] == [];
  }

  lemma {:induction false} SeriesInPoints(files: Files, order: seq<nat>, labels: Labels)
    ensures FilePoints(SeriesIn(files, order), labels) == PointsIn(files, order, labels)
    decreases order
  {
    hide FilePoints;
    if order == [] {
      FilePointsNone([], labels);
    } else {
      var n, before := order[|order| - 1], order[..|order| - 1];
      SeriesInPoints(files, before, labels);
      FilePointsConcat(SeriesIn(files, before), if n in files then files[n].series else [], labels);
      FilePointsNone([], labels);
    }
  }
}
