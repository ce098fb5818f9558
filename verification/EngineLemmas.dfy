/** Facts about the engine's data: points per series in records, files and memory. */
module EngineLemmas {
  import opened Words
  import opened Model
  import opened Points
  import opened EngineState
  import opened Names
  import SeriesKey
  import Binary

  // ---- sequences of numbers ----

  lemma {:induction false} AscendingAdd(numbers: set<nat>, n: nat)
    requires forall m :: m in numbers ==> m < n
    ensures Ascending(numbers + {n}) == Ascending(numbers) + [n]
  {
    assert (numbers + {n}) - {n} == numbers;
    assert Largest(numbers + {n}) == n;
  }

  lemma {:induction false} PointsInTop(files: Files, numbers: set<nat>, n: nat, labels: Labels)
    requires n in numbers && forall m :: m in numbers ==> m <= n
    ensures PointsIn(files, Ascending(numbers), labels)
         == PointsIn(files, Ascending(numbers - {n}), labels)
            + (if n in files then FilePoints(files[n].series, labels) else [])
  {
    hide FilePoints;
    assert Largest(numbers) == n;
    var s := Ascending(numbers);
    assert s[..|s| - 1] == Ascending(numbers - {n}) && s[|s| - 1] == n;
  }

  /** Listing more numbers than there are files changes nothing. */
  lemma {:induction false} AbsentNumbers(files: Files, more: set<nat>, some: set<nat>, labels: Labels)
    requires some <= more
    requires forall n :: n in more && n !in some ==> n !in files
    ensures PointsIn(files, Ascending(more), labels) == PointsIn(files, Ascending(some), labels)
    decreases more
  {
    hide FilePoints, PointsIn, Ascending;
    if more == {} {
      assert some == {};
    } else {
      var n := Largest(more);
      PointsInTop(files, more, n, labels);
      if n in some {
        PointsInTop(files, some, n, labels);
        AbsentNumbers(files, more - {n}, some - {n}, labels);
      } else {
        AbsentNumbers(files, more - {n}, some, labels);
      }
    }
  }

  lemma {:induction false} PointsInSame(files: Files, files': Files, order: seq<nat>, labels: Labels)
    requires forall n :: n in order && n in files ==>
               n in files' && FilePoints(files[n].series, labels) == FilePoints(files'[n].series, labels)
    requires forall n :: n in order && n !in files ==>
               n !in files' || FilePoints(files'[n].series, labels) == []
    ensures PointsIn(files, order, labels) == PointsIn(files', order, labels)
    decreases order
  {
    hide FilePoints;
    if order != [] {
      PointsInSame(files, files', order[..|order| - 1], labels);
    }
  }

  /** A file with a number after all others comes last. */
  lemma {:induction false} ColdAdd(files: Files, n: nat, f: ChunkFile, labels: Labels)
    requires forall m :: m in files ==> m < n
    ensures ColdPoints(files[n := f], labels) == ColdPoints(files, labels) + FilePoints(f.series, labels)
  {
    hide FilePoints, Ascending;
    var files' := files[n := f];
    var order := Ascending(files.Keys);
    assert files'.Keys == files.Keys + {n};
    AscendingAdd(files.Keys, n);
    PointsInSame(files, files', order, labels);
    assert (order + [n])[..|order|] == order;
  }

  lemma {:induction false} NextNumberIsNew(files: Files)
    ensures forall m :: m in files ==> m < NextNumber(files)
  {
  }

  lemma {:induction false} ColdNone(labels: Labels)
    ensures ColdPoints(map[], labels) == []
  {
    var none: Files := map[];
    assert none.Keys == {};
  }

  lemma {:induction false} ColdOne(n: nat, f: ChunkFile, labels: Labels)
    ensures ColdPoints(map[n := f], labels) == FilePoints(f.series, labels)
  {
    hide FilePoints;
    var none: Files := map[];
    ColdNone(labels);
    ColdAdd(none, n, f, labels);
    assert none[n := f] == map[n := f];
  }

  // ---- one file ----

  lemma {:induction false} FilePointsNone(series: seq<SeriesData>, labels: Labels)
    requires forall d :: d in series ==> d.labels != labels
    ensures FilePoints(series, labels) == []
  {
    if series != [] {
      assert series[0] in series;
      FilePointsNone(series[1..], labels);
    }
  }

  /** A series that occurs once contributes exactly its points. */
  lemma {:induction false} FilePointsOne(series: seq<SeriesData>, d: SeriesData)
    requires Distinct(series) && d in series
    ensures FilePoints(series, d.labels) == d.points
  {
    if series[0] == d {
      FilePointsNone(series[1..], d.labels);
    } else {
      assert d in series[1..];
      var i :| 0 <= i < |series| && series[i] == d;
      FilePointsOne(series[1..], d);
    }
  }

  lemma {:induction false} FilePointsMember(series: seq<SeriesData>, labels: Labels, p: Point)
    requires p in FilePoints(series, labels)
    ensures exists d :: d in series && d.labels == labels && p in d.points
  {
    if series[0].labels == labels && p in series[0].points {
      assert series[0] in series;
    } else {
      FilePointsMember(series[1..], labels, p);
      var d :| d in series[1..] && d.labels == labels && p in d.points;
      assert d in series;
    }
  }

  /** Every cold point lies in some file. */
  lemma {:induction false} PointsInMember(files: Files, order: seq<nat>, labels: Labels, p: Point)
    requires p in PointsIn(files, order, labels)
    ensures exists n, d :: n in order && n in files && d in files[n].series && d.labels == labels && p in d.points
    decreases order
  {
    hide FilePoints;
    var n := order[|order| - 1];
    if n in files && p in FilePoints(files[n].series, labels) {
      FilePointsMember(files[n].series, labels, p);
    } else {
      PointsInMember(files, order[..|order| - 1], labels, p);
    }
  }

  // ---- records ----

  /** What one record adds to a series. */
  function Share(rec: Record, key: Series): seq<Point> {
    if rec.Key() == key then rec.points else []
  }

  lemma {:induction false} PointsOfCons(rec: Record, recs: seq<Record>, key: Series)
    ensures PointsOf([rec] + recs, key) == Share(rec, key) + PointsOf(recs, key)
  {
    assert ([rec] + recs)[1..] == recs;
  }

  lemma {:induction false} PointsOfConcat(a: seq<Record>, b: seq<Record>, key: Series)
    ensures PointsOf(a + b, key) == PointsOf(a, key) + PointsOf(b, key)
  {
    hide PointsOf, Share;
    if a == [] {
      PointsOfNone(key);
      assert a + b == b;
    } else {
      PointsOfConcat(a[1..], b, key);
      PointsOfCons(a[0], a[1..] + b, key);
      PointsOfCons(a[0], a[1..], key);
      assert a == [a[0]] + a[1..] && a + b == [a[0]] + (a[1..] + b);
    }
  }

  lemma {:induction false} PointsOfNone(key: Series)
    ensures PointsOf([], key) == []
  {
  }

  lemma {:induction false} PointsOfOne(rec: Record, key: Series)
    ensures PointsOf([rec], key) == if rec.Key() == key then rec.points else []
  {
    assert [rec][1..] == [];
  }

  lemma {:induction false} PointsOfMember(recs: seq<Record>, key: Series, p: Point)
    requires p in PointsOf(recs, key)
    ensures exists rec :: rec in recs && rec.Key() == key && p in rec.points
  {
    if recs[0].Key() == key && p in recs[0].points {
      assert recs[0] in recs;
    } else {
      PointsOfMember(recs[1..], key, p);
      var rec :| rec in recs[1..] && rec.Key() == key && p in rec.points;
      assert rec in recs;
    }
  }

  lemma {:induction false} PointsOfHas(recs: seq<Record>, rec: Record, p: Point)
    requires rec in recs && p in rec.points
    ensures p in PointsOf(recs, rec.Key())
  {
    if recs[0] != rec {
      PointsOfHas(recs[1..], rec, p);
    }
  }

  lemma {:induction false} PointsOfUnmentioned(recs: seq<Record>, key: Series)
    requires !Mentions(recs, key)
    ensures PointsOf(recs, key) == []
  {
    if recs != [] {
      assert recs[0] in recs;
      assert !Mentions(recs[1..], key) by {
        forall rec | rec in recs[1..] ensures rec.Key() != key {
          assert rec in recs;
        }
      }
      PointsOfUnmentioned(recs[1..], key);
    }
  }

  // ---- memory ----

  ghost predicate NoCollision(universe: set<Series>) {
    forall a, b :: a in universe && b in universe && SeriesKey.Hash(a) == SeriesKey.Hash(b) ==> a == b
  }

  /** The names of the series fit their fields on disk, and its metric names its own directory. */
  ghost predicate Storable(key: Series) {
    && OwnName(key.metric) && |key.metric| <= NAME_MAX && SeriesKey.NUL !in key.metric
    && Binary.ShortLabels(key.labels) && |SeriesKey.BlockBytes(key.labels)| < 0x1_0000
  }

  /** The series in use: no two share an id, each can be stored, and a file can count them. */
  ghost predicate Usable(universe: set<Series>) {
    NoCollision(universe) && |universe| < 0x1_0000_0000 && forall key :: key in universe ==> Storable(key)
  }

  ghost predicate GoodEntry(id: uint64, rec: Record, universe: set<Series>) {
    && rec.Key() in universe && SeriesKey.Hash(rec.Key()) == id
    && rec.points != [] && Sorted(rec.points) && AllAbove(rec.points, 0)
  }

  ghost predicate GoodMem(mem: map<uint64, Record>, universe: set<Series>) {
    forall id :: id in mem ==> GoodEntry(id, mem[id], universe)
  }

  ghost predicate GoodRecord(rec: Record, universe: set<Series>) {
    rec.Key() in universe && rec.points != [] && |rec.points| <= 0xFFFF && AllAbove(rec.points, 0)
  }

  ghost predicate GoodRecords(recs: seq<Record>, universe: set<Series>) {
    forall rec :: rec in recs ==> GoodRecord(rec, universe)
  }

  /** Applying a record inserts its points into its series and touches no other. */
  lemma {:induction false} ApplyPoints(mem: map<uint64, Record>, rec: Record, universe: set<Series>, key: Series)
    requires NoCollision(universe) && GoodMem(mem, universe) && rec.Key() in universe && key in universe
    ensures MemPoints(ApplyRecord(mem, rec), key)
         == if rec.Key() == key then InsertAll(MemPoints(mem, key), rec.points) else MemPoints(mem, key)
  {
    hide SeriesKey.Hash, InsertAll, Sorted, AllAbove;
    var id := SeriesKey.Hash(rec.Key());
    if id in mem {
      assert mem[id].Key() == rec.Key();
    }
  }

  lemma {:induction false} ApplyGood(mem: map<uint64, Record>, rec: Record, universe: set<Series>)
    requires NoCollision(universe) && GoodMem(mem, universe) && GoodRecord(rec, universe)
    ensures GoodMem(ApplyRecord(mem, rec), universe)
  {
    hide SeriesKey.Hash, InsertAll;
    var id := SeriesKey.Hash(rec.Key());
    var was := if id in mem then mem[id] else rec.(points := []);
    assert was.Key() == rec.Key();
    assert Sorted(was.points) && AllAbove(was.points, 0);
    InsertAllGood(was.points, rec.points);
  }

  lemma {:induction false} InsertAllGood(ps: seq<Point>, more: seq<Point>)
    requires Sorted(ps) && AllAbove(ps, 0) && AllAbove(more, 0)
    ensures Sorted(InsertAll(ps, more)) && AllAbove(InsertAll(ps, more), 0)
    ensures more != [] ==> InsertAll(ps, more) != []
  {
    hide InsertAll;
    InsertAllKeepsOrder(ps, more);
    var r := InsertAll(ps, more);
    forall p | p in r ensures p.ts > 0 {
      assert p in multiset(r);
      assert p in multiset(ps) || p in multiset(more);
    }
    if more != [] {
      assert more[0] in multiset(more);
      assert more[0] in multiset(r);
    }
  }

  lemma {:induction false} ReplayGood(recs: seq<Record>, universe: set<Series>)
    requires NoCollision(universe) && GoodRecords(recs, universe)
    ensures GoodMem(ReplayMem(recs), universe)
    decreases recs
  {
    if recs != [] {
      var n := |recs| - 1;
      assert recs[n] in recs;
      ReplayGood(recs[..n], universe);
      ApplyGood(ReplayMem(recs[..n]), recs[n], universe);
    }
  }

  /** Replaying records leaves each series with its points inserted in order. */
  lemma {:induction false} ReplayPoints(recs: seq<Record>, universe: set<Series>, key: Series)
    requires NoCollision(universe) && GoodRecords(recs, universe) && key in universe
    ensures MemPoints(ReplayMem(recs), key) == InsertAll([], PointsOf(recs, key))
    decreases recs
  {
    hide InsertAll, PointsOf, ApplyRecord, MemPoints;
    if recs == [] {
      EmptyReplay(key);
    } else {
      var n := |recs| - 1;
      assert recs[n] in recs;
      ReplayGood(recs[..n], universe);
      ReplayPoints(recs[..n], universe, key);
      ApplyPoints(ReplayMem(recs[..n]), recs[n], universe, key);
      assert recs == recs[..n] + [recs[n]];
      PointsOfConcat(recs[..n], [recs[n]], key);
      PointsOfOne(recs[n], key);
      InsertAllAppend([], PointsOf(recs[..n], key), PointsOf([recs[n]], key));
      InsertNone(InsertAll([], PointsOf(recs[..n], key)));
    }
  }

  lemma {:induction false} EmptyReplay(key: Series)
    ensures MemPoints(ReplayMem([]), key) == [] && PointsOf([], key) == [] && InsertAll([], []) == []
  {
  }

  lemma {:induction false} InsertNone(ps: seq<Point>)
    ensures InsertAll(ps, []) == ps
  {
  }

  lemma {:induction false} EvictGood(mem: map<uint64, Record>, upTo: int64, universe: set<Series>)
    requires GoodMem(mem, universe)
    ensures GoodMem(Evict(mem, upTo), universe)
    ensures forall id :: id in Evict(mem, upTo) ==> AllAbove(Evict(mem, upTo)[id].points, upTo)
  {
    hide SeriesKey.Hash, After;
    forall id | id in mem ensures After(mem[id].points, upTo) != [] ==>
      GoodEntry(id, mem[id].(points := After(mem[id].points, upTo)), universe)
    {
      AfterGood(mem[id].points, upTo);
    }
    forall id | id in mem ensures AllAbove(After(mem[id].points, upTo), upTo) {
      AfterIsAbove(mem[id].points, upTo);
    }
  }

  /** Eviction cuts each series at the watermark. */
  lemma {:induction false} EvictPoints(mem: map<uint64, Record>, upTo: int64, universe: set<Series>, key: Series)
    requires GoodMem(mem, universe)
    ensures MemPoints(Evict(mem, upTo), key) == After(MemPoints(mem, key), upTo)
  {
    hide SeriesKey.Hash, After;
    AfterOfAbove([], upTo);
  }

  lemma {:induction false} AfterGood(ps: seq<Point>, t: int)
    requires Sorted(ps) && AllAbove(ps, 0)
    ensures Sorted(After(ps, t)) && AllAbove(After(ps, t), 0)
  {
    AfterIsAbove(ps, t);
    forall p | p in After(ps, t) ensures p in ps {}
  }

  /** With positive timestamps the watermark 0 hides nothing. */
  lemma {:induction false} HotIsAfter(s: State, universe: set<Series>, key: Series)
    requires GoodMem(s.mem, universe) && s.flushedUpTo >= 0
    ensures HotPoints(s, key) == After(MemPoints(s.mem, key), s.flushedUpTo)
  {
    hide SeriesKey.Hash;
    var id := SeriesKey.Hash(key);
    if id in s.mem {
      assert GoodEntry(id, s.mem[id], universe);
    }
    if s.flushedUpTo == 0 {
      AfterOfAbove(MemPoints(s.mem, key), 0);
    }
  }
}
