/** What every reachable state of the engine satisfies. */
module EngineInvariant {
  import opened Words
  import opened Model
  import opened Points
  import opened EngineState
  import opened EngineLemmas
  import SeriesKey

  // ---- shape: holds whatever the order of timestamps ----

  ghost predicate GoodSeries(d: SeriesData) {
    d.points != [] && Sorted(d.points) && AllAbove(d.points, 0)
  }

  ghost predicate GoodFile(f: ChunkFile, metric: Str, universe: set<Series>) {
    && f.series != [] && Distinct(f.series) && RangeIs(f.series, f.minTS, f.maxTS)
    && forall d :: d in f.series ==> GoodSeries(d) && Series(metric, d.labels) in universe
  }

  ghost predicate GoodDir(files: Files, metric: Str, universe: set<Series>) {
    files != map[] && forall n :: n in files ==> GoodFile(files[n], metric, universe)
  }

  ghost predicate GoodChunks(chunks: map<Str, Files>, universe: set<Series>) {
    forall m :: m in chunks ==> GoodDir(chunks[m], m, universe)
  }

  ghost predicate GoodWal(wal: map<nat, seq<Record>>, current: nat, universe: set<Series>) {
    && current in wal
    && forall n :: n in wal ==> n <= current && GoodRecords(wal[n], universe)
  }

  /** Every series in memory is listed under its metric; a metric is listed exactly when it
      has a directory or a series in memory. */
  ghost predicate GoodIndex(
    index: map<Str, set<uint64>>, mem: map<uint64, Record>, dirs: set<Str>, universe: set<Series>)
  {
    && (forall id :: id in mem ==> Listed(index, mem[id].metric, id))
    && (forall m, id :: Listed(index, m, id) ==> FromUniverse(m, id, universe))
    && (forall m :: m in dirs ==> m in index)
    && (forall m :: m in index ==> m in dirs || InMemory(mem, m))
  }

  ghost predicate Listed(index: map<Str, set<uint64>>, metric: Str, id: uint64) {
    metric in index && id in index[metric]
  }

  ghost predicate FromUniverse(metric: Str, id: uint64, universe: set<Series>) {
    exists key :: key in universe && key.metric == metric && SeriesKey.Hash(key) == id
  }

  ghost predicate InMemory(mem: map<uint64, Record>, metric: Str) {
    exists id :: id in mem && mem[id].metric == metric
  }

  ghost predicate Shape(s: State, universe: set<Series>) {
    && Usable(universe)
    && s.flushedUpTo >= 0
    && GoodWal(s.disk.wal, s.current, universe)
    && GoodChunks(s.disk.chunks, universe)
    && GoodMem(s.mem, universe)
    && GoodIndex(s.index, s.mem, s.disk.chunks.Keys, universe)
  }

  // ---- time order: holds when every push is after the watermark ----

  ghost predicate HeadersAtMost(chunks: map<Str, Files>, t: int) {
    forall m, n :: m in chunks && n in chunks[m] ==> chunks[m][n].maxTS <= t
  }

  ghost predicate OrderedFiles(files: Files) {
    forall a, b :: a in files && b in files && a < b ==> files[a].maxTS < files[b].minTS
  }

  ghost predicate OrderedDirs(chunks: map<Str, Files>) {
    forall m :: m in chunks ==> OrderedFiles(chunks[m])
  }

  ghost predicate RecordsAbove(recs: seq<Record>, t: int) {
    forall rec :: rec in recs ==> AllAbove(rec.points, t)
  }

  /** Some chunk header reaches time t. */
  ghost predicate Reached(chunks: map<Str, Files>, t: int) {
    exists m, n :: m in chunks && n in chunks[m] && t <= chunks[m][n].maxTS
  }

  /** A segment that was written to chunk files but not removed. */
  ghost predicate Leftover(recs: seq<Record>, chunks: map<Str, Files>) {
    forall rec :: rec in recs ==>
      rec.metric in chunks && forall p :: p in rec.points ==> Reached(chunks, p.ts)
  }

  ghost predicate Leftovers(wal: map<nat, seq<Record>>, current: nat, chunks: map<Str, Files>) {
    forall n :: n in wal && n != current ==> Leftover(wal[n], chunks)
  }

  /** Only the open segment is on disk. */
  ghost predicate Clean(s: State) {
    s.disk.wal.Keys == {s.current}
  }

  /** What memory holds after the watermark is the open segment, inserted in order. */
  ghost predicate HotIsSegment(s: State, universe: set<Series>) {
    forall key :: key in universe ==>
      After(MemPoints(s.mem, key), s.flushedUpTo) == InsertAll([], PointsOf(s.Segment(), key))
  }

  /** Points in memory the watermark hides come from leftover segments. */
  ghost predicate MemAfter(s: State) {
    forall id :: id in s.mem ==>
      AllAbove(s.mem[id].points, s.flushedUpTo) || (!Clean(s) && s.mem[id].metric in s.disk.chunks)
  }

  ghost predicate Ordered(s: State, universe: set<Series>) {
    && Shape(s, universe)
    && HeadersAtMost(s.disk.chunks, s.flushedUpTo)
    && OrderedDirs(s.disk.chunks)
    && RecordsAbove(s.Segment(), s.flushedUpTo)
    && HotIsSegment(s, universe)
    && Leftovers(s.disk.wal, s.current, s.disk.chunks)
    && MemAfter(s)
  }

  // ---- chunk files written by a flush ----

  lemma {:induction false} FlushedPoint(recs: seq<Record>, key: Series, p: Point)
    requires p in InsertAll([], PointsOf(recs, key))
    ensures exists rec :: rec in recs && rec.Key() == key && p in rec.points
  {
    hide InsertAll, PointsOf;
    InsertAllKeepsOrder([], PointsOf(recs, key));
    assert p in multiset(InsertAll([], PointsOf(recs, key)));
    PointsOfMember(recs, key, p);
  }

  lemma {:induction false} FlushedGood(recs: seq<Record>, key: Series, universe: set<Series>)
    requires GoodRecords(recs, universe)
    ensures AllAbove(PointsOf(recs, key), 0)
    ensures Sorted(InsertAll([], PointsOf(recs, key))) && AllAbove(InsertAll([], PointsOf(recs, key)), 0)
    ensures Mentions(recs, key) ==> key in universe && InsertAll([], PointsOf(recs, key)) != []
  {
    hide Storable, InsertAll, PointsOf;
    forall p | p in PointsOf(recs, key) ensures p.ts > 0 {
      PointsOfMember(recs, key, p);
      var rec :| rec in recs && rec.Key() == key && p in rec.points;
      assert GoodRecord(rec, universe);
    }
    InsertAllGood([], PointsOf(recs, key));
    if Mentions(recs, key) {
      var rec :| rec in recs && rec.Key() == key;
      assert GoodRecord(rec, universe);
      PointsOfHas(recs, rec, rec.points[0]);
    }
  }

  lemma {:induction false} FlushFileGood(f: ChunkFile, recs: seq<Record>, metric: Str, universe: set<Series>)
    requires GoodRecords(recs, universe) && HasMetric(recs, metric) && FlushFile(f, recs, metric)
    ensures GoodFile(f, metric, universe)
  {
    hide Storable, InsertAll, PointsOf, RangeIs, Sorted, AllAbove;
    var rec :| rec in recs && rec.metric == metric;
    var one :| one in f.series && one.labels == rec.labels;
    forall d | d in f.series ensures GoodSeries(d) && Series(metric, d.labels) in universe {
      FlushedGood(recs, Series(metric, d.labels), universe);
    }
  }

  lemma {:induction false} FlushFilePoints(f: ChunkFile, recs: seq<Record>, key: Series)
    requires FlushFile(f, recs, key.metric)
    ensures FilePoints(f.series, key.labels) == InsertAll([], PointsOf(recs, key))
  {
    hide InsertAll, PointsOf, RangeIs, FilePoints;
    if Mentions(recs, key) {
      var rec :| rec in recs && rec.Key() == key;
      var d :| d in f.series && d.labels == rec.labels;
      FilePointsOne(f.series, d);
    } else {
      PointsOfUnmentioned(recs, key);
      InsertNone([]);
      FilePointsNone(f.series, key.labels);
    }
  }

  /** A flush appends to each series' cold points those of the segment, inserted in order. */
  lemma {:induction false} WrittenCold(
    chunks: map<Str, Files>, recs: seq<Record>, chunks': map<Str, Files>, key: Series)
    requires ChunksWritten(chunks, recs, chunks')
    ensures ColdPoints(DirOf(chunks', key.metric), key.labels)
         == ColdPoints(DirOf(chunks, key.metric), key.labels) + InsertAll([], PointsOf(recs, key))
  {
    hide InsertAll, PointsOf, FlushFile, ColdPoints, FilePoints, NextNumber;
    if HasMetric(recs, key.metric) {
      var files, files' := DirOf(chunks, key.metric), DirOf(chunks', key.metric);
      assert key.metric in chunks' && AddedFile(files, recs, key.metric, files');
      var n := NextNumber(files);
      NextNumberIsNew(files);
      ColdAdd(files, n, files'[n], key.labels);
      FlushFilePoints(files'[n], recs, key);
    } else {
      assert !Mentions(recs, key);
      PointsOfUnmentioned(recs, key);
      InsertNone([]);
    }
  }

  lemma {:induction false} WrittenGood(
    chunks: map<Str, Files>, recs: seq<Record>, chunks': map<Str, Files>, universe: set<Series>)
    requires GoodChunks(chunks, universe) && GoodRecords(recs, universe)
    requires ChunksWritten(chunks, recs, chunks')
    ensures GoodChunks(chunks', universe)
  {
    hide Storable, FlushFile, GoodFile, GoodRecord, NextNumber;
    forall m | m in chunks' ensures GoodDir(chunks'[m], m, universe) {
      if HasMetric(recs, m) {
        var n := NextNumber(DirOf(chunks, m));
        FlushFileGood(chunks'[m][n], recs, m, universe);
      }
    }
  }

  lemma {:induction false} FlushFileTimes(f: ChunkFile, recs: seq<Record>, metric: Str, low: int, high: int)
    requires FlushFile(f, recs, metric) && RecordsAbove(recs, low)
    requires forall rec, p :: rec in recs && p in rec.points ==> p.ts <= high
    ensures low < f.minTS && f.maxTS <= high
  {
    hide InsertAll, PointsOf;
    forall d, p | d in f.series && p in d.points ensures low < p.ts <= high {
      FlushedPoint(recs, Series(metric, d.labels), p);
    }
  }

  lemma {:induction false} WrittenOrdered(
    chunks: map<Str, Files>, recs: seq<Record>, chunks': map<Str, Files>, low: int, high: int)
    requires ChunksWritten(chunks, recs, chunks') && OrderedDirs(chunks) && HeadersAtMost(chunks, low)
    requires RecordsAbove(recs, low) && low <= high
    requires forall rec, p :: rec in recs && p in rec.points ==> p.ts <= high
    ensures OrderedDirs(chunks') && HeadersAtMost(chunks', high)
  {
    hide FlushFile, NextNumber, RecordsAbove;
    forall m | m in chunks'
      ensures OrderedFiles(chunks'[m]) && forall n :: n in chunks'[m] ==> chunks'[m][n].maxTS <= high
    {
      if HasMetric(recs, m) {
        var files := DirOf(chunks, m);
        NextNumberIsNew(files);
        FlushFileTimes(chunks'[m][NextNumber(files)], recs, m, low, high);
      }
    }
  }

  /** The latest flushed timestamp is in some header. */
  lemma {:induction false} WrittenReached(
    chunks: map<Str, Files>, recs: seq<Record>, chunks': map<Str, Files>, rec: Record, p: Point)
    requires ChunksWritten(chunks, recs, chunks') && rec in recs && p in rec.points
    ensures rec.metric in chunks' && Reached(chunks', p.ts)
  {
    hide NextNumber, InsertAll, PointsOf;
    assert HasMetric(recs, rec.metric);
    var n := NextNumber(DirOf(chunks, rec.metric));
    var f := chunks'[rec.metric][n];
    var d :| d in f.series && d.labels == rec.labels;
    assert Series(rec.metric, d.labels) == rec.Key();
    PointsOfHas(recs, rec, p);
    InsertAllKeepsOrder([], PointsOf(recs, rec.Key()));
    assert p in multiset(PointsOf(recs, rec.Key()));
    assert p in multiset(d.points);
    assert p.ts <= f.maxTS;
  }

  lemma {:induction false} WrittenStillReached(
    chunks: map<Str, Files>, recs: seq<Record>, chunks': map<Str, Files>, t: int)
    requires ChunksWritten(chunks, recs, chunks') && Reached(chunks, t)
    ensures Reached(chunks', t)
  {
    hide FlushFile, NextNumber;
    var m, n :| m in chunks && n in chunks[m] && t <= chunks[m][n].maxTS;
    NextNumberIsNew(chunks[m]);
    assert n in chunks'[m] && chunks'[m][n] == chunks[m][n];
  }

  // ---- what is visible ----

  /** A cold point is covered by the header of a file of its directory. */
  lemma {:induction false} ColdInHeader(files: Files, metric: Str, universe: set<Series>, labels: Labels, p: Point)
    requires files == map[] || GoodDir(files, metric, universe)
    requires p in ColdPoints(files, labels)
    ensures Series(metric, labels) in universe && p.ts > 0
    ensures exists n :: n in files && files[n].minTS <= p.ts <= files[n].maxTS
  {
    hide Storable, Ascending, PointsIn;
    PointsInMember(files, Ascending(files.Keys), labels, p);
    var n, d :| n in files && d in files[n].series && d.labels == labels && p in d.points;
    assert GoodFile(files[n], metric, universe);
    assert GoodSeries(d);
  }

  lemma {:induction false} PointsInSorted(
    files: Files, metric: Str, universe: set<Series>, order: seq<nat>, labels: Labels)
    requires GoodDir(files, metric, universe) && OrderedFiles(files)
    requires forall i, j :: 0 <= i < j < |order| ==> order[i] < order[j]
    ensures Sorted(PointsIn(files, order, labels))
    decreases order
  {
    hide Storable, FilePoints, RangeIs, Distinct;
    if order != [] {
      var n, before := order[|order| - 1], order[..|order| - 1];
      PointsInSorted(files, metric, universe, before, labels);
      if n in files {
        var f := files[n];
        forall p | p in PointsIn(files, before, labels) ensures p.ts < f.minTS {
          PointsInMember(files, before, labels, p);
          var k, d :| k in before && k in files && d in files[k].series && d.labels == labels && p in d.points;
          AtMostMax(files[k], metric, universe, d, p);
        }
        FileSorted(f, metric, universe, labels);
        ConcatSorted(PointsIn(files, before, labels), FilePoints(f.series, labels), f.minTS - 1);
      }
    }
  }

  lemma {:induction false} AtMostMax(f: ChunkFile, metric: Str, universe: set<Series>, d: SeriesData, p: Point)
    requires GoodFile(f, metric, universe) && d in f.series && p in d.points
    ensures f.minTS <= p.ts <= f.maxTS
  {
  }

  lemma {:induction false} FileSorted(f: ChunkFile, metric: Str, universe: set<Series>, labels: Labels)
    requires GoodFile(f, metric, universe)
    ensures Sorted(FilePoints(f.series, labels)) && AllAbove(FilePoints(f.series, labels), f.minTS - 1)
  {
    hide Storable, FilePoints;
    if d :| d in f.series && d.labels == labels {
      FilePointsOne(f.series, d);
      assert GoodSeries(d);
    } else {
      FilePointsNone(f.series, labels);
    }
  }

  /** In an ordered state every query reads each series in time order. */
  lemma {:induction false} VisibleSorted(s: State, universe: set<Series>, key: Series)
    requires Ordered(s, universe)
    ensures Sorted(Visible(s, key))
  {
    hide Usable, Ascending, PointsIn, HotIsSegment, MemAfter, Leftovers, GoodIndex, GoodWal, RecordsAbove, After,
      Sorted, MemPoints, HotPoints, GoodFile, SeriesKey.Hash, GoodMem;
    var files := s.Dir(key.metric);
    if files != map[] {
      PointsInSorted(files, key.metric, universe, Ascending(files.Keys), key.labels);
    } else {
      ColdNone(key.labels);
    }
    HotIsAfter(s, universe, key);
    MemSorted(s.mem, universe, key);
    AfterIsAbove(MemPoints(s.mem, key), s.flushedUpTo);
    forall p | p in ColdPoints(files, key.labels) ensures p.ts <= s.flushedUpTo {
      ColdInHeader(files, key.metric, universe, key.labels, p);
    }
    ConcatSorted(ColdPoints(files, key.labels), HotPoints(s, key), s.flushedUpTo);
  }

  lemma {:induction false} MemSorted(mem: map<uint64, Record>, universe: set<Series>, key: Series)
    requires GoodMem(mem, universe)
    ensures Sorted(MemPoints(mem, key)) && AllAbove(MemPoints(mem, key), 0)
    ensures MemPoints(mem, key) != [] ==> key in universe
  {
    hide Storable, SeriesKey.Hash;
  }

  lemma {:induction false} VisibleKnown(s: State, universe: set<Series>, key: Series)
    requires Shape(s, universe) && key !in universe
    ensures Visible(s, key) == []
  {
    hide Storable, Ascending, PointsIn, SeriesKey.Hash, GoodIndex, GoodWal, After;
    MemSorted(s.mem, universe, key);
    assert MemPoints(s.mem, key) == [];
    AfterOfAbove([], s.flushedUpTo);
    var cold := ColdPoints(s.Dir(key.metric), key.labels);
    if cold != [] {
      ColdInHeader(s.Dir(key.metric), key.metric, universe, key.labels, cold[0]);
    }
  }
}
