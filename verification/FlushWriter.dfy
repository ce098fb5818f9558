/** The body of a flush: the sealed records grouped by metric and series, and one chunk file
    written for each metric. */
module FlushWriter {
  import opened Words
  import opened Model
  import opened Points
  import opened EngineState
  import opened EngineLemmas
  import opened EngineInvariant
  import opened EngineLimits
  import opened Names
  import opened DiskContent
  import opened ChunkFormat
  import opened ChunkStore
  import opened ChunkQuery
  import opened ChunkRewrite
  import SeriesKey

  type Groups = map<Str, map<uint64, Record>>

  /** The groups split the series of a memory image by metric. */
  ghost predicate Grouped(groups: Groups, mem: map<uint64, Record>) {
    && (forall m, id :: m in groups && id in groups[m] ==>
          id in mem && mem[id].metric == m && groups[m][id] == mem[id])
    && (forall id :: id in mem ==> mem[id].metric in groups && id in groups[mem[id].metric])
    && (forall m :: m in groups ==> groups[m] != map[])
  }

  // ---- grouping ----

  function GroupOf(groups: Groups, metric: Str): map<uint64, Record> {
    if metric in groups then groups[metric] else map[]
  }

  /** The entry of the record's series is the same in memory and in its group. */
  lemma {:induction false} SameEntry(groups: Groups, mem: map<uint64, Record>, rec: Record, universe: set<Series>)
    requires NoCollision(universe) && GoodMem(mem, universe) && rec.Key() in universe && Grouped(groups, mem)
    ensures
      var id := SeriesKey.Hash(rec.Key());
      && (id in mem <==> id in GroupOf(groups, rec.metric))
      && (id in mem ==> mem[id].Key() == rec.Key() && GroupOf(groups, rec.metric)[id] == mem[id])
  {
    hide SeriesKey.Hash, Sorted, AllAbove;
    var id := SeriesKey.Hash(rec.Key());
    if id in mem {
      assert GoodEntry(id, mem[id], universe);
    }
  }

  lemma {:induction false} GroupPut(groups: Groups, mem: map<uint64, Record>, id: uint64, s: Record)
    requires Grouped(groups, mem) && (id in mem ==> mem[id].metric == s.metric)
    ensures Grouped(groups[s.metric := GroupOf(groups, s.metric)[id := s]], mem[id := s])
  {
    var group' := GroupOf(groups, s.metric)[id := s];
    assert id in group';
  }

  lemma {:induction false} GroupStep(
    groups: Groups, mem: map<uint64, Record>, rec: Record, points: seq<Point>, universe: set<Series>)
    requires NoCollision(universe) && GoodMem(mem, universe) && rec.Key() in universe && Grouped(groups, mem)
    requires
      var id := SeriesKey.Hash(rec.Key());
      var group := GroupOf(groups, rec.metric);
      points == InsertAll(if id in group then group[id].points else [], rec.points)
    ensures
      var id := SeriesKey.Hash(rec.Key());
      var group := GroupOf(groups, rec.metric);
      Grouped(groups[rec.metric := group[id := Record(rec.metric, rec.labels, points)]], ApplyRecord(mem, rec))
  {
    hide SeriesKey.Hash, InsertAll, GoodMem, NoCollision, Grouped;
    SameEntry(groups, mem, rec, universe);
    GroupPut(groups, mem, SeriesKey.Hash(rec.Key()), Record(rec.metric, rec.labels, points));
  }

  /** One record: its points join those of its series, and the latest timestamp is noted. */
  method GroupRecord(
    groups: Groups, maxTS: int64, rec: Record, ghost mem: map<uint64, Record>, ghost universe: set<Series>)
    returns (groups': Groups, maxTS': int64)
    requires NoCollision(universe) && GoodMem(mem, universe) && rec.Key() in universe && Grouped(groups, mem)
    ensures Grouped(groups', ApplyRecord(mem, rec))
    ensures maxTS' >= maxTS && (forall p :: p in rec.points ==> p.ts <= maxTS')
    ensures maxTS' == maxTS || exists p :: p in rec.points && p.ts == maxTS'
  {
    hide Insert, InsertAll, Sorted, NoCollision, Grouped, ApplyRecord, GoodMem;
    var id := SeriesKey.HashSeries(rec.metric, rec.labels);
    var group := GroupOf(groups, rec.metric);
    var start := if id in group then group[id].points else [];
    GroupSorted(groups, mem, rec.metric, universe);
    var points := start;
    maxTS' := maxTS;
    InsertNone(start);
    assert rec.points[..0] == [];
    var i := 0;
    while i < |rec.points|
      invariant 0 <= i <= |rec.points|
      invariant Sorted(points) && points == InsertAll(start, rec.points[..i])
      invariant maxTS' >= maxTS && (forall p :: p in rec.points[..i] ==> p.ts <= maxTS')
      invariant maxTS' == maxTS || exists p :: p in rec.points[..i] && p.ts == maxTS'
    {
      var p := rec.points[i];
      InsertKeepsOrder(points, p);
      InsertAllPush(start, rec.points[..i], p);
      assert rec.points[..i + 1] == rec.points[..i] + [p];
      points := InsertPointSorted(points, p);
      if p.ts > maxTS' {
        maxTS' := p.ts;
      }
      i := i + 1;
    }
    assert rec.points[..i] == rec.points;
    GroupStep(groups, mem, rec, points, universe);
    groups' := groups[rec.metric := group[id := Record(rec.metric, rec.labels, points)]];
  }

  lemma {:induction false} InsertAllPush(ps: seq<Point>, more: seq<Point>, p: Point)
    ensures InsertAll(ps, more + [p]) == Insert(InsertAll(ps, more), p)
  {
    hide Insert;
    InsertAllAppend(ps, more, [p]);
    InsertNone(Insert(InsertAll(ps, more), p));
    assert [p][1..] == [];
  }

  lemma {:induction false} GroupSorted(groups: Groups, mem: map<uint64, Record>, metric: Str, universe: set<Series>)
    requires GoodMem(mem, universe) && Grouped(groups, mem)
    ensures forall id :: id in GroupOf(groups, metric) ==> Sorted(GroupOf(groups, metric)[id].points)
    ensures Sorted([])
  {
    hide SeriesKey.Hash;
    forall id | id in GroupOf(groups, metric) ensures Sorted(GroupOf(groups, metric)[id].points) {
      assert GoodEntry(id, mem[id], universe);
    }
  }

  lemma {:induction false} MaxStep(recs: seq<Record>, rec: Record, t: int64, t': int64)
    requires IsMaxTS(recs, t) && t' >= t && forall p :: p in rec.points ==> p.ts <= t'
    requires t' == t || exists p :: p in rec.points && p.ts == t'
    ensures IsMaxTS(recs + [rec], t')
  {
    if t' != t {
      assert rec in recs + [rec];
    } else if t != 0 {
      var r, p :| r in recs && p in r.points && p.ts == t;
      assert r in recs + [rec];
    }
  }

  /** All sealed records, grouped by metric and series; and the latest timestamp, or zero. */
  method GroupRecords(recs: seq<Record>, ghost universe: set<Series>) returns (groups: Groups, maxTS: int64)
    requires NoCollision(universe) && GoodRecords(recs, universe)
    ensures Grouped(groups, ReplayMem(recs)) && IsMaxTS(recs, maxTS)
  {
    hide Grouped, NoCollision, ApplyRecord, IsMaxTS, GoodMem;
    groups, maxTS := map[], 0;
    NothingGrouped();
    assert recs[..0] == [];
    var i := 0;
    while i < |recs|
      invariant 0 <= i <= |recs|
      invariant Grouped(groups, ReplayMem(recs[..i])) && IsMaxTS(recs[..i], maxTS)
    {
      assert recs[i] in recs;
      ReplayGood(recs[..i], universe);
      assert recs[..i + 1][..i] == recs[..i] && recs[..i + 1] == recs[..i] + [recs[i]];
      var latest;
      groups, latest := GroupRecord(groups, maxTS, recs[i], ReplayMem(recs[..i]), universe);
      MaxStep(recs[..i], recs[i], maxTS, latest);
      maxTS := latest;
      i := i + 1;
    }
    assert recs[..i] == recs;
  }

  lemma {:induction false} NothingGrouped()
    ensures Grouped(map[], ReplayMem([])) && IsMaxTS([], 0)
  {
  }

  // ---- what the groups hold ----

  lemma {:induction false} ReplayHas(recs: seq<Record>, rec: Record, universe: set<Series>)
    requires NoCollision(universe) && GoodRecords(recs, universe) && rec in recs
    ensures
      var id := SeriesKey.Hash(rec.Key());
      id in ReplayMem(recs) && ReplayMem(recs)[id].Key() == rec.Key()
    decreases recs
  {
    hide SeriesKey.Hash, InsertAll, Sorted, AllAbove;
    var n := |recs| - 1;
    ReplayGood(recs, universe);
    if recs[n] != rec {
      ReplayHas(recs[..n], rec, universe);
    }
    var id := SeriesKey.Hash(rec.Key());
    assert GoodEntry(id, ReplayMem(recs)[id], universe);
    assert GoodRecord(rec, universe);
  }

  lemma {:induction false} ReplayFrom(recs: seq<Record>, id: uint64)
    requires id in ReplayMem(recs)
    ensures Mentions(recs, ReplayMem(recs)[id].Key())
    decreases recs
  {
    hide SeriesKey.Hash, InsertAll;
    var n := |recs| - 1;
    assert recs[n] in recs;
    if id in ReplayMem(recs[..n]) {
      ReplayFrom(recs[..n], id);
      var rec :| rec in recs[..n] && rec.Key() == ReplayMem(recs[..n])[id].Key();
      assert rec in recs;
    }
  }

  lemma {:induction false} GroupedMetrics(groups: Groups, recs: seq<Record>, universe: set<Series>)
    requires NoCollision(universe) && GoodRecords(recs, universe) && Grouped(groups, ReplayMem(recs))
    ensures forall m :: m in groups <==> HasMetric(recs, m)
  {
    hide SeriesKey.Hash, ReplayMem;
    forall m | m in groups ensures HasMetric(recs, m) {
      var id :| id in groups[m];
      ReplayFrom(recs, id);
      var rec :| rec in recs && rec.Key() == ReplayMem(recs)[id].Key();
    }
    forall m | HasMetric(recs, m) ensures m in groups {
      var rec :| rec in recs && rec.metric == m;
      ReplayHas(recs, rec, universe);
    }
  }

  lemma {:induction false} GroupEntry(groups: Groups, recs: seq<Record>, metric: Str, universe: set<Series>, s: Record)
    requires NoCollision(universe) && GoodRecords(recs, universe) && Grouped(groups, ReplayMem(recs))
    requires metric in groups && exists id :: id in groups[metric] && groups[metric][id] == s
    ensures s.metric == metric && s.points != [] && Mentions(recs, s.Key())
    ensures s.points == InsertAll([], PointsOf(recs, s.Key()))
  {
    hide SeriesKey.Hash, ReplayMem, InsertAll, PointsOf, Sorted, AllAbove;
    var id :| id in groups[metric] && groups[metric][id] == s;
    ReplayGood(recs, universe);
    assert GoodEntry(id, ReplayMem(recs)[id], universe);
    ReplayFrom(recs, id);
    ReplayPoints(recs, universe, s.Key());
  }

  lemma {:induction false} GroupIds(groups: Groups, recs: seq<Record>, metric: Str, universe: set<Series>)
    requires NoCollision(universe) && GoodRecords(recs, universe) && Grouped(groups, ReplayMem(recs))
    requires metric in groups
    ensures forall id :: id in groups[metric] ==> SeriesKey.Hash(groups[metric][id].Key()) == id
  {
    hide SeriesKey.Hash, ReplayMem;
    ReplayGood(recs, universe);
    forall id | id in groups[metric] ensures SeriesKey.Hash(groups[metric][id].Key()) == id {
      assert GoodEntry(id, ReplayMem(recs)[id], universe);
    }
  }

  /** The values of a group are the file that a flush writes for the metric. */
  lemma {:induction false} GroupFile(
    groups: Groups, recs: seq<Record>, metric: Str, universe: set<Series>, series: seq<Record>)
    requires NoCollision(universe) && GoodRecords(recs, universe) && Grouped(groups, ReplayMem(recs))
    requires metric in groups
    requires forall i, j :: 0 <= i < j < |series| ==> series[i].Key() != series[j].Key()
    requires forall s :: s in series ==> exists id :: id in groups[metric] && groups[metric][id] == s
    requires forall id :: id in groups[metric] ==> groups[metric][id] in series
    ensures NonEmpty(series) == series && series != [] && FlushFile(ContentOf(series), recs, metric)
  {
    hide SeriesKey.Hash, ReplayMem, InsertAll, PointsOf, RangeIs, Distinct, MinTS, MaxTS, NoCollision, GoodRecords,
      Grouped;
    forall s | s in series
      ensures s.metric == metric && s.points != [] && Mentions(recs, s.Key())
      ensures s.points == InsertAll([], PointsOf(recs, s.Key()))
    {
      GroupEntry(groups, recs, metric, universe, s);
    }
    GroupNotEmpty(groups, ReplayMem(recs), metric);
    AllNonEmpty(series);
    ContentGood(series, metric);
    DataMembers(series);
    var f := ContentOf(series);
    forall d | d in f.series
      ensures
        var key := Series(metric, d.labels);
        Mentions(recs, key) && d.points == InsertAll([], PointsOf(recs, key))
    {
      var i :| 0 <= i < |f.series| && f.series[i] == d;
      assert series[i] in series;
    }
    forall rec | rec in recs && rec.metric == metric ensures exists d :: d in f.series && d.labels == rec.labels {
      GroupHas(groups, recs, rec, universe);
      var s := groups[metric][SeriesKey.Hash(rec.Key())];
      var i :| 0 <= i < |series| && series[i] == s;
      assert f.series[i] in f.series;
    }
  }

  lemma {:induction false} GroupNotEmpty(groups: Groups, mem: map<uint64, Record>, metric: Str)
    requires Grouped(groups, mem) && metric in groups
    ensures exists id :: id in groups[metric]
  {
    assert groups[metric] != map[];
  }

  lemma {:induction false} GroupHas(groups: Groups, recs: seq<Record>, rec: Record, universe: set<Series>)
    requires NoCollision(universe) && GoodRecords(recs, universe) && Grouped(groups, ReplayMem(recs)) && rec in recs
    ensures
      var id := SeriesKey.Hash(rec.Key());
      rec.metric in groups && id in groups[rec.metric] && groups[rec.metric][id].Key() == rec.Key()
  {
    hide SeriesKey.Hash, ReplayMem;
    ReplayHas(recs, rec, universe);
  }

  // ---- writing ----

  /** No series of the records has more points than a file can hold. */
  ghost predicate FewPoints(recs: seq<Record>) {
    forall key :: |PointsOf(recs, key)| <= MAX_POINTS
  }

  lemma {:induction false} GroupStoring(
    groups: Groups, recs: seq<Record>, metric: Str, universe: set<Series>, series: seq<Record>)
    requires NoCollision(universe) && GoodRecords(recs, universe) && Grouped(groups, ReplayMem(recs))
    requires metric in groups && FewPoints(recs) && series != []
    requires forall i, j :: 0 <= i < j < |series| ==> series[i].Key() != series[j].Key()
    requires forall s :: s in series ==> exists id :: id in groups[metric] && groups[metric][id] == s
    ensures Storing(series, metric, universe)
  {
    hide ReplayMem, InsertAll, PointsOf, NoCollision, Grouped;
    NoneSorted();
    forall s | s in series
      ensures s.metric == metric && s.points != [] && |s.points| <= MAX_POINTS && s.Key() in universe
    {
      GroupEntry(groups, recs, metric, universe, s);
      InsertAllKeepsOrder([], PointsOf(recs, s.Key()));
      SameSize(s.points, PointsOf(recs, s.Key()));
      var rec :| rec in recs && rec.Key() == s.Key();
      assert GoodRecord(rec, universe);
    }
  }

  /** What writing the files of a flush may rely on. */
  ghost predicate Writable(groups: Groups, recs: seq<Record>, universe: set<Series>) {
    Usable(universe) && GoodRecords(recs, universe) && Grouped(groups, ReplayMem(recs)) && FewPoints(recs)
  }

  ghost predicate AddedBytes(files: ByteFiles, recs: seq<Record>, metric: Str, files': ByteFiles) {
    AddedFile(Contents(files), recs, metric, Contents(files'))
  }

  /** The file of one metric is added under the next number, and reads back as its content. */
  method WriteGroup(
    files: ByteFiles, groups: Groups, metric: Str, ghost recs: seq<Record>, ghost universe: set<Series>)
    returns (files': ByteFiles)
    requires Writable(groups, recs, universe) && metric in groups && forall n :: n in files ==> n < NUMBERS
    ensures AddedBytes(files, recs, metric, files')
    ensures AllReadable(files) ==> AllReadable(files')
  {
    hide Grouped, NoCollision, Storable, GoodRecords, ReplayMem, ContentOf, FlushFile, NextNumber, FewPoints, Storing,
      WithFile, Content, Readable, FileBytes, NonEmpty;
    GroupIds(groups, recs, metric, universe);
    var series := Values(groups[metric]);
    GroupFile(groups, recs, metric, universe, series);
    GroupStoring(groups, recs, metric, universe, series);
    Wrote(files, series, metric, universe);
    files' := WriteFile(files, series);
  }

  lemma {:induction false} OwnGroups(recs: seq<Record>, universe: set<Series>)
    requires GoodRecords(recs, universe) && Usable(universe)
    ensures forall m :: HasMetric(recs, m) ==> SanitizeMetric(m) == m
  {
    hide SanitizeMetric, NoCollision;
    forall m | HasMetric(recs, m) ensures SanitizeMetric(m) == m {
      var rec :| rec in recs && rec.metric == m;
      assert GoodRecord(rec, universe);
      assert Storable(rec.Key());
    }
  }

  /** One new file in the directory of each group, metric after metric in any order. */
  method WriteChunks(
    chunks: map<Str, ByteFiles>, groups: Groups, ghost recs: seq<Record>, ghost universe: set<Series>)
    returns (chunks': map<Str, ByteFiles>)
    requires Writable(groups, recs, universe)
    requires forall m, n :: m in chunks && n in chunks[m] ==> n < NUMBERS
    ensures ChunksWritten(ChunkContents(chunks), recs, ChunkContents(chunks'))
    ensures (forall m :: m in chunks ==> AllReadable(chunks[m])) ==>
              forall m :: m in chunks' ==> AllReadable(chunks'[m])
  {
    hide Grouped, Usable, GoodRecords, ReplayMem, AddedBytes, HasMetric, SanitizeMetric, FewPoints, Contents,
      AllReadable;
    NothingStored();
    GroupedMetrics(groups, recs, universe) by { UsableApart(universe); }
    OwnGroups(recs, universe);
    chunks' := chunks;
    var left := groups.Keys;
    while left != {}
      invariant left <= groups.Keys
      invariant forall m :: m in chunks' <==> m in chunks || (m in groups && m !in left)
      invariant forall m :: m in chunks && (m !in groups || m in left) ==> chunks'[m] == chunks[m]
      invariant forall m :: m in groups && m !in left ==> AddedBytes(ByteDir(chunks, m), recs, m, chunks'[m])
      invariant (forall m :: m in chunks ==> AllReadable(chunks[m])) ==>
                  forall m :: m in chunks' ==> AllReadable(chunks'[m])
      decreases left
    {
      var m :| m in left;
      var dir := SanitizeMetric(m);
      var files := WriteGroup(ByteDir(chunks', dir), groups, m, recs, universe);
      chunks' := chunks'[dir := files];
      left := left - {m};
    }
    AllWritten(chunks, groups, recs, chunks');
  }

  lemma {:induction false} AllWritten(
    chunks: map<Str, ByteFiles>, groups: Groups, recs: seq<Record>, chunks': map<Str, ByteFiles>)
    requires forall m :: m in groups <==> HasMetric(recs, m)
    requires forall m :: m in chunks' <==> m in chunks || m in groups
    requires forall m :: m in chunks && m !in groups ==> chunks'[m] == chunks[m]
    requires forall m :: m in groups ==> AddedBytes(ByteDir(chunks, m), recs, m, chunks'[m])
    ensures ChunksWritten(ChunkContents(chunks), recs, ChunkContents(chunks'))
  {
    hide AddedFile, HasMetric, Contents, ChunkContents, DirOf, ByteDir;
    forall m: Str
      ensures m in ChunkContents(chunks) <==> m in chunks
      ensures m in chunks ==> ChunkContents(chunks)[m] == Contents(chunks[m])
      ensures DirOf(ChunkContents(chunks), m) == Contents(ByteDir(chunks, m))
    {
      EachContents(chunks, m);
    }
    forall m: Str
      ensures m in ChunkContents(chunks') <==> m in chunks'
      ensures m in chunks' ==> ChunkContents(chunks')[m] == Contents(chunks'[m])
    {
      EachContents(chunks', m);
    }
  }

  lemma {:induction false} EachContents(chunks: map<Str, ByteFiles>, m: Str)
    ensures m in ChunkContents(chunks) <==> m in chunks
    ensures m in chunks ==> ChunkContents(chunks)[m] == Contents(chunks[m])
    ensures DirOf(ChunkContents(chunks), m) == Contents(ByteDir(chunks, m))
  {
    hide Contents;
    ContentsDir(chunks, m);
  }

  lemma {:induction false} UsableApart(universe: set<Series>)
    requires Usable(universe)
    ensures NoCollision(universe)
  {
    hide NoCollision, Storable;
  }

  lemma {:induction false} NothingStored()
    ensures AllReadable(map[])
  {
  }
}
