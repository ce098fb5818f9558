/** Compaction, drop and retention. */
module EngineMaintenance {
  import opened Words
  import opened Model
  import opened Points
  import opened EngineState
  import opened EngineLemmas
  import opened EngineInvariant
  import opened EngineSteps
  import SeriesKey

  // ---- compaction ----

  /** What a file holds is among the cold points. */
  lemma {:induction false} HeldIsCold(files: Files, order: seq<nat>, n: nat, d: SeriesData, p: Point)
    requires n in order && n in files && Distinct(files[n].series) && d in files[n].series && p in d.points
    ensures p in PointsIn(files, order, d.labels)
    decreases order
  {
    hide FilePoints;
    var last := order[|order| - 1];
    if last == n {
      FilePointsOne(files[n].series, d);
    } else {
      HeldIsCold(files, order[..|order| - 1], n, d, p);
    }
  }

  lemma {:induction false} HeldInDir(files: Files, n: nat, d: SeriesData, p: Point)
    requires n in files && Distinct(files[n].series) && d in files[n].series && p in d.points
    ensures p in ColdPoints(files, d.labels)
  {
    hide Ascending, PointsIn;
    HeldIsCold(files, Ascending(files.Keys), n, d, p);
  }

  lemma {:induction false} MergedHas(
    g: ChunkFile, files: Files, n: nat, d: SeriesData, p: Point) returns (e: SeriesData)
    requires MergedFile(g, files)
    requires n in files && Distinct(files[n].series) && d in files[n].series && p in d.points
    ensures e in g.series && p in e.points
  {
    hide ColdPoints, RangeIs, Distinct, Sorted;
    HeldInDir(files, n, d, p);
    e :| e in g.series && e.labels == d.labels;
    assert p in multiset(ColdPoints(files, d.labels));
    assert p in multiset(e.points);
  }

  lemma {:induction false} MergedFrom(
    g: ChunkFile, files: Files, metric: Str, universe: set<Series>, d: SeriesData, p: Point)
    requires MergedFile(g, files) && GoodDir(files, metric, universe) && d in g.series && p in d.points
    ensures Series(metric, d.labels) in universe && p.ts > 0
    ensures exists n :: n in files && files[n].minTS <= p.ts <= files[n].maxTS
  {
    hide Storable, ColdPoints, RangeIs, Distinct, Sorted, GoodFile;
    assert p in multiset(d.points);
    assert p in multiset(ColdPoints(files, d.labels));
    ColdInHeader(files, metric, universe, d.labels, p);
  }

  lemma {:induction false} MergedGood(g: ChunkFile, files: Files, metric: Str, universe: set<Series>)
    requires MergedFile(g, files) && GoodDir(files, metric, universe)
    ensures GoodFile(g, metric, universe)
  {
    hide Storable, ColdPoints, RangeIs;
    forall d | d in g.series ensures GoodSeries(d) && Series(metric, d.labels) in universe {
      forall p | p in d.points ensures p.ts > 0 {
        MergedFrom(g, files, metric, universe, d, p);
      }
      MergedFrom(g, files, metric, universe, d, d.points[0]);
    }
    var n :| n in files;
    assert GoodFile(files[n], metric, universe);
    var d := files[n].series[0];
    assert d in files[n].series && GoodSeries(d);
    var _ := MergedHas(g, files, n, d, d.points[0]);
  }

  lemma {:induction false} MergedRange(g: ChunkFile, files: Files, metric: Str, universe: set<Series>)
    requires MergedFile(g, files) && GoodDir(files, metric, universe)
    ensures exists n :: n in files && g.maxTS <= files[n].maxTS
    ensures forall n :: n in files ==> files[n].maxTS <= g.maxTS
  {
    hide Storable, ColdPoints, Sorted;
    var d, p :| d in g.series && p in d.points && p.ts == g.maxTS;
    MergedFrom(g, files, metric, universe, d, p);
    forall n | n in files ensures files[n].maxTS <= g.maxTS {
      assert GoodFile(files[n], metric, universe);
      var d, p :| d in files[n].series && p in d.points && p.ts == files[n].maxTS;
      var e := MergedHas(g, files, n, d, p);
    }
  }

  /** At every moment of a compaction, with the new file in place and any of the old ones
      already removed, each series reads at least what it read before, and again exactly that
      once all are removed. */
  lemma {:induction false} CompactNeverLoses(files: Files, g: ChunkFile, removed: set<nat>, labels: Labels)
    requires MergedFile(g, files) && removed <= files.Keys
    ensures
      var now := multiset(ColdPoints((files - removed)[NextNumber(files) := g], labels));
      && multiset(ColdPoints(files, labels)) <= now
      && (removed == files.Keys ==> now == multiset(ColdPoints(files, labels)))
  {
    hide ColdPoints, RangeIs, FilePoints, NextNumber, Distinct;
    var n, left := NextNumber(files), files - removed;
    NextNumberIsNew(files);
    ColdAdd(left, n, g, labels);
    MergedPoints(g, files, labels);
    if removed == files.Keys {
      assert left == map[];
      ColdNone(labels);
    }
  }

  /** The merged file holds of each series the points of all files. */
  lemma {:induction false} MergedPoints(g: ChunkFile, files: Files, labels: Labels)
    requires MergedFile(g, files)
    ensures multiset(FilePoints(g.series, labels)) == multiset(ColdPoints(files, labels))
    ensures Sorted(FilePoints(g.series, labels))
  {
    hide ColdPoints, RangeIs, FilePoints;
    if d :| d in g.series && d.labels == labels {
      FilePointsOne(g.series, d);
    } else {
      FilePointsNone(g.series, labels);
      assert ColdPoints(files, labels) == [];
    }
  }

  /** Compaction keeps every series' points as a multiset and leaves them sorted. */
  lemma {:induction false} CompactedCold(files: Files, threshold: int, files': Files, labels: Labels)
    requires CompactedDir(files, threshold, files')
    ensures multiset(ColdPoints(files', labels)) == multiset(ColdPoints(files, labels))
    ensures files' != files ==> Sorted(ColdPoints(files', labels))
  {
    hide ColdPoints, RangeIs, FilePoints, NextNumber;
    if files' != files {
      var n := NextNumber(files);
      var g := files'[n];
      ColdOne(n, g, labels);
      MergedPoints(g, files, labels);
    }
  }

  /** Every header maximum of the first directory is reached in the second. */
  ghost predicate Dominates(files': Files, files: Files) {
    forall n :: n in files ==> exists k :: k in files' && files[n].maxTS <= files'[k].maxTS
  }

  lemma {:induction false} CompactedGood(
    files: Files, threshold: int, files': Files, metric: Str, universe: set<Series>)
    requires CompactedDir(files, threshold, files') && GoodDir(files, metric, universe)
    ensures GoodDir(files', metric, universe) && (OrderedFiles(files) ==> OrderedFiles(files'))
    ensures Dominates(files, files') && Dominates(files', files)
  {
    hide Storable, MergedFile, GoodFile, NextNumber;
    if files' != files {
      var n := NextNumber(files);
      MergedGood(files'[n], files, metric, universe);
      MergedRange(files'[n], files, metric, universe);
      assert n in files';
    }
  }

  lemma {:induction false} CompactHeaders(s: State, threshold: int, s': State, universe: set<Series>)
    requires Compact(s, threshold, s') && GoodChunks(s.disk.chunks, universe)
    ensures GoodChunks(s'.disk.chunks, universe)
    ensures OrderedDirs(s.disk.chunks) ==> OrderedDirs(s'.disk.chunks)
    ensures forall m :: m in s.disk.chunks ==>
      && Dominates(s.disk.chunks[m], s'.disk.chunks[m]) && Dominates(s'.disk.chunks[m], s.disk.chunks[m])
  {
    hide Storable, CompactedDir, GoodDir, OrderedFiles, Dominates;
    var chunks, chunks' := s.disk.chunks, s'.disk.chunks;
    assert forall m :: m in chunks' <==> m in chunks;
    forall m | m in chunks
      ensures GoodDir(chunks'[m], m, universe) && (OrderedFiles(chunks[m]) ==> OrderedFiles(chunks'[m]))
      ensures Dominates(chunks[m], chunks'[m]) && Dominates(chunks'[m], chunks[m])
    {
      CompactedGood(chunks[m], threshold, chunks'[m], m, universe);
    }
  }

  lemma {:induction false} CompactReach(chunks: map<Str, Files>, chunks': map<Str, Files>, t: int)
    requires chunks'.Keys == chunks.Keys
    requires forall m :: m in chunks ==> Dominates(chunks[m], chunks'[m]) && Dominates(chunks'[m], chunks[m])
    ensures HeadersAtMost(chunks, t) ==> HeadersAtMost(chunks', t)
    ensures Reached(chunks, t) ==> Reached(chunks', t)
  {
    assert forall m :: m in chunks' <==> m in chunks;
    if HeadersAtMost(chunks, t) {
      forall m, n | m in chunks' && n in chunks'[m] ensures chunks'[m][n].maxTS <= t {
        var k :| k in chunks[m] && chunks'[m][n].maxTS <= chunks[m][k].maxTS;
      }
    }
    if Reached(chunks, t) {
      var m, n :| m in chunks && n in chunks[m] && t <= chunks[m][n].maxTS;
      var k :| k in chunks'[m] && chunks[m][n].maxTS <= chunks'[m][k].maxTS;
    }
  }

  lemma {:induction false} CompactShape(s: State, threshold: int, s': State, universe: set<Series>)
    requires Shape(s, universe) && Compact(s, threshold, s')
    ensures Shape(s', universe)
  {
    hide Storable, CompactedDir, GoodIndex, GoodChunks, GoodMem, NoCollision;
    CompactHeaders(s, threshold, s', universe);
  }

  /** Compaction keeps the invariant, and queries read the same points of every series. */
  lemma {:induction false} CompactKeeps(s: State, threshold: int, s': State, universe: set<Series>)
    requires Ordered(s, universe) && Compact(s, threshold, s')
    ensures Ordered(s', universe)
  {
    hide Storable, CompactedDir, GoodIndex, GoodChunks, GoodMem, NoCollision, HeadersAtMost, OrderedDirs, Reached,
      MemPoints, InsertAll, After, PointsOf, Dominates;
    CompactShape(s, threshold, s', universe);
    CompactHeaders(s, threshold, s', universe);
    assert forall m :: m in s.disk.chunks <==> m in s'.disk.chunks;
    forall t: int
      ensures HeadersAtMost(s.disk.chunks, t) ==> HeadersAtMost(s'.disk.chunks, t)
      ensures Reached(s.disk.chunks, t) ==> Reached(s'.disk.chunks, t)
    {
      CompactReach(s.disk.chunks, s'.disk.chunks, t);
    }
  }

  lemma {:induction false} CompactVisible(s: State, threshold: int, s': State, key: Series)
    requires Compact(s, threshold, s')
    ensures multiset(Visible(s', key)) == multiset(Visible(s, key))
  {
    hide CompactedDir, ColdPoints, MemPoints, After;
    var m := key.metric;
    assert m in s'.disk.chunks <==> m in s.disk.chunks;
    if m in s.disk.chunks {
      CompactedCold(s.disk.chunks[m], threshold, s'.disk.chunks[m], key.labels);
    }
    assert HotPoints(s', key) == HotPoints(s, key);
  }

  // ---- drop ----

  lemma {:induction false} KeepPoints(series: seq<SeriesData>, filter: Labels, labels: Labels)
    ensures FilePoints(Keep(series, filter), labels)
         == if LabelsMatch(filter, labels) then [] else FilePoints(series, labels)
  {
    hide LabelsMatch;
    if series != [] {
      KeepPoints(series[1..], filter, labels);
      var kept := Keep(series, filter);
      if !LabelsMatch(filter, series[0].labels) {
        assert kept[0] == series[0] && kept[1..] == Keep(series[1..], filter);
      } else {
        assert kept == Keep(series[1..], filter);
      }
    }
  }

  lemma {:induction false} KeepMembers(series: seq<SeriesData>, filter: Labels)
    ensures forall d :: d in Keep(series, filter) <==> d in series && !LabelsMatch(filter, d.labels)
    ensures Distinct(series) ==> Distinct(Keep(series, filter))
  {
    hide LabelsMatch;
    if series != [] {
      KeepMembers(series[1..], filter);
      if Distinct(series) {
        KeepDistinct(series, filter);
      }
    }
  }

  lemma {:induction false} KeepDistinct(series: seq<SeriesData>, filter: Labels)
    requires series != [] && Distinct(series)
    requires forall d :: d in Keep(series[1..], filter) ==> d in series[1..]
    requires Distinct(series[1..]) ==> Distinct(Keep(series[1..], filter))
    ensures Distinct(Keep(series, filter))
  {
    hide LabelsMatch;
    var rest := Keep(series[1..], filter);
    assert Distinct(series[1..]);
    forall i | 0 <= i < |rest| ensures rest[i].labels != series[0].labels {
      assert rest[i] in series[1..];
    }
  }

  /** A drop removes the matching series from the files of a directory and keeps the others. */
  lemma {:induction false} DroppedCold(files: Files, filter: Labels, files': Files, labels: Labels)
    requires DroppedFiles(files, filter, files')
    ensures ColdPoints(files', labels) == if LabelsMatch(filter, labels) then [] else ColdPoints(files, labels)
  {
    hide Ascending, PointsIn, FilePoints, LabelsMatch, RangeIs, Keep;
    forall n | n in files
      ensures (if n in files' then FilePoints(files'[n].series, labels) else [])
           == if LabelsMatch(filter, labels) then [] else FilePoints(files[n].series, labels)
    {
      KeepPoints(files[n].series, filter, labels);
      if n !in files' {
        NoSeries(labels);
      }
    }
    AbsentNumbers(files', files.Keys, files'.Keys, labels);
    DroppedPoints(files, filter, files', Ascending(files.Keys), labels);
  }

  lemma {:induction false} NoSeries(labels: Labels)
    ensures FilePoints([], labels) == []
  {
  }

  lemma {:induction false} DroppedPoints(
    files: Files, filter: Labels, files': Files, order: seq<nat>, labels: Labels)
    requires forall n :: n in order ==> n in files
    requires forall n :: n in files ==>
      (if n in files' then FilePoints(files'[n].series, labels) else [])
        == if LabelsMatch(filter, labels) then [] else FilePoints(files[n].series, labels)
    ensures PointsIn(files', order, labels)
         == if LabelsMatch(filter, labels) then [] else PointsIn(files, order, labels)
    decreases order
  {
    hide FilePoints, LabelsMatch;
    if order != [] {
      var n := order[|order| - 1];
      assert n in order;
      DroppedPoints(files, filter, files', order[..|order| - 1], labels);
    }
  }

  lemma {:induction false} KeptGood(f: ChunkFile, filter: Labels, f': ChunkFile, metric: Str, universe: set<Series>)
    requires GoodFile(f, metric, universe) && KeptFile(f, filter, f') && f'.series != []
    ensures GoodFile(f', metric, universe) && f.minTS <= f'.minTS && f'.maxTS <= f.maxTS
  {
    hide Storable, GoodSeries, Distinct, LabelsMatch, Keep;
    KeepMembers(f.series, filter);
  }

  lemma {:induction false} DroppedGood(files: Files, filter: Labels, files': Files, metric: Str, universe: set<Series>)
    requires DroppedFiles(files, filter, files') && files' != map[]
    requires GoodDir(files, metric, universe) && OrderedFiles(files)
    ensures GoodDir(files', metric, universe) && OrderedFiles(files')
    ensures forall n :: n in files' ==> n in files && files'[n].maxTS <= files[n].maxTS
  {
    hide Storable, GoodFile, KeptFile, Keep;
    forall n | n in files'
      ensures GoodFile(files'[n], metric, universe)
           && files[n].minTS <= files'[n].minTS && files'[n].maxTS <= files[n].maxTS
    {
      assert files'[n].series == Keep(files[n].series, filter) by { KeptSeries(files[n], filter, files'[n]); }
      KeptGood(files[n], filter, files'[n], metric, universe);
    }
  }

  lemma {:induction false} KeptSeries(f: ChunkFile, filter: Labels, f': ChunkFile)
    requires KeptFile(f, filter, f')
    ensures f'.series == Keep(f.series, filter)
  {
  }

  lemma {:induction false} DroppedChunks(
    chunks: map<Str, Files>, metric: Str, filter: Labels, chunks': map<Str, Files>, t: int, universe: set<Series>)
    requires DroppedDir(chunks, metric, filter, chunks')
    requires GoodChunks(chunks, universe) && OrderedDirs(chunks) && HeadersAtMost(chunks, t)
    ensures GoodChunks(chunks', universe) && OrderedDirs(chunks') && HeadersAtMost(chunks', t)
  {
    hide Storable, GoodDir, OrderedFiles, DroppedFiles;
    if metric in chunks' {
      DroppedGood(chunks[metric], filter, chunks'[metric], metric, universe);
    }
  }

  lemma {:induction false} DroppedColdDir(
    chunks: map<Str, Files>, metric: Str, filter: Labels, chunks': map<Str, Files>, key: Series)
    requires DroppedDir(chunks, metric, filter, chunks')
    ensures ColdPoints(DirOf(chunks', key.metric), key.labels)
         == if key.metric == metric && LabelsMatch(filter, key.labels) then []
            else ColdPoints(DirOf(chunks, key.metric), key.labels)
  {
    hide ColdPoints, DroppedFiles, LabelsMatch;
    ColdNone(key.labels);
    if key.metric == metric && metric in chunks {
      DroppedCold(chunks[metric], filter, DirOf(chunks', metric), key.labels);
    }
  }

  /** A clean ordered state has nothing in memory right after a flush. */
  lemma {:induction false} FlushedMemory(s: State, s': State, universe: set<Series>)
    requires Ordered(s, universe) && Clean(s) && Flush(s, s')
    ensures s'.mem == map[]
  {
    hide Storable, InsertAll, After, GoodChunks, HeadersAtMost, OrderedDirs, Leftovers, SeriesKey.Hash, GoodIndex,
      ChunksWritten, IsMaxTS, Evict, Sorted;
    if s.Segment() == [] {
      forall id | id in s.mem ensures false {
        var key := s.mem[id].Key();
        assert GoodEntry(id, s.mem[id], universe);
        AfterOfAbove(s.mem[id].points, s.flushedUpTo);
        assert PointsOf(s.Segment(), key) == [];
        InsertNone([]);
      }
      assert s'.mem == s.mem;
    } else {
      FlushSome(s, s', universe);
    }
  }

  lemma {:induction false} DropIndex(
    index: map<Str, set<uint64>>, dirs: set<Str>, metric: Str, dirs': set<Str>, universe: set<Series>)
    requires GoodIndex(index, map[], dirs, universe)
    requires dirs' == dirs || dirs' == dirs - {metric}
    ensures GoodIndex(if metric in dirs' then index else index - {metric}, map[], dirs', universe)
  {
    assert forall m :: m in index ==> m in dirs;
  }

  /** Dropping keeps the invariant; the matching series are gone and no other changes. */
  lemma {:induction false} DropAfterFlushKeeps(
    mid: State, metric: Str, filter: Labels, s': State, universe: set<Series>)
    requires Ordered(mid, universe) && Clean(mid) && mid.mem == map[] && mid.Segment() == []
    requires DropAfterFlush(mid, metric, metric, filter, s')
    ensures Ordered(s', universe) && Clean(s')
  {
    hide Storable, DroppedDir, GoodChunks, HeadersAtMost, OrderedDirs, NoCollision, GoodIndex, SeriesKey.Hash,
      LabelsMatch;
    assert s'.mem == map[];
    DroppedChunks(mid.disk.chunks, metric, filter, s'.disk.chunks, mid.flushedUpTo, universe);
    NothingEvicted(mid, metric, filter, metric in s'.disk.chunks);
    DroppedKeys(mid.disk.chunks, metric, filter, s'.disk.chunks);
    DropIndex(mid.index, mid.disk.chunks.Keys, metric, s'.disk.chunks.Keys, universe);
    EmptyMemHot(s', universe);
  }

  lemma {:induction false} NothingEvicted(mid: State, metric: Str, filter: Labels, dirLeft: bool)
    requires mid.mem == map[]
    ensures DroppedIndex(mid, metric, filter, dirLeft) == if dirLeft then mid.index else mid.index - {metric}
  {
  }

  lemma {:induction false} DroppedKeys(chunks: map<Str, Files>, metric: Str, filter: Labels, chunks': map<Str, Files>)
    requires DroppedDir(chunks, metric, filter, chunks')
    ensures chunks'.Keys == chunks.Keys || chunks'.Keys == chunks.Keys - {metric}
    ensures metric in chunks' ==> chunks'.Keys == chunks.Keys
  {
    hide DroppedFiles;
  }

  /** Dropping an unknown metric: nothing of it is stored. */
  lemma {:induction false} UnknownMetric(s: State, universe: set<Series>, metric: Str, key: Series)
    requires Shape(s, universe) && metric !in s.index && metric !in s.disk.chunks && key.metric == metric
    ensures Visible(s, key) == []
  {
    hide Storable, SeriesKey.Hash, ColdPoints, After;
    ColdNone(key.labels);
    AfterNone(s.flushedUpTo);
    forall id | id in s.mem ensures s.mem[id].metric != metric {
      assert Listed(s.index, s.mem[id].metric, id);
    }
  }

  lemma {:induction false} DropKeeps(
    s: State, metric: Str, filter: Labels, s': State, dropped: bool, universe: set<Series>)
    requires Ordered(s, universe) && Clean(s) && Drop(s, metric, metric, filter, s', dropped)
    ensures Ordered(s', universe) && Clean(s')
  {
    hide Storable, Ordered, Flush, DropAfterFlush, AnyMatch;
    if s' != s {
      var mid :| Flush(s, mid) && DropAfterFlush(mid, metric, metric, filter, s')
        && (dropped <==> AnyMatch(mid, metric, metric, filter));
      FlushKeeps(s, mid, universe);
      FlushedMemory(s, mid, universe);
      DropAfterFlushKeeps(mid, metric, filter, s', universe);
    }
  }

  /** After a drop the matching series read as empty and every other series reads the same. */
  lemma {:induction false} DropVisible(
    s: State, metric: Str, filter: Labels, s': State, dropped: bool, universe: set<Series>, key: Series)
    requires Ordered(s, universe) && Clean(s) && Drop(s, metric, metric, filter, s', dropped)
    ensures Visible(s', key)
         == if key.metric == metric && LabelsMatch(filter, key.labels) then [] else Visible(s, key)
  {
    hide Storable, Ordered, Flush, DroppedDir, AnyMatch, ColdPoints, LabelsMatch, HotPoints, DroppedIndex;
    if metric !in s.index && metric !in s.disk.chunks {
      if key.metric == metric {
        assert Shape(s, universe) by { OrderedShape(s, universe); }
        UnknownMetric(s, universe, metric, key);
      }
    } else {
      var mid :| Flush(s, mid) && DropAfterFlush(mid, metric, metric, filter, s')
        && (dropped <==> AnyMatch(mid, metric, metric, filter));
      FlushKeeps(s, mid, universe);
      FlushInvisible(s, mid, universe, key);
      FlushedMemory(s, mid, universe);
      assert s'.mem == map[];
      assert HotPoints(mid, key) == [] by { NothingHot(mid, key); }
      assert HotPoints(s', key) == [] by { NothingHot(s', key); }
      DroppedColdDir(mid.disk.chunks, metric, filter, s'.disk.chunks, key);
    }
  }

  lemma {:induction false} OrderedShape(s: State, universe: set<Series>)
    requires Ordered(s, universe)
    ensures Shape(s, universe)
  {
  }

  lemma {:induction false} NothingHot(s: State, key: Series)
    requires s.mem == map[]
    ensures HotPoints(s, key) == []
  {
    hide After, SeriesKey.Hash;
    AfterNone(s.flushedUpTo);
    assert MemPoints(s.mem, key) == [];
  }

  /** Drop reports true exactly when some series it matches had a point to read. */
  lemma {:induction false} DropReports(
    s: State, metric: Str, filter: Labels, s': State, dropped: bool, universe: set<Series>)
    requires Ordered(s, universe) && Clean(s) && Drop(s, metric, metric, filter, s', dropped)
    ensures dropped
       <==> exists key: Series :: key.metric == metric && LabelsMatch(filter, key.labels) && Visible(s, key) != []
  {
    hide Storable, Ordered, Flush, DropAfterFlush, ColdPoints, LabelsMatch, HotPoints;
    if metric !in s.index && metric !in s.disk.chunks {
      OrderedShape(s, universe);
      forall key: Series | key.metric == metric ensures Visible(s, key) == [] {
        UnknownMetric(s, universe, metric, key);
      }
    } else {
      var mid :| Flush(s, mid) && DropAfterFlush(mid, metric, metric, filter, s')
        && (dropped <==> AnyMatch(mid, metric, metric, filter));
      FlushKeeps(s, mid, universe);
      FlushedMemory(s, mid, universe);
      OrderedShape(mid, universe);
      AnyMatchVisible(mid, metric, filter, universe);
      forall key ensures Visible(mid, key) == Visible(s, key) {
        FlushInvisible(s, mid, universe, key);
      }
    }
  }

  lemma {:induction false} AnyMatchVisible(mid: State, metric: Str, filter: Labels, universe: set<Series>)
    requires Shape(mid, universe) && mid.mem == map[]
    ensures AnyMatch(mid, metric, metric, filter)
       <==> exists key: Series :: key.metric == metric && LabelsMatch(filter, key.labels) && Visible(mid, key) != []
  {
    hide Storable, ColdPoints, LabelsMatch, HotPoints, GoodSeries, RangeIs;
    var files := mid.Dir(metric);
    if AnyMatch(mid, metric, metric, filter) {
      var n, d :| n in files && d in files[n].series && LabelsMatch(filter, d.labels);
      assert GoodFile(files[n], metric, universe);
      assert d.points != [] by { GoodNotEmpty(d); }
      HeldInDir(files, n, d, d.points[0]);
      assert Visible(mid, Series(metric, d.labels)) != [];
    }
    if key: Series :| key.metric == metric && LabelsMatch(filter, key.labels) && Visible(mid, key) != [] {
      NothingHot(mid, key);
      ColdInSeries(files, key.labels);
    }
  }

  lemma {:induction false} GoodNotEmpty(d: SeriesData)
    requires GoodSeries(d)
    ensures d.points != []
  {
  }

  lemma {:induction false} ColdInSeries(files: Files, labels: Labels)
    requires ColdPoints(files, labels) != []
    ensures exists n, d :: n in files && d in files[n].series && d.labels == labels
  {
    hide PointsIn, Ascending;
    var cold := ColdPoints(files, labels);
    assert cold[0] in cold;
    PointsInMember(files, Ascending(files.Keys), labels, cold[0]);
  }

  // ---- retention ----

  lemma {:induction false} FreshPoints(
    files: Files, cutoff: int64, order: seq<nat>, metric: Str, universe: set<Series>, labels: Labels)
    requires forall n :: n in files ==> GoodFile(files[n], metric, universe)
    ensures Trimmed(PointsIn(files, order, labels), PointsIn(FreshFiles(files, cutoff), order, labels), cutoff)
    decreases order
  {
    hide FilePoints, GoodFile, Trimmed;
    if order == [] {
      TrimmedSame([], cutoff);
    } else {
      var n, most := order[|order| - 1], order[..|order| - 1];
      FreshPoints(files, cutoff, most, metric, universe, labels);
      var ps := if n in files then FilePoints(files[n].series, labels) else [];
      TrimmedSame(ps, cutoff);
      if n in files && files[n].maxTS < cutoff {
        ExpiredFile(files[n], cutoff, metric, universe, labels);
        TrimmedAway(ps, cutoff);
      }
      TrimmedConcat(
        PointsIn(files, most, labels), PointsIn(FreshFiles(files, cutoff), most, labels), ps,
        if n in files && files[n].maxTS < cutoff then [] else ps, cutoff);
    }
  }

  lemma {:induction false} TrimmedSame(ps: seq<Point>, cutoff: int)
    ensures Trimmed(ps, ps, cutoff)
  {
  }

  lemma {:induction false} TrimmedAway(ps: seq<Point>, cutoff: int)
    requires forall p: Point :: p.ts >= cutoff ==> multiset(ps)[p] == 0
    ensures Trimmed(ps, [], cutoff)
  {
  }

  lemma {:induction false} ExpiredFile(f: ChunkFile, cutoff: int64, metric: Str, universe: set<Series>, labels: Labels)
    requires GoodFile(f, metric, universe) && f.maxTS < cutoff
    ensures forall p: Point :: p.ts >= cutoff ==> multiset(FilePoints(f.series, labels))[p] == 0
  {
    hide Storable, FilePoints, GoodSeries, Distinct;
    forall p: Point | p.ts >= cutoff ensures multiset(FilePoints(f.series, labels))[p] == 0 {
      if p in FilePoints(f.series, labels) {
        FilePointsMember(f.series, labels, p);
      }
    }
  }

  lemma {:induction false} FreshCold(chunks: map<Str, Files>, cutoff: int64, universe: set<Series>, key: Series)
    requires forall m, n :: m in chunks && n in chunks[m] ==> GoodFile(chunks[m][n], m, universe)
    ensures
      var chunks' := map m | m in chunks :: FreshFiles(chunks[m], cutoff);
      Trimmed(
        ColdPoints(DirOf(chunks, key.metric), key.labels), ColdPoints(DirOf(chunks', key.metric), key.labels), cutoff)
  {
    hide Storable, GoodFile, PointsIn, Ascending;
    if key.metric in chunks {
      var files := chunks[key.metric];
      FreshPoints(files, cutoff, Ascending(files.Keys), key.metric, universe, key.labels);
      AbsentNumbers(FreshFiles(files, cutoff), files.Keys, FreshFiles(files, cutoff).Keys, key.labels);
    }
  }

  lemma {:induction false} FreshHot(s: State, cutoff: int64, s': State, key: Series)
    requires Retain(s, cutoff, s')
    ensures HotPoints(s', key) == if s.flushedUpTo > 0 then After(After(MemPoints(s.mem, key), cutoff - 1), s.flushedUpTo)
                                 else After(MemPoints(s.mem, key), cutoff - 1)
  {
    hide SeriesKey.Hash, After, FreshIndex;
    AfterNone(cutoff - 1);
    AfterNone(s.flushedUpTo);
  }

  lemma {:induction false} AfterCounts(ps: seq<Point>, t: int)
    requires Sorted(ps)
    ensures forall p: Point :: multiset(After(ps, t))[p] == if p.ts > t then multiset(ps)[p] else 0
  {
    AfterIsAbove(ps, t);
    var i := FirstAtLeast(ps, t + 1);
    assert multiset(ps) == multiset(ps[..i]) + multiset(After(ps, t));
    forall p: Point ensures multiset(After(ps, t))[p] == if p.ts > t then multiset(ps)[p] else 0 {
      if p.ts > t {
        assert p !in ps[..i];
      } else {
        assert p !in After(ps, t);
      }
    }
  }

  /** `after` is part of `before` and holds all of its points at or after the cutoff. */
  ghost predicate Trimmed(before: seq<Point>, after: seq<Point>, cutoff: int) {
    && (forall p: Point :: multiset(after)[p] <= multiset(before)[p])
    && (forall p: Point :: p.ts >= cutoff ==> multiset(after)[p] == multiset(before)[p])
  }

  lemma {:induction false} TrimmedConcat(a: seq<Point>, a': seq<Point>, b: seq<Point>, b': seq<Point>, cutoff: int)
    requires Trimmed(a, a', cutoff) && Trimmed(b, b', cutoff)
    ensures Trimmed(a + b, a' + b', cutoff)
  {
  }

  lemma {:induction false} AfterSorted(ps: seq<Point>, t: int)
    requires Sorted(ps)
    ensures Sorted(After(ps, t))
  {
    AfterIsAbove(ps, t);
  }

  lemma {:induction false} TrimmedAfter(ps: seq<Point>, cutoff: int64)
    requires Sorted(ps)
    ensures Trimmed(ps, After(ps, cutoff - 1), cutoff)
  {
    hide After, Sorted;
    AfterCounts(ps, cutoff - 1);
  }

  lemma {:induction false} TrimmedHot(ps: seq<Point>, t: int, cutoff: int64)
    requires Sorted(ps)
    ensures Trimmed(After(ps, t), After(After(ps, cutoff - 1), t), cutoff)
  {
    hide After, Sorted;
    var cut := After(ps, cutoff - 1);
    AfterSorted(ps, cutoff - 1);
    AfterCounts(ps, cutoff - 1);
    AfterCounts(cut, t);
    AfterCounts(ps, t);
    forall p: Point
      ensures multiset(After(cut, t))[p] <= multiset(After(ps, t))[p]
      ensures p.ts >= cutoff ==> multiset(After(cut, t))[p] == multiset(After(ps, t))[p]
    {
      assert multiset(cut)[p] == if p.ts > cutoff - 1 then multiset(ps)[p] else 0;
    }
  }

  /** Retention adds nothing, and keeps every point at or after the cutoff. */
  lemma {:induction false} RetainVisible(s: State, cutoff: int64, s': State, universe: set<Series>, key: Series)
    requires GoodMem(s.mem, universe) && Retain(s, cutoff, s')
    requires forall m, n :: m in s.disk.chunks && n in s.disk.chunks[m] ==> GoodFile(s.disk.chunks[m][n], m, universe)
    ensures Trimmed(Visible(s, key), Visible(s', key), cutoff)
  {
    hide Storable, SeriesKey.Hash, After, GoodFile, FreshIndex, ColdPoints, MemPoints, HotPoints, FreshMem, FreshFiles;
    FreshCold(s.disk.chunks, cutoff, universe, key);
    FreshHot(s, cutoff, s', key);
    var ps := MemPoints(s.mem, key);
    MemSorted(s.mem, universe, key);
    TrimmedAfter(ps, cutoff);
    TrimmedHot(ps, s.flushedUpTo, cutoff);
    HotUnfold(s, key);
    hide Trimmed;
    TrimmedConcat(ColdPoints(s.Dir(key.metric), key.labels), ColdPoints(s'.Dir(key.metric), key.labels),
                  HotPoints(s, key), HotPoints(s', key), cutoff);
  }

  lemma {:induction false} HotUnfold(s: State, key: Series)
    ensures HotPoints(s, key)
         == if s.flushedUpTo > 0 then After(MemPoints(s.mem, key), s.flushedUpTo) else MemPoints(s.mem, key)
  {
  }
}
