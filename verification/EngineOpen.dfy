/** Opening a database: after a clean close, and after a crash in the middle of a flush. */
module EngineOpen {
  import opened Words
  import opened Model
  import opened Points
  import opened EngineState
  import opened EngineLemmas
  import opened EngineInvariant
  import opened EngineSteps
  import opened EngineMaintenance
  import SeriesKey

  /** What is on disk when no process has it open. */
  ghost predicate DiskOk(disk: Disk, current: nat, universe: set<Series>) {
    && Usable(universe)
    && GoodWal(disk.wal, current, universe)
    && GoodChunks(disk.chunks, universe)
    && OrderedDirs(disk.chunks)
    && Leftovers(disk.wal, current, disk.chunks)
    && forall t: int64 :: IsMaxChunkTS(disk.chunks, t) ==> RecordsAbove(disk.wal[current], t)
  }

  lemma {:induction false} RecordsMember(wal: map<nat, seq<Record>>, order: seq<nat>, rec: Record)
    requires rec in AllRecords(wal, order)
    ensures exists n :: n in order && n in wal && rec in wal[n]
    decreases order
  {
    var n := order[|order| - 1];
    if !(n in wal && rec in wal[n]) {
      RecordsMember(wal, order[..|order| - 1], rec);
    }
  }

  /** The records of the segments before the last. */
  ghost function Earlier(wal: map<nat, seq<Record>>, current: nat): seq<Record> {
    AllRecords(wal, Ascending(wal.Keys - {current}))
  }

  lemma {:induction false} SplitRecords(wal: map<nat, seq<Record>>, current: nat, universe: set<Series>)
    requires GoodWal(wal, current, universe)
    ensures Largest(wal.Keys) == current
    ensures AllRecords(wal, Ascending(wal.Keys)) == Earlier(wal, current) + wal[current]
  {
    var order := Ascending(wal.Keys);
    assert Largest(wal.Keys) == current;
    assert order[..|order| - 1] == Ascending(wal.Keys - {current}) && order[|order| - 1] == current;
  }

  lemma {:induction false} EarlierGood(
    wal: map<nat, seq<Record>>, current: nat, chunks: map<Str, Files>, universe: set<Series>)
    requires GoodWal(wal, current, universe) && Leftovers(wal, current, chunks)
    ensures GoodRecords(Earlier(wal, current), universe) && Leftover(Earlier(wal, current), chunks)
    ensures wal.Keys == {current} ==> Earlier(wal, current) == []
  {
    hide Storable, GoodRecord, Reached, Ascending, AllRecords;
    var order := Ascending(wal.Keys - {current});
    forall rec | rec in Earlier(wal, current)
      ensures GoodRecord(rec, universe) && rec.metric in chunks && forall p :: p in rec.points ==> Reached(chunks, p.ts)
    {
      RecordsMember(wal, order, rec);
      var n :| n in order && n in wal && rec in wal[n];
    }
    if wal.Keys == {current} {
      assert wal.Keys - {current} == {};
      NoEarlier(wal);
    }
  }

  lemma {:induction false} NoEarlier(wal: map<nat, seq<Record>>)
    ensures AllRecords(wal, Ascending({})) == []
  {
  }

  lemma {:induction false} ReplayIndexGood(dirs: set<Str>, recs: seq<Record>, universe: set<Series>)
    requires NoCollision(universe) && GoodRecords(recs, universe)
    ensures GoodIndex(ReplayIndex(dirs, recs), ReplayMem(recs), dirs, universe)
    decreases recs
  {
    hide Storable, IndexRecord, ApplyRecord, GoodRecord, NoCollision;
    if recs == [] {
      FirstIndex(dirs, universe);
    } else {
      var most, rec := recs[..|recs| - 1], recs[|recs| - 1];
      assert rec in recs;
      assert GoodRecords(most, universe);
      ReplayIndexGood(dirs, most, universe);
      ReplayGood(most, universe);
      IndexStep(ReplayIndex(dirs, most), ReplayMem(most), dirs, rec, universe);
    }
  }

  lemma {:induction false} FirstIndex(dirs: set<Str>, universe: set<Series>)
    ensures GoodIndex(ReplayIndex(dirs, []), ReplayMem([]), dirs, universe)
  {
  }

  lemma {:induction false} LeftoverAtMost(recs: seq<Record>, chunks: map<Str, Files>, t: int64, key: Series)
    requires Leftover(recs, chunks) && IsMaxChunkTS(chunks, t)
    ensures AllAtMost(PointsOf(recs, key), t) && AllAtMost(InsertAll([], PointsOf(recs, key)), t)
  {
    hide PointsOf, InsertAll;
    forall p | p in PointsOf(recs, key) ensures p.ts <= t {
      PointsOfMember(recs, key, p);
      var rec :| rec in recs && rec.Key() == key && p in rec.points;
      assert Reached(chunks, p.ts);
    }
    InsertAllKeepsOrder([], PointsOf(recs, key));
    forall p | p in InsertAll([], PointsOf(recs, key)) ensures p.ts <= t {
      assert p in multiset(InsertAll([], PointsOf(recs, key)));
    }
  }

  lemma {:induction false} RecordsPointsAbove(recs: seq<Record>, t: int, key: Series)
    requires RecordsAbove(recs, t)
    ensures AllAbove(PointsOf(recs, key), t)
  {
    hide PointsOf;
    forall p | p in PointsOf(recs, key) ensures p.ts > t {
      PointsOfMember(recs, key, p);
    }
  }

  /** After replay, what memory holds past the watermark is the last segment. */
  lemma {:induction false} OpenHot(disk: Disk, current: nat, t: int64, universe: set<Series>, key: Series)
    requires DiskOk(disk, current, universe) && IsMaxChunkTS(disk.chunks, t) && key in universe
    ensures
      var mem := ReplayMem(AllRecords(disk.wal, Ascending(disk.wal.Keys)));
      After(MemPoints(mem, key), t) == InsertAll([], PointsOf(disk.wal[current], key))
  {
    hide Storable, PointsOf, InsertAll, After, MemPoints, AllRecords, Ascending, GoodChunks, OrderedDirs, NoCollision,
      ReplayMem;
    var recs := AllRecords(disk.wal, Ascending(disk.wal.Keys));
    var early, last := Earlier(disk.wal, current), disk.wal[current];
    SplitRecords(disk.wal, current, universe);
    EarlierGood(disk.wal, current, disk.chunks, universe);
    assert GoodRecords(recs, universe);
    ReplayPoints(recs, universe, key);
    PointsOfConcat(early, last, key);
    var a, b := PointsOf(early, key), PointsOf(last, key);
    InsertAllAppend([], a, b);
    LeftoverAtMost(early, disk.chunks, t, key);
    RecordsPointsAbove(last, t, key);
    InsertAllKeepsOrder([], a);
    AfterInsertAll(InsertAll([], a), b, t);
    AfterOfAtMost(InsertAll([], a), t);
  }

  lemma {:induction false} OpenMemAfter(s: State, universe: set<Series>)
    requires DiskOk(s.disk, s.current, universe)
    requires IsMaxChunkTS(s.disk.chunks, s.flushedUpTo)
    requires s.mem == ReplayMem(AllRecords(s.disk.wal, Ascending(s.disk.wal.Keys))) && GoodMem(s.mem, universe)
    ensures MemAfter(s)
  {
    hide Storable, PointsOf, InsertAll, After, AllRecords, Ascending, GoodChunks, OrderedDirs, NoCollision, ReplayMem,
      SeriesKey.Hash, Sorted;
    var recs := AllRecords(s.disk.wal, Ascending(s.disk.wal.Keys));
    var early, last := Earlier(s.disk.wal, s.current), s.disk.wal[s.current];
    SplitRecords(s.disk.wal, s.current, universe);
    EarlierGood(s.disk.wal, s.current, s.disk.chunks, universe);
    forall id | id in s.mem
      ensures AllAbove(s.mem[id].points, s.flushedUpTo) || (!Clean(s) && s.mem[id].metric in s.disk.chunks)
    {
      var key := s.mem[id].Key();
      assert GoodEntry(id, s.mem[id], universe);
      if Mentions(early, key) {
        var rec :| rec in early && rec.Key() == key;
      } else {
        PointsOfUnmentioned(early, key);
        ReplayPoints(recs, universe, key);
        PointsOfConcat(early, last, key);
        assert [] + PointsOf(last, key) == PointsOf(last, key);
        RecordsPointsAbove(last, s.flushedUpTo, key);
        AboveNone(s.flushedUpTo);
        InsertAllAbove([], PointsOf(last, key), s.flushedUpTo);
      }
    }
  }

  /** Opening a good disk gives an ordered state that reads the chunk files and, after them,
      the last segment. */
  lemma {:induction false} OpenKeeps(disk: Disk, current: nat, s: State, universe: set<Series>)
    requires DiskOk(disk, current, universe) && Open(disk, s)
    ensures s.disk == disk && s.current == current
    ensures Ordered(s, universe)
  {
    hide Storable, PointsOf, InsertAll, After, MemPoints, AllRecords, Ascending, GoodChunks, OrderedDirs, NoCollision,
      ReplayMem, ReplayIndex, GoodIndex, GoodMem, MemAfter, RecordsAbove;
    var recs := AllRecords(disk.wal, Ascending(disk.wal.Keys));
    SplitRecords(disk.wal, current, universe);
    EarlierGood(disk.wal, current, disk.chunks, universe);
    assert GoodRecords(recs, universe);
    ReplayGood(recs, universe);
    ReplayIndexGood(disk.chunks.Keys, recs, universe);
    OpenMemAfter(s, universe);
    forall key | key in universe
      ensures After(MemPoints(s.mem, key), s.flushedUpTo) == InsertAll([], PointsOf(s.Segment(), key))
    {
      OpenHot(disk, current, s.flushedUpTo, universe, key);
    }
  }

  lemma {:induction false} OrderedVisible(s: State, universe: set<Series>, key: Series)
    requires Ordered(s, universe) && key in universe
    ensures Visible(s, key) == ColdPoints(s.Dir(key.metric), key.labels) + InsertAll([], PointsOf(s.Segment(), key))
  {
    hide Storable, PointsOf, InsertAll, After, MemPoints, GoodChunks, OrderedDirs, NoCollision, GoodIndex, MemAfter,
      RecordsAbove, Leftovers, ColdPoints, HotPoints;
    HotIsAfter(s, universe, key);
  }

  lemma {:induction false} OrderedDisk(s: State, universe: set<Series>)
    requires Ordered(s, universe)
    ensures DiskOk(s.disk, s.current, universe)
  {
    hide Storable, GoodChunks, OrderedDirs, NoCollision, GoodIndex, GoodMem, MemAfter, HotIsSegment, Leftovers;
    forall t: int64 | IsMaxChunkTS(s.disk.chunks, t) ensures RecordsAbove(s.disk.wal[s.current], t) {
      assert t <= s.flushedUpTo;
    }
  }

  /** Closing and opening again keeps the invariant and shows every query the same points. */
  lemma {:induction false} ReopenKeeps(s: State, s': State, universe: set<Series>)
    requires Ordered(s, universe) && Open(s.disk, s')
    ensures Ordered(s', universe) && s'.disk == s.disk && s'.current == s.current
    ensures forall key :: Visible(s', key) == Visible(s, key)
  {
    hide Storable, Ordered, DiskOk, Open, Visible;
    OrderedDisk(s, universe);
    OpenKeeps(s.disk, s.current, s', universe);
    forall key ensures Visible(s', key) == Visible(s, key) {
      if key in universe {
        OrderedVisible(s, universe, key);
        OrderedVisible(s', universe, key);
        assert s'.Segment() == s.Segment() && s'.Dir(key.metric) == s.Dir(key.metric);
      } else {
        assert Shape(s, universe) && Shape(s', universe) by { OrderedShapes(s, s', universe); }
        VisibleKnown(s, universe, key);
        VisibleKnown(s', universe, key);
      }
    }
  }

  lemma {:induction false} OrderedShapes(s: State, s': State, universe: set<Series>)
    requires Ordered(s, universe) && Ordered(s', universe)
    ensures Shape(s, universe) && Shape(s', universe)
  {
  }

  lemma {:induction false} CrashDisk(s: State, chunks': map<Str, Files>, universe: set<Series>)
    requires Ordered(s, universe) && s.Segment() != [] && ChunksWritten(s.disk.chunks, s.Segment(), chunks')
    ensures DiskOk(Disk(s.disk.wal[s.current + 1 := []], chunks'), s.current + 1, universe)
  {
    hide Storable, ChunksWritten, GoodChunks, NoCollision, GoodIndex, GoodMem, MemAfter, HotIsSegment, HeadersAtMost,
      OrderedDirs, GoodRecord, AllAbove, Leftover;
    var recs, wal' := s.Segment(), s.disk.wal[s.current + 1 := []];
    NoRecords(universe);
    WrittenGood(s.disk.chunks, recs, chunks', universe);
    FlushLeftovers(s, chunks', wal', recs);
    WrittenOrdered(s.disk.chunks, recs, chunks', s.flushedUpTo, TWO_63);
  }

  /** A crash between the last chunk write of a flush and the removal of its segment loses
      nothing and duplicates nothing: every query reads the same points as before. */
  lemma {:induction false} CrashKeeps(s: State, s': State, universe: set<Series>)
    requires Ordered(s, universe) && CrashInFlush(s, s')
    ensures Ordered(s', universe)
    ensures forall key :: Visible(s', key) == Visible(s, key)
  {
    hide Storable, Ordered, DiskOk, Open, Visible, ChunksWritten, InsertAll, PointsOf, ColdPoints;
    var chunks' :| ChunksWritten(s.disk.chunks, s.Segment(), chunks')
      && Open(Disk(s.disk.wal[s.current + 1 := []], chunks'), s');
    CrashDisk(s, chunks', universe);
    OpenKeeps(Disk(s.disk.wal[s.current + 1 := []], chunks'), s.current + 1, s', universe);
    forall key ensures Visible(s', key) == Visible(s, key) {
      if key in universe {
        OrderedVisible(s, universe, key);
        OrderedVisible(s', universe, key);
        WrittenCold(s.disk.chunks, s.Segment(), chunks', key);
        assert s'.Segment() == [];
        NothingInserted(key);
      } else {
        OrderedShapes(s, s', universe);
        VisibleKnown(s, universe, key);
        VisibleKnown(s', universe, key);
      }
    }
  }

  lemma {:induction false} NothingInserted(key: Series)
    ensures InsertAll([], PointsOf([], key)) == []
  {
  }

  // ---- a crash that loses the end of the open segment ----

  lemma {:induction false} ShorterDisk(
    disk: Disk, current: nat, kept: seq<Record>, lost: seq<Record>, universe: set<Series>)
    requires DiskOk(disk, current, universe) && disk.wal[current] == kept + lost
    ensures DiskOk(Disk(disk.wal[current := kept], disk.chunks), current, universe)
    ensures disk.wal.Keys == {current} ==> disk.wal[current := kept].Keys == {current}
  {
    hide Usable, GoodChunks, OrderedDirs, GoodRecord, AllAbove, Leftover;
    var wal' := disk.wal[current := kept];
    assert forall rec :: rec in kept ==> rec in kept + lost;
    forall n | n in wal' ensures n <= current && GoodRecords(wal'[n], universe) {
      assert GoodRecords(disk.wal[n], universe);
    }
  }

  /** A crash that loses the last records of the open segment takes exactly their points from
      what queries see. */
  lemma {:induction false} LoseKeeps(s: State, lost: seq<Record>, s': State, universe: set<Series>)
    requires Ordered(s, universe) && LoseTail(s, lost, s')
    ensures Ordered(s', universe) && (Clean(s) ==> Clean(s'))
    ensures forall key ::
      multiset(Visible(s', key)) == multiset(Visible(s, key)) - multiset(PointsOf(lost, key))
  {
    hide Storable, Ordered, DiskOk, Open, Visible, InsertAll, PointsOf, ColdPoints;
    var kept :| s.Segment() == kept + lost && Open(Disk(s.disk.wal[s.current := kept], s.disk.chunks), s');
    OrderedDisk(s, universe);
    OrderedSegment(s, universe);
    ShorterDisk(s.disk, s.current, kept, lost, universe);
    OpenKeeps(Disk(s.disk.wal[s.current := kept], s.disk.chunks), s.current, s', universe);
    OrderedShapes(s, s', universe);
    forall key ensures multiset(Visible(s', key)) == multiset(Visible(s, key)) - multiset(PointsOf(lost, key)) {
      if key in universe {
        OrderedVisible(s, universe, key);
        OrderedVisible(s', universe, key);
        PointsOfConcat(kept, lost, key);
        InsertedMultiset(PointsOf(kept, key));
        InsertedMultiset(PointsOf(kept, key) + PointsOf(lost, key));
      } else {
        VisibleKnown(s, universe, key);
        VisibleKnown(s', universe, key);
      }
    }
  }

  lemma {:induction false} OrderedSegment(s: State, universe: set<Series>)
    requires Ordered(s, universe)
    ensures s.current in s.disk.wal && s.Segment() == s.disk.wal[s.current]
  {
    hide Storable, GoodRecords, HotIsSegment, MemAfter, Leftovers, GoodIndex, GoodChunks;
  }

  lemma {:induction false} InsertedMultiset(ps: seq<Point>)
    ensures multiset(InsertAll([], ps)) == multiset(ps)
  {
    InsertAllKeepsOrder([], ps);
  }

  // ---- opening any disk ----

  /** What an opened database shows of a series, whatever the disk holds: its cold points, and
      after them the points of all segments that are after the latest header maximum. */
  lemma {:induction false} OpenShows(disk: Disk, current: nat, s: State, universe: set<Series>, key: Series)
    requires Usable(universe) && GoodWal(disk.wal, current, universe) && key in universe && Open(disk, s)
    ensures Visible(s, key)
         == ColdPoints(DirOf(disk.chunks, key.metric), key.labels)
            + After(InsertAll([], PointsOf(AllRecords(disk.wal, Ascending(disk.wal.Keys)), key)), s.flushedUpTo)
  {
    hide Storable, InsertAll, PointsOf, MemPoints, AllRecords, Ascending, ReplayMem, ReplayIndex, ColdPoints, After,
      HotPoints;
    var recs := AllRecords(disk.wal, Ascending(disk.wal.Keys));
    AllRecordsGood(disk.wal, current, universe);
    ReplayGood(recs, universe);
    ReplayPoints(recs, universe, key);
    HotIsAfter(s, universe, key);
  }

  /** After a drop and a reopening a dropped series shows exactly those of its points in segments
      left behind by a crash that are after the latest header maximum; it is gone if and only if
      there is none. */
  lemma {:induction false} LeftoverComesBack(
    mid: State, metric: Str, filter: Labels, s: State, s': State, universe: set<Series>, key: Series)
    requires Usable(universe) && GoodWal(mid.disk.wal, mid.current, universe) && key in universe
    requires key.metric == metric && LabelsMatch(filter, key.labels)
    requires DropAfterFlush(mid, metric, metric, filter, s) && Open(s.disk, s')
    ensures
      var left := PointsOf(AllRecords(s.disk.wal, Ascending(s.disk.wal.Keys)), key);
      && Visible(s', key) == After(InsertAll([], left), s'.flushedUpTo)
      && (Visible(s', key) == [] <==> forall p :: p in left ==> p.ts <= s'.flushedUpTo)
  {
    hide Storable, InsertAll, PointsOf, AllRecords, Ascending, ColdPoints, After, Visible, DroppedDir, LabelsMatch,
      Open, DroppedIndex, EvictMatching, GoodRecords;
    var left := PointsOf(AllRecords(s.disk.wal, Ascending(s.disk.wal.Keys)), key);
    DroppedColdDir(mid.disk.chunks, metric, filter, s.disk.chunks, key);
    OpenShows(s.disk, mid.current, s', universe, key);
    NothingAfter(left, s'.flushedUpTo);
  }

  lemma {:induction false} NothingAfter(ps: seq<Point>, t: int)
    ensures After(InsertAll([], ps), t) == [] <==> forall p :: p in ps ==> p.ts <= t
  {
    hide InsertAll;
    InsertAllKeepsOrder([], ps);
    var all := InsertAll([], ps);
    AfterIsAbove(all, t);
    if After(all, t) == [] {
      forall p | p in ps ensures p.ts <= t {
        assert p in multiset(ps) && p in multiset(all);
        assert p in all;
      }
    }
    if forall p :: p in ps ==> p.ts <= t {
      forall p | p in all ensures p.ts <= t {
        assert p in multiset(all) && p in multiset(ps);
      }
      AfterOfAtMost(all, t);
    }
  }

  lemma {:induction false} AllRecordsGood(wal: map<nat, seq<Record>>, current: nat, universe: set<Series>)
    requires GoodWal(wal, current, universe)
    ensures GoodRecords(AllRecords(wal, Ascending(wal.Keys)), universe)
  {
    hide Storable, GoodRecord, Ascending, AllRecords;
    forall rec | rec in AllRecords(wal, Ascending(wal.Keys)) ensures GoodRecord(rec, universe) {
      RecordsMember(wal, Ascending(wal.Keys), rec);
    }
  }
}
