/** Each step of the engine keeps the invariant and changes what queries see as it should. */
module EngineSteps {
  import opened Words
  import opened Model
  import opened Points
  import opened EngineState
  import opened EngineLemmas
  import opened EngineInvariant
  import SeriesKey

  // ---- push ----

  lemma {:induction false} IndexStep(
    index: map<Str, set<uint64>>, mem: map<uint64, Record>, dirs: set<Str>, rec: Record, universe: set<Series>)
    requires NoCollision(universe) && GoodMem(mem, universe) && GoodRecord(rec, universe)
    requires GoodIndex(index, mem, dirs, universe)
    ensures GoodIndex(IndexRecord(index, mem, rec), ApplyRecord(mem, rec), dirs, universe)
    ensures rec.metric in IndexRecord(index, mem, rec)
  {
    hide Storable, SeriesKey.Hash, InsertAll, Sorted, AllAbove;
    var id := SeriesKey.Hash(rec.Key());
    var index', mem' := IndexRecord(index, mem, rec), ApplyRecord(mem, rec);
    if id in mem {
      assert mem[id].Key() == rec.Key();
      assert Listed(index, rec.metric, id);
    }
    assert mem'[id].metric == rec.metric;
    forall m, i | Listed(index', m, i) ensures FromUniverse(m, i, universe) {
      if !Listed(index, m, i) {
        assert i == id && m == rec.metric;
        assert rec.Key() in universe;
      }
    }
    forall m | m in index' ensures m in dirs || InMemory(mem', m) {
      if m != rec.metric && m !in dirs {
        var i :| i in mem && mem[i].metric == m;
        assert mem'[i].metric == m;
      }
    }
  }

  lemma {:induction false} PushShape(s: State, rec: Record, universe: set<Series>)
    requires Shape(s, universe) && GoodRecord(rec, universe)
    ensures Shape(Push(s, rec), universe)
    ensures rec.metric in Push(s, rec).index
  {
    hide Storable, GoodMem, GoodIndex, ApplyRecord, IndexRecord, GoodChunks, NoCollision, GoodRecord;
    ApplyGood(s.mem, rec, universe);
    IndexStep(s.index, s.mem, s.disk.chunks.Keys, rec, universe);
  }

  lemma {:induction false} PointsOfPush(recs: seq<Record>, rec: Record, key: Series)
    ensures PointsOf(recs + [rec], key) == PointsOf(recs, key) + (if rec.Key() == key then rec.points else [])
  {
    PointsOfConcat(recs, [rec], key);
    PointsOfOne(rec, key);
  }

  lemma {:induction false} PushHot(s: State, rec: Record, universe: set<Series>, key: Series)
    requires Ordered(s, universe) && GoodRecord(rec, universe) && AllAbove(rec.points, s.flushedUpTo)
    requires key in universe
    ensures
      var s' := Push(s, rec);
      && After(MemPoints(s'.mem, key), s.flushedUpTo) == InsertAll([], PointsOf(s'.Segment(), key))
      && After(MemPoints(s'.mem, key), s.flushedUpTo)
           == InsertAll(After(MemPoints(s.mem, key), s.flushedUpTo), if rec.Key() == key then rec.points else [])
  {
    hide Storable, InsertAll, PointsOf, After, MemPoints, ApplyRecord, IndexRecord, GoodIndex, GoodChunks, Leftovers,
      MemAfter, HeadersAtMost, OrderedDirs;
    var t := s.flushedUpTo;
    ApplyPoints(s.mem, rec, universe, key);
    MemSorted(s.mem, universe, key);
    PointsOfPush(s.Segment(), rec, key);
    if rec.Key() == key {
      AfterInsertAll(MemPoints(s.mem, key), rec.points, t);
      InsertAllAppend([], PointsOf(s.Segment(), key), rec.points);
    } else {
      InsertNone(After(MemPoints(s.mem, key), t));
      assert PointsOf(s.Segment(), key) + [] == PointsOf(s.Segment(), key);
    }
  }

  lemma {:induction false} PushMemAfter(s: State, rec: Record, universe: set<Series>)
    requires Ordered(s, universe) && GoodRecord(rec, universe) && AllAbove(rec.points, s.flushedUpTo)
    ensures MemAfter(Push(s, rec))
  {
    hide Storable, InsertAll, GoodIndex, GoodChunks, Leftovers, HeadersAtMost, OrderedDirs, HotIsSegment,
      SeriesKey.Hash, Sorted;
    var id := SeriesKey.Hash(rec.Key());
    var s' := Push(s, rec);
    assert Clean(s') <==> Clean(s);
    if id in s.mem {
      assert s.mem[id].Key() == rec.Key();
      if AllAbove(s.mem[id].points, s.flushedUpTo) {
        InsertAllAbove(s.mem[id].points, rec.points, s.flushedUpTo);
      }
    } else {
      InsertAllAbove([], rec.points, s.flushedUpTo);
    }
  }

  lemma {:induction false} InsertAllAbove(ps: seq<Point>, more: seq<Point>, t: int)
    requires AllAbove(ps, t) && AllAbove(more, t)
    ensures AllAbove(InsertAll(ps, more), t)
  {
    InsertAllAfter([], ps, more, t);
  }

  /** A push after the watermark inserts its points into what queries see of its series. */
  lemma {:induction false} PushKeeps(s: State, rec: Record, universe: set<Series>)
    requires Ordered(s, universe) && GoodRecord(rec, universe) && AllAbove(rec.points, s.flushedUpTo)
    ensures Ordered(Push(s, rec), universe)
  {
    hide Storable, InsertAll, PointsOf, After, MemPoints, ApplyRecord, IndexRecord, GoodIndex, GoodChunks, GoodMem,
      HeadersAtMost, OrderedDirs, AllAbove, GoodRecord, NoCollision;
    PushShape(s, rec, universe);
    PushMemAfter(s, rec, universe);
    var s' := Push(s, rec);
    forall key | key in universe
      ensures After(MemPoints(s'.mem, key), s'.flushedUpTo) == InsertAll([], PointsOf(s'.Segment(), key))
    {
      PushHot(s, rec, universe, key);
    }
  }

  lemma {:induction false} PushVisible(s: State, rec: Record, universe: set<Series>, key: Series)
    requires Ordered(s, universe) && GoodRecord(rec, universe) && AllAbove(rec.points, s.flushedUpTo)
    requires key in universe
    ensures Visible(Push(s, rec), key)
         == InsertAll(Visible(s, key), if rec.Key() == key then rec.points else [])
  {
    hide Storable, InsertAll, PointsOf, After, MemPoints, ApplyRecord, IndexRecord, GoodIndex, ColdPoints, HotPoints,
      AllAbove, Leftovers, MemAfter, HotIsSegment, OrderedDirs, GoodRecord;
    var s' := Push(s, rec);
    PushShape(s, rec, universe);
    PushHot(s, rec, universe, key);
    HotIsAfter(s, universe, key);
    HotIsAfter(s', universe, key);
    MemSorted(s.mem, universe, key);
    AfterIsAbove(MemPoints(s.mem, key), s.flushedUpTo);
    ColdAtMost(s, universe, key);
    var more := if rec.Key() == key then rec.points else [];
    AboveNone(s.flushedUpTo);
    InsertAllAfter(ColdPoints(s.Dir(key.metric), key.labels), HotPoints(s, key), more, s.flushedUpTo);
  }

  lemma {:induction false} AboveNone(t: int)
    ensures AllAbove([], t)
  {
  }

  lemma {:induction false} ColdAtMost(s: State, universe: set<Series>, key: Series)
    requires GoodChunks(s.disk.chunks, universe) && HeadersAtMost(s.disk.chunks, s.flushedUpTo)
    ensures AllAtMost(ColdPoints(s.Dir(key.metric), key.labels), s.flushedUpTo)
  {
    hide Storable, ColdPoints, GoodFile;
    var files := s.Dir(key.metric);
    forall p | p in ColdPoints(files, key.labels) ensures p.ts <= s.flushedUpTo {
      ColdInHeader(files, key.metric, universe, key.labels, p);
    }
  }

  // ---- flush ----

  lemma {:induction false} RotatedGood(wal: map<nat, seq<Record>>, current: nat, universe: set<Series>)
    requires GoodWal(wal, current, universe)
    ensures GoodWal(Rotated(wal, current), current + 1, universe)
    ensures (Rotated(wal, current).Keys == {current + 1}) <==> wal.Keys == {current}
  {
    hide Storable, GoodRecords;
    var wal' := Rotated(wal, current);
    assert wal'.Keys == wal.Keys - {current} + {current + 1};
    assert GoodRecords([], universe) by {
      NoRecords(universe);
    }
    if wal'.Keys == {current + 1} {
      forall n | n in wal ensures n == current {
        assert n != current ==> n in wal';
      }
    }
  }

  lemma {:induction false} NoRecords(universe: set<Series>)
    ensures GoodRecords([], universe)
  {
  }

  /** Memory is explained by the directories and the open segment. */
  ghost predicate MemExplained(s: State) {
    forall id :: id in s.mem ==> s.mem[id].metric in s.disk.chunks || HasMetric(s.Segment(), s.mem[id].metric)
  }

  ghost predicate SegmentListed(s: State) {
    forall rec :: rec in s.Segment() ==> rec.metric in s.index
  }

  lemma {:induction false} FlushShape(s: State, s': State, universe: set<Series>)
    requires Shape(s, universe) && Flush(s, s') && SegmentListed(s) && MemExplained(s)
    ensures Shape(s', universe)
  {
    hide Storable, ChunksWritten, GoodChunks, GoodMem, NoCollision, GoodIndex, IsMaxTS, Rotated, Evict;
    RotatedGood(s.disk.wal, s.current, universe);
    var recs := s.Segment();
    if recs != [] {
      WrittenGood(s.disk.chunks, recs, s'.disk.chunks, universe);
      var t: int64 :| IsMaxTS(recs, t) && Watermark(s, t, s');
      assert t >= 0 by { MaxNotNegative(recs, t); }
      FlushDirs(s, s'.disk.chunks, universe);
      if t > 0 {
        EvictGood(s.mem, t, universe);
        EvictMetrics(s.mem, t);
      }
      IndexShrinks(s.index, s.mem, s.disk.chunks.Keys, s'.mem, s'.disk.chunks.Keys, universe);
    }
  }

  lemma {:induction false} MaxNotNegative(recs: seq<Record>, t: int64)
    requires IsMaxTS(recs, t)
    ensures t >= 0
  {
  }

  lemma {:induction false} WrittenDirs(chunks: map<Str, Files>, recs: seq<Record>, chunks': map<Str, Files>)
    requires ChunksWritten(chunks, recs, chunks')
    ensures forall m :: m in chunks' <==> m in chunks || HasMetric(recs, m)
  {
  }

  lemma {:induction false} EvictMetrics(mem: map<uint64, Record>, t: int64)
    ensures SubMem(Evict(mem, t), mem)
  {
    hide After;
  }

  ghost predicate SubMem(mem': map<uint64, Record>, mem: map<uint64, Record>) {
    forall id :: id in mem' ==> id in mem && mem'[id].metric == mem[id].metric
  }

  /** Losing series from memory keeps the index when every metric has a directory. */
  lemma {:induction false} IndexShrinks(
    index: map<Str, set<uint64>>, mem: map<uint64, Record>, dirs: set<Str>,
    mem': map<uint64, Record>, dirs': set<Str>, universe: set<Series>)
    requires GoodIndex(index, mem, dirs, universe) && SubMem(mem', mem)
    requires forall m :: m in index <==> m in dirs'
    ensures GoodIndex(index, mem', dirs', universe)
  {
  }

  lemma {:induction false} FlushDirs(s: State, chunks': map<Str, Files>, universe: set<Series>)
    requires GoodIndex(s.index, s.mem, s.disk.chunks.Keys, universe) && SegmentListed(s) && MemExplained(s)
    requires ChunksWritten(s.disk.chunks, s.Segment(), chunks')
    ensures forall m :: m in s.index <==> m in chunks'
  {
    WrittenDirs(s.disk.chunks, s.Segment(), chunks');
    forall m | m in s.index ensures m in chunks' {
      if m !in s.disk.chunks {
        var id :| id in s.mem && s.mem[id].metric == m;
        assert HasMetric(s.Segment(), m);
      }
    }
  }

  /** In an ordered state the open segment and memory name the same series. */
  lemma {:induction false} OrderedExplained(s: State, universe: set<Series>)
    requires Ordered(s, universe)
    ensures SegmentListed(s) && MemExplained(s)
  {
    hide Storable, InsertAll, PointsOf, After, GoodChunks, HeadersAtMost, OrderedDirs, Leftovers, SeriesKey.Hash,
      Sorted;
    forall rec | rec in s.Segment() ensures rec.metric in s.index {
      var key := rec.Key();
      assert GoodRecord(rec, universe);
      FlushedGood(s.Segment(), key, universe);
      assert Mentions(s.Segment(), key);
      AfterNone(s.flushedUpTo);
      assert MemPoints(s.mem, key) != [];
      assert Listed(s.index, key.metric, SeriesKey.Hash(key));
    }
    forall id | id in s.mem && s.mem[id].metric !in s.disk.chunks
      ensures HasMetric(s.Segment(), s.mem[id].metric)
    {
      var key := s.mem[id].Key();
      assert GoodEntry(id, s.mem[id], universe);
      AfterOfAbove(s.mem[id].points, s.flushedUpTo);
      InsertedSome(s.Segment(), key);
    }
  }

  lemma {:induction false} AfterNone(t: int)
    ensures After([], t) == []
  {
  }

  lemma {:induction false} InsertedSome(recs: seq<Record>, key: Series)
    requires InsertAll([], PointsOf(recs, key)) != []
    ensures Mentions(recs, key) && HasMetric(recs, key.metric)
  {
    hide InsertAll, PointsOf;
    FlushedPoint(recs, key, InsertAll([], PointsOf(recs, key))[0]);
  }

  /** A flush of a non-empty segment moves the watermark past everything in memory. */
  lemma {:induction false} FlushEmptiesMemory(s: State, t: int64, universe: set<Series>)
    requires Ordered(s, universe) && s.Segment() != [] && IsMaxTS(s.Segment(), t)
    ensures t > s.flushedUpTo && Evict(s.mem, t) == map[]
  {
    hide Storable, InsertAll, PointsOf, After, GoodChunks, HeadersAtMost, OrderedDirs, Leftovers, SeriesKey.Hash,
      GoodIndex, MemAfter;
    var recs := s.Segment();
    assert recs[0] in recs && GoodRecord(recs[0], universe);
    var p := recs[0].points[0];
    assert p in recs[0].points && p.ts > s.flushedUpTo;
    forall id | id in s.mem ensures After(s.mem[id].points, t) == [] {
      var key, ps := s.mem[id].Key(), s.mem[id].points;
      assert GoodEntry(id, s.mem[id], universe);
      assert MemPoints(s.mem, key) == ps;
      AfterIsAbove(ps, s.flushedUpTo);
      forall q | q in After(ps, s.flushedUpTo) ensures q.ts <= t {
        FlushedPoint(recs, key, q);
      }
      AfterOfAtMost(ps, t);
    }
  }

  lemma {:induction false} FlushOrdered(s: State, s': State, t: int64, universe: set<Series>)
    requires Ordered(s, universe) && s.Segment() != [] && IsMaxTS(s.Segment(), t)
    requires ChunksWritten(s.disk.chunks, s.Segment(), s'.disk.chunks) && t > s.flushedUpTo
    ensures OrderedDirs(s'.disk.chunks) && HeadersAtMost(s'.disk.chunks, t)
  {
    hide Storable, ChunksWritten, GoodChunks, GoodIndex, Leftovers, HotIsSegment, MemAfter;
    WrittenOrdered(s.disk.chunks, s.Segment(), s'.disk.chunks, s.flushedUpTo, t);
  }

  lemma {:induction false} FlushLeftovers(
    s: State, chunks': map<Str, Files>, wal': map<nat, seq<Record>>, recs: seq<Record>)
    requires Leftovers(s.disk.wal, s.current, s.disk.chunks) && ChunksWritten(s.disk.chunks, recs, chunks')
    requires recs == s.Segment()
    requires forall n :: n in wal' && n != s.current + 1 ==> n in s.disk.wal && wal'[n] == s.disk.wal[n]
    ensures Leftovers(wal', s.current + 1, chunks')
  {
    hide ChunksWritten, Reached;
    forall n | n in wal' && n != s.current + 1 ensures Leftover(wal'[n], chunks') {
      forall rec | rec in wal'[n]
        ensures rec.metric in chunks' && forall p :: p in rec.points ==> Reached(chunks', p.ts)
      {
        WrittenDirs(s.disk.chunks, recs, chunks');
        if n == s.current {
          assert HasMetric(recs, rec.metric);
        }
        forall p | p in rec.points ensures Reached(chunks', p.ts) {
          if n == s.current {
            WrittenReached(s.disk.chunks, recs, chunks', rec, p);
          } else {
            WrittenStillReached(s.disk.chunks, recs, chunks', p.ts);
          }
        }
      }
    }
  }

  lemma {:induction false} FlushNothing(s: State, s': State, universe: set<Series>)
    requires Ordered(s, universe) && Flush(s, s') && s.Segment() == []
    ensures Ordered(s', universe) && forall key :: Visible(s', key) == Visible(s, key)
  {
    hide Storable, InsertAll, PointsOf, After, GoodChunks, HeadersAtMost, OrderedDirs, NoCollision, GoodMem,
      GoodIndex, MemPoints, ColdPoints, Leftover;
    OrderedExplained(s, universe);
    FlushShape(s, s', universe);
    RotatedGood(s.disk.wal, s.current, universe);
    assert s'.Segment() == [];
  }

  lemma {:induction false} EmptyMemHot(s: State, universe: set<Series>)
    requires s.mem == map[] && s.Segment() == []
    ensures HotIsSegment(s, universe) && MemAfter(s)
    ensures forall key :: HotPoints(s, key) == []
  {
    hide Storable, SeriesKey.Hash, After;
    AfterNone(s.flushedUpTo);
    assert forall key :: MemPoints(s.mem, key) == [];
  }

  lemma {:induction false} FlushSome(s: State, s': State, universe: set<Series>)
    requires Ordered(s, universe) && Flush(s, s') && s.Segment() != []
    ensures Ordered(s', universe) && s'.mem == map[] && s'.flushedUpTo > s.flushedUpTo
  {
    hide Storable, ChunksWritten, GoodChunks, HeadersAtMost, OrderedDirs, NoCollision, GoodMem, GoodIndex, IsMaxTS,
      HotIsSegment, MemAfter, Leftover, Evict;
    OrderedExplained(s, universe);
    FlushShape(s, s', universe);
    var t: int64 :| IsMaxTS(s.Segment(), t) && Watermark(s, t, s');
    FlushEmptiesMemory(s, t, universe);
    FlushOrdered(s, s', t, universe);
    FlushLeftovers(s, s'.disk.chunks, s'.disk.wal, s.Segment());
    assert s'.Segment() == [];
    EmptyMemHot(s', universe);
  }

  lemma {:induction false} FlushKeeps(s: State, s': State, universe: set<Series>)
    requires Ordered(s, universe) && Flush(s, s')
    ensures Ordered(s', universe) && (Clean(s) ==> Clean(s'))
    ensures s'.Segment() == [] && s'.index == s.index
  {
    hide Storable, Ordered;
    if s.Segment() == [] {
      FlushNothing(s, s', universe);
    } else {
      FlushSome(s, s', universe);
    }
    assert GoodWal(s.disk.wal, s.current, universe) by { OrderedWal(s, universe); }
    RotatedGood(s.disk.wal, s.current, universe);
  }

  lemma {:induction false} OrderedWal(s: State, universe: set<Series>)
    requires Ordered(s, universe)
    ensures GoodWal(s.disk.wal, s.current, universe)
  {
  }

  /** Queries read exactly the same points of every series before and after a flush. */
  lemma {:induction false} FlushInvisible(s: State, s': State, universe: set<Series>, key: Series)
    requires Ordered(s, universe) && Flush(s, s')
    ensures Visible(s', key) == Visible(s, key)
  {
    hide Storable, ChunksWritten, GoodChunks, HeadersAtMost, OrderedDirs, NoCollision, GoodMem, GoodIndex, IsMaxTS,
      MemAfter, Leftovers, ColdPoints, InsertAll, PointsOf, After, MemPoints, HotPoints;
    if s.Segment() == [] {
      FlushNothing(s, s', universe);
    } else if key in universe {
      FlushSome(s, s', universe);
      WrittenCold(s.disk.chunks, s.Segment(), s'.disk.chunks, key);
      HotIsAfter(s, universe, key);
      EmptyMemHot(s', universe);
    } else {
      FlushSome(s, s', universe);
      VisibleKnown(s, universe, key);
      VisibleKnown(s', universe, key);
    }
  }
}
