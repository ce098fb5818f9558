/** The database object: its shards and index, its log and chunk files as bytes, its watermark,
    and the operations on them, each proved to make the step of the state machine that it stands
    for. */
module Database {
  import opened Words
  import opened Model
  import opened Points
  import opened EngineState
  import opened EngineLemmas
  import opened EngineInvariant
  import opened EngineSound
  import opened EngineLimits
  import opened EngineEffects
  import opened Names
  import opened DiskContent
  import opened Chunk
  import opened Wal
  import opened Binary
  import opened ChunkStore
  import opened ChunkQuery
  import opened ChunkRewrite
  import opened FlushWriter
  import opened QueryMerge
  import opened QueryWindow
  import opened Shards
  import opened Index
  import opened WalManager
  import opened DiskState
  import opened ChunkFormat
  import opened WalFormat
  import SeriesKey
  import Engine = EngineState

  class Db {
    const shards: array<Shard>
    const index: MetricIndex
    const wm: Manager
    /** The chunk directories: metric directory to numbered files, as bytes. */
    var chunks: Directories
    /** The chunk directory itself exists. */
    var root: bool
    var flushedUpTo: int64

    /** The state that the object stands for: what its files and segments decode to, and memory. */
    ghost function State(): State
      requires shards.Length == NUM_SHARDS
      reads this, shards, index, wm
    {
      Engine.State(DiskOf(wm.segments, chunks), wm.current, MemOf(shards[..]), index.idx, flushedUpTo)
    }

    /** The object is consistent, each file and segment can be read, and the state that they stand
        for is sound for the series in use and within the limits of the formats. */
    ghost predicate Valid(universe: set<Series>)
      reads this, shards, index, wm
    {
      && shards.Length == NUM_SHARDS && Placed(shards[..]) && wm.Consistent()
      && Whole(wm.segments, chunks, State(), universe)
    }

    /** A flush can be made; for this no chunk file need be readable. */
    ghost predicate CanFlush(universe: set<Series>)
      reads this, shards, wm
    {
      && shards.Length == NUM_SHARDS && Placed(shards[..]) && wm.Consistent()
      && Flushable(wm.segments, wm.current, chunks, MemOf(shards[..]), universe)
    }

    // ---- open ----

    /** Starts with empty memory and index, the watermark from the chunk headers, and the last
        segment open for appending. */
    constructor (segments: Segments, directories: Directories)
      requires (forall n :: n in segments ==> 1 <= n < NUMBERS)
      requires AllReadableIn(directories)
      ensures chunks == directories && IsMaxChunkTS(ChunkContents(chunks), flushedUpTo)
      ensures shards.Length == NUM_SHARDS
      ensures Placed(shards[..]) && MemOf(shards[..]) == map[] && index.idx == map[]
      ensures wm.Consistent() && wm.segments == Reopened(segments)
      ensures wm.current == if segments == map[] then 1 else Largest(segments.Keys)
      ensures fresh(shards) && fresh(index) && fresh(wm)
    {
      hide Placed, MemOf, IsMaxChunkTS, AllReadable, ChunkContents;
      var ft := MaxChunkTS(directories);
      shards := new Shard[NUM_SHARDS](_ => map[]);
      index := new MetricIndex();
      wm := new Manager.Open(segments);
      chunks := directories;
      root := true;
      flushedUpTo := 0;
      if ft > 0 {
        flushedUpTo := ft;
      }
      new;
      EmptyShards(shards[..]);
      assert segments == map[] <==> segments.Keys == {};
    }

    /** Fills the empty memory and index from the disk; a segment that does not replay is an error. */
    method Load(segments: Segments, ghost universe: set<Series>) returns (r: Result<()>)
      requires Openable(segments, chunks, universe)
      requires shards.Length == NUM_SHARDS
      requires Placed(shards[..]) && MemOf(shards[..]) == map[] && index.idx == map[]
      requires wm.Consistent() && wm.segments == Reopened(segments) && IsMaxChunkTS(ChunkContents(chunks), flushedUpTo)
      requires wm.current == if segments == map[] then 1 else Largest(segments.Keys)
      modifies shards, index
      ensures r.Ok? <==> AllReplay(segments)
      ensures r.Ok? ==> Valid(universe) && Engine.Open(DiskOf(segments, chunks), State())
    {
      hide Placed, MemOf, ReplayMem, ReplayIndex, AllRecords, Ascending, Whole, Openable, AllReplay, DiskOf,
        ChunkContents, WalContents, Engine.Open, Reopened, IsMaxChunkTS;
      r := Rebuild(segments, universe);
      if r.Ok? {
        Opened(segments, chunks, State(), universe);
      }
    }

    /** The index from the directories, then memory and index from all segments. */
    method Rebuild(segments: Segments, ghost universe: set<Series>) returns (r: Result<()>)
      requires Openable(segments, chunks, universe)
      requires Placed(shards[..]) && MemOf(shards[..]) == map[] && index.idx == map[]
      modifies shards, index
      ensures shards.Length == NUM_SHARDS && Placed(shards[..]) && (r.Ok? <==> AllReplay(segments))
      ensures
        var recs := AllRecords(WalContents(segments), Ascending(segments.Keys));
        r.Ok? ==> MemOf(shards[..]) == ReplayMem(recs) && index.idx == ReplayIndex(chunks.Keys, recs)
    {
      assert shards.Length == NUM_SHARDS;
      hide Placed, MemOf, ReplayMem, ReplayIndex, AllRecords, Ascending, NoCollision, Openable, AllReplay,
        AllReadableIn, RecordsIn, GoodRecords, WalContents, InNameOrder;
      OpenableParts(segments, chunks, universe);
      ListDirectories(chunks.Keys);
      var order := ListNumbers(segments.Keys);
      r := ReplaySegments(segments, order, universe);
    }

    /** Memory and index are those of the records, after the directories. */
    ghost predicate Remembers(recs: seq<Record>, dirs: set<Str>)
      reads shards, index
    {
      && shards.Length == NUM_SHARDS && Placed(shards[..])
      && MemOf(shards[..]) == ReplayMem(recs) && index.idx == ReplayIndex(dirs, recs)
    }

    lemma RemembersNothing(wal: map<nat, seq<Record>>, dirs: set<Str>)
      requires Placed(shards[..]) && MemOf(shards[..]) == map[] && index.idx == map m | m in dirs :: {}
      ensures Remembers(AllRecords(wal, []), dirs)
    {
      hide MemOf;
      NothingReplayed(wal, dirs);
    }

    /** Replays the segments in order into an empty memory. */
    method ReplaySegments(segments: Segments, order: seq<nat>, ghost universe: set<Series>)
      returns (r: Result<()>)
      requires NoCollision(universe) && forall n :: n in segments ==> GoodRecords(RecordsIn(segments[n]), universe)
      requires forall n :: n in order <==> n in segments
      requires Placed(shards[..]) && MemOf(shards[..]) == map[] && index.idx == map m | m in chunks.Keys :: {}
      modifies shards, index
      ensures Placed(shards[..]) && (r.Ok? <==> AllReplay(segments))
      ensures r.Ok? ==> Remembers(AllRecords(WalContents(segments), order), chunks.Keys)
    {
      hide Placed, MemOf, AllRecords, NoCollision, GoodRecords, ReplayBytes, WalContents, AllReplay, RecordsIn, ReplaysTo,
        ReplayMem, ReplayIndex;
      ghost var wal := WalContents(segments);
      ghost var dirs := chunks.Keys;
      KnownSegments(segments, universe);
      ReplaysNone(segments, order);
      RemembersNothing(wal, dirs);
      var i := 0;
      assert order[..0] == [];
      while i < |order|
        invariant 0 <= i <= |order|
        invariant ReplaysTo(segments, order, i) && Remembers(AllRecords(wal, order[..i]), dirs)
      {
        ReplaysMore(segments, order, i);
        var _ :- ReplayNext(segments, order, i, dirs, universe);
        i := i + 1;
      }
      assert order[..i] == order;
      ReplaysAll(segments, order);
      r := Ok(());
    }

    /** Replays one segment after those before it. */
    method ReplayNext(segments: Segments, order: seq<nat>, i: nat, ghost dirs: set<Str>, ghost universe: set<Series>)
      returns (r: Result<()>)
      requires i < |order| && forall n :: n in order ==> n in segments
      requires NoCollision(universe)
      requires forall n :: n in WalContents(segments) ==> GoodRecords(WalContents(segments)[n], universe)
      requires Remembers(AllRecords(WalContents(segments), order[..i]), dirs)
      modifies shards, index
      ensures r.Ok? <==> ReplayBytes(segments[order[i]]).Ok?
      ensures shards.Length == NUM_SHARDS && Placed(shards[..])
      ensures r.Ok? ==> Remembers(AllRecords(WalContents(segments), order[..i + 1]), dirs)
    {
      hide Placed, MemOf, AllRecords, NoCollision, GoodRecords, ReplayBytes, ReplayMem, ReplayIndex;
      ghost var wal := WalContents(segments);
      assert order[i] in order;
      RecordsStep(wal, order, i);
      RecordsKnown(wal, order[..i], universe);
      var records :- Replay(segments[order[i]]);
      ReplaySegment(records, AllRecords(wal, order[..i]), dirs, universe);
      r := Ok(());
    }

    method ListDirectories(dirs: set<Str>)
      requires index.idx == map[]
      modifies index
      ensures index.idx == map m | m in dirs :: {}
    {
      var left := dirs;
      while left != {}
        invariant left <= dirs
        invariant index.idx == map m | m in dirs - left :: {}
        decreases left
      {
        var m :| m in left;
        index.AddMetric(m);
        left := left - {m};
      }
    }

    /** Applies the records of one segment after those before it. */
    method ReplaySegment(
      recs: seq<Record>, ghost before: seq<Record>, ghost dirs: set<Str>, ghost universe: set<Series>)
      requires NoCollision(universe) && GoodRecords(before, universe) && GoodRecords(recs, universe)
      requires Remembers(before, dirs)
      modifies shards, index
      ensures Remembers(before + recs, dirs)
    {
      hide Remembers, NoCollision, GoodRecords;
      var i := 0;
      assert before + recs[..0] == before;
      while i < |recs|
        invariant 0 <= i <= |recs| && Remembers(before + recs[..i], dirs)
      {
        Replayed(before, recs, i, universe);
        ReplayRecord(recs[i], before + recs[..i], dirs, universe);
        i := i + 1;
      }
      assert recs[..i] == recs;
    }

    method ReplayRecord(rec: Record, ghost done: seq<Record>, ghost dirs: set<Str>, ghost universe: set<Series>)
      requires NoCollision(universe) && GoodRecords(done, universe) && Remembers(done, dirs)
      modifies shards, index
      ensures Remembers(done + [rec], dirs)
    {
      hide MemOf, Placed, NoCollision, GoodRecords, GoodMem, Engine.ApplyRecord, IndexRecord, ReplayMem, ReplayIndex;
      ReplayGood(done, universe);
      ReplayStep(dirs, done, rec);
      ApplyRecord(rec, universe);
    }

    /** The shard list after one shard changed. */
    method SetShard(i: nat, shard: Shard)
      requires i < shards.Length
      modifies shards
      ensures shards[..] == old(shards[..])[i := shard]
    {
      shards[i] := shard;
    }

    // ---- push ----

    /** Inserts the points of a record into its series, which it creates and lists if absent. */
    method ApplyRecord(rec: Record, ghost universe: set<Series>)
      requires Placed(shards[..]) && GoodMem(MemOf(shards[..]), universe)
      modifies shards, index
      ensures Placed(shards[..])
      ensures MemOf(shards[..]) == Engine.ApplyRecord(old(MemOf(shards[..])), rec)
      ensures index.idx == IndexRecord(old(index.idx), old(MemOf(shards[..])), rec)
      ensures
        var id := SeriesKey.Hash(rec.Key());
        var was := if id in old(MemOf(shards[..])) then old(MemOf(shards[..]))[id].points else [];
        && id in MemOf(shards[..])
        && (Sorted(was + rec.points) ==> MemOf(shards[..])[id].points == was + rec.points)
    {
      hide SeriesKey.Hash, InsertAll, Sorted, MemOf, ShardOf;
      ghost var mem := MemOf(shards[..]);
      var id := SeriesKey.HashSeries(rec.metric, rec.labels);
      var i := ShardOf(id);
      var shard := shards[i];
      SameLookup(shards[..], id);
      var exists_ := id in shard;
      var ser := if exists_ then shard[id] else rec.(points := []);
      StartSorted(mem, id, universe);
      var points := InsertPoints(ser.points, rec.points);
      PutSeries(shards[..], id, ser.(points := points));
      SetShard(i, shard[id := ser.(points := points)]);
      if !exists_ {
        index.Add(rec.metric, id);
      }
    }

    /** Validates, writes the log first, and then applies the record to memory. Any record is
        taken; one that is good for the series in use and has room makes a push of the engine. */
    method PushBatch(metric: Str, labels: Labels, points: seq<Point>, ghost universe: set<Series>)
      returns (r: Result<()>, ghost order: seq<Str>)
      requires Valid(universe)
      modifies shards, index, wm
      ensures metric == [] ==> r == Err(MetricRequired) && State() == old(State()) && Valid(universe)
      ensures metric != [] && points == [] ==> r == Err(PointsRequired) && State() == old(State()) && Valid(universe)
      ensures metric != [] && points != [] ==>
                var rec := Record(metric, labels, points);
                && r == Ok(()) && IsOrder(order, labels)
                && wm.current == old(wm.current)
                && wm.segments == old(wm.segments)[wm.current :=
                                    old(wm.segments[wm.current]) + Frame(RecordBytes(rec, order))]
                && MemOf(shards[..]) == Engine.ApplyRecord(old(MemOf(shards[..])), rec)
                && index.idx == IndexRecord(old(index.idx), old(MemOf(shards[..])), rec)
      ensures
        var rec := Record(metric, labels, points);
        metric != [] && points != [] && GoodRecord(rec, universe) && HasRoom(old(State()), rec) ==>
          Valid(universe) && State() == Push(old(State()), rec)
    {
      hide MemOf, Engine.ApplyRecord, IndexRecord, GoodRecord, NoCollision, HasRoom, Loggable, Whole, DiskOf,
        WalContents, AllReplay, RecordsIn, Frame, RecordBytes, Placed, GoodMem, Usable, SoundIndex, Push;
      order := [];
      if |metric| == 0 {
        return Err(MetricRequired), order;
      }
      if |points| == 0 {
        return Err(PointsRequired), order;
      }
      ghost var s := State();
      ghost var segments := wm.segments;
      var rec := Record(metric, labels, points);
      WholeParts(segments, chunks, s, universe);
      order := wm.Write(rec);
      ApplyRecord(rec, universe);
      if GoodRecord(rec, universe) && HasRoom(s, rec) {
        Pushed(segments, chunks, s, rec, wm.segments, State(), universe);
      }
      r := Ok(());
    }

    // ---- flush ----

    /** evictFlushedPoints, shard after shard. */
    method EvictFlushed(upTo: int64, ghost universe: set<Series>)
      requires Placed(shards[..]) && GoodMem(MemOf(shards[..]), universe)
      modifies shards
      ensures Placed(shards[..]) && MemOf(shards[..]) == Evict(old(MemOf(shards[..])), upTo)
      ensures forall id :: id in MemOf(shards[..])
                      <==> && id in old(MemOf(shards[..]))
                           && exists p :: p in old(MemOf(shards[..]))[id].points && p.ts > upTo
      ensures forall id :: id in MemOf(shards[..]) ==>
                MemOf(shards[..])[id].Key() == old(MemOf(shards[..]))[id].Key()
                && From(old(MemOf(shards[..]))[id].points, MemOf(shards[..])[id].points, upTo + 1)
    {
      hide MemOf, Evict, GoodMem, Sorted, From, After;
      MemInOrder(MemOf(shards[..]), universe);
      EvictExactly(MemOf(shards[..]), upTo);
      ghost var before := shards[..];
      var i := 0;
      while i < shards.Length
        invariant 0 <= i <= shards.Length
        invariant forall j :: 0 <= j < i ==> shards[j] == Evict(before[j], upTo)
        invariant forall j :: i <= j < shards.Length ==> shards[j] == before[j]
      {
        ShardSorted(before, i, universe);
        shards[i] := EvictShard(shards[i], upTo);
        i := i + 1;
      }
      EvictAll(before, shards[..], upTo);
    }

    /** The middle of a flush: the records are grouped and written to chunk files. */
    method WriteRecords(records: seq<Record>, ghost universe: set<Series>) returns (maxTS: int64)
      requires Usable(universe) && GoodRecords(records, universe) && FewPoints(records)
      requires AllNumbered(chunks)
      modifies this`chunks, this`root
      ensures ChunksWritten(ChunkContents(old(chunks)), records, ChunkContents(chunks)) && IsMaxTS(records, maxTS)
      ensures AllReadableIn(old(chunks)) ==> AllReadableIn(chunks)
    {
      hide Usable, GoodRecords, FewPoints, ChunksWritten, ChunkContents, AllReadable, IsMaxTS, Grouped, ReplayMem;
      UsableApart(universe);
      var groups, latest := GroupRecords(records, universe);
      maxTS := latest;
      chunks := WriteChunks(chunks, groups, records, universe);
      root := true;
    }

    /** The end of a flush: the watermark moves to the latest time, and what it covers is evicted. */
    method MoveWatermark(maxTS: int64, ghost universe: set<Series>)
      requires Placed(shards[..]) && GoodMem(MemOf(shards[..]), universe)
      modifies this`flushedUpTo, shards
      ensures Placed(shards[..])
      ensures flushedUpTo == if maxTS > 0 then maxTS else old(flushedUpTo)
      ensures MemOf(shards[..]) == if maxTS > 0 then Evict(old(MemOf(shards[..])), maxTS) else old(MemOf(shards[..]))
    {
      if maxTS > 0 {
        flushedUpTo := maxTS;
        EvictFlushed(maxTS, universe);
      }
    }

    /** flushToChunks: seal the open segment, replay it from its bytes, write its records to chunk
        files, remove it, and only then move the watermark and evict what it covers. It reads no
        chunk file; when the segment does not replay, it stays, sealed, and nothing else happens. */
    method FlushToChunks(ghost universe: set<Series>) returns (r: Result<()>)
      requires CanFlush(universe)
      modifies this, shards, wm
      ensures r.Ok? <==> ReplayBytes(old(wm.segments[wm.current])).Ok?
      ensures r.Ok? ==> Engine.Flush(old(State()), State())
      ensures r.Ok? ==> forall key: Series :: FlushedSeries(old(State()), State(), key)
      ensures r.Ok? ==> MarkMoves(old(State()).Segment(), old(flushedUpTo), flushedUpTo)
      ensures r.Err? ==>
                && State() == old(State()).(disk := DiskOf(wm.segments, chunks), current := wm.current)
                && wm.current == old(wm.current) + 1 && wm.segments == old(wm.segments)[wm.current := []]
                && chunks == old(chunks)
      ensures old(Valid(universe) && CanNumber(State())) ==> r.Ok? && Valid(universe)
    {
      hide MemOf, Flushable, Whole, DiskOf, CanNumber, ReplayBytes, Engine.Flush, Placed, AllReadableIn, SegmentsAfter,
        MarkMoves, FlushedSeries;
      ghost var s := State();
      ghost var segments := wm.segments;
      ghost var before := chunks;
      ghost var valid := Valid(universe) && CanNumber(s);
      if valid {
        WholeFlushable(segments, chunks, s, universe);
      }
      var sealed := wm.Rotate();
      var records :- Replay(wm.segments[sealed]);
      FlushSealed(sealed, records, segments, s, universe);
      FlushesSeries(s, State());
      FlushMark(s, State());
      if valid {
        FlushWhole(segments, before, s, chunks, State(), universe);
      }
      r := Ok(());
    }

    /** The part of a flush after the sealed segment is replayed. */
    method FlushSealed(
      sealed: nat, records: seq<Record>, ghost segments: Segments, ghost s: State, ghost universe: set<Series>)
      requires shards.Length == NUM_SHARDS && Placed(shards[..])
      requires Flushable(segments, sealed, chunks, MemOf(shards[..]), universe)
      requires s == Engine.State(DiskOf(segments, chunks), sealed, MemOf(shards[..]), index.idx, flushedUpTo)
      requires wm.Consistent() && wm.current == sealed + 1 && wm.segments == segments[sealed + 1 := []]
      requires ReplayBytes(segments[sealed]) == Ok(records)
      modifies this, shards, wm
      ensures shards.Length == NUM_SHARDS && Placed(shards[..]) && wm.Consistent()
      ensures wm.segments == SegmentsAfter(segments, sealed)
      ensures AllReadableIn(old(chunks)) ==> AllReadableIn(chunks)
      ensures Engine.Flush(s, State())
    {
      hide MemOf, Evict, Usable, NoCollision, ChunksWritten, IsMaxTS, GoodMem, GoodRecords, DiskOf, ChunkContents,
        AllReadable, FewPoints, ReplayBytes, Engine.Flush, Placed, AllNumbered, AllReadableIn;
      ghost var before := chunks;
      SealedRecords(segments, chunks, s);
      if |records| == 0 {
        wm.Remove(sealed);
        FlushedNothing(segments, chunks, s, State());
        return;
      }
      var maxTS := WriteRecords(records, universe);
      wm.Remove(sealed);
      MoveWatermark(maxTS, universe);
      Flushed(segments, before, s, chunks, State(), maxTS);
    }

    // ---- compaction, drop, retention ----

    /** Compacts every directory that has more than `threshold` files, to one file each. */
    method Compact(threshold: int, ghost universe: set<Series>)
      requires Valid(universe) && CanNumber(State())
      modifies this`chunks
      ensures Valid(universe) && Engine.Compact(old(State()), threshold, State())
      ensures chunks.Keys == old(chunks).Keys
      ensures forall m :: m in chunks ==>
                var files := old(chunks)[m];
                if |files| > threshold && files != map[] then |chunks[m]| == 1 else chunks[m] == files
      ensures threshold >= 1 ==> forall m :: m in chunks ==> |chunks[m]| <= threshold
    {
      hide MemOf, Placed, Mergeable, CompactedBytes, Usable, Whole, CanNumber, AllReadable, DiskOf, ChunkContents,
        Engine.Compact;
      ghost var s := State();
      ghost var before := chunks;
      DirsMergeable(wm.segments, chunks, s, universe);
      var compacted, r := CompactDirs(chunks, threshold, universe);
      assert r.Ok? by { assert AllReadableIn(chunks); }
      chunks := compacted;
      Compacted(wm.segments, before, s, chunks, threshold, State(), universe);
    }

    /** evictSeriesByLabels: deletes the matching series of a metric from memory and index. */
    method EvictSeries(metric: Str, filter: Labels, ghost universe: set<Series>) returns (found: bool)
      requires Placed(shards[..]) && NoCollision(universe)
      requires GoodMem(MemOf(shards[..]), universe) && SoundIndex(index.idx, MemOf(shards[..]), universe)
      modifies shards, index
      ensures Placed(shards[..])
      ensures MemOf(shards[..]) == EvictMatching(old(MemOf(shards[..])), metric, filter)
      ensures forall id :: id in MemOf(shards[..])
                      <==> && id in old(MemOf(shards[..]))
                           && var rec := old(MemOf(shards[..]))[id];
                              rec.metric != metric || Lacks(rec.labels, filter)
      ensures
        var gone := MatchingIds(old(MemOf(shards[..])), metric, filter);
        index.idx == IndexRemove(old(index.idx), metric, gone) && (found <==> gone != {})
    {
      assert shards.Length == NUM_SHARDS;
      hide LabelsMatch, MemOf, IndexRemove, Placed, Filtered, MatchingIds, EvictMatching, NoCollision, GoodMem,
        SoundIndex;
      ghost var mem, idx := MemOf(shards[..]), index.idx;
      EvictMatchingExactly(mem, metric, filter);
      var ids := index.Lookup(metric);
      found := EvictListed(metric, filter, ids);
      AllEvicted(mem, idx, metric, filter, universe);
    }

    /** Evicts the matching series, and takes the metric off the index when its directory is gone. */
    method DropFromMemory(dir: Str, metric: Str, filter: Labels, ghost universe: set<Series>) returns (found: bool)
      requires Placed(shards[..]) && NoCollision(universe)
      requires GoodMem(MemOf(shards[..]), universe) && SoundIndex(index.idx, MemOf(shards[..]), universe)
      modifies shards, index
      ensures Placed(shards[..])
      ensures MemOf(shards[..]) == EvictMatching(old(MemOf(shards[..])), metric, filter)
      ensures
        var gone := MatchingIds(old(MemOf(shards[..])), metric, filter);
        var idx := IndexRemove(old(index.idx), metric, gone);
        index.idx == (if dir in chunks then idx else idx - {metric}) && (found <==> gone != {})
    {
      assert shards.Length == NUM_SHARDS;
      hide MemOf, IndexRemove, Placed, MatchingIds, EvictMatching, NoCollision, GoodMem, SoundIndex;
      found := EvictSeries(metric, filter, universe);
      if dir !in chunks {
        var _ := index.Drop(metric);
      }
    }

    /** Goes through the ids listed under a metric. */
    method EvictListed(metric: Str, filter: Labels, ids: set<uint64>) returns (found: bool)
      requires Placed(shards[..])
      modifies shards, index
      ensures Placed(shards[..])
      ensures
        var gone := Filtered(old(MemOf(shards[..])), filter, ids);
        && MemOf(shards[..]) == old(MemOf(shards[..])) - gone
        && index.idx == IndexRemove(old(index.idx), metric, gone)
        && (found <==> gone != {})
    {
      assert shards.Length == NUM_SHARDS;
      hide LabelsMatch, MemOf, IndexRemove, Placed, Filtered, InFilter;
      ghost var mem, idx := MemOf(shards[..]), index.idx;
      found := false;
      var left := ids;
      NoneRemoved(mem, idx, metric, filter);
      assert ids - ids == {};
      while left != {}
        invariant left <= ids && Placed(shards[..])
        invariant MemOf(shards[..]) == mem - Filtered(mem, filter, ids - left)
        invariant index.idx == IndexRemove(idx, metric, Filtered(mem, filter, ids - left))
        invariant found <==> Filtered(mem, filter, ids - left) != {}
        decreases left
      {
        var id :| id in left;
        ghost var gone := Filtered(mem, filter, ids - left);
        FilteredMore(mem, filter, ids - left, id);
        assert ids - (left - {id}) == ids - left + {id};
        EvictMore(mem, filter, ids - left, id);
        var deleted := EvictOne(metric, filter, id);
        if deleted {
          RemoveMore(idx, metric, gone, id);
          found := true;
        }
        left := left - {id};
      }
      assert ids - left == ids;
    }

    /** Deletes one listed series when it is in memory and its labels match. */
    method EvictOne(metric: Str, filter: Labels, id: uint64) returns (deleted: bool)
      requires Placed(shards[..])
      modifies shards, index
      ensures Placed(shards[..])
      ensures
        var mem := old(MemOf(shards[..]));
        && (deleted <==> InFilter(mem, filter, id))
        && MemOf(shards[..]) == (if deleted then mem - {id} else mem)
      ensures index.idx == if deleted then IndexRemove(old(index.idx), metric, {id}) else old(index.idx)
    {
      hide LabelsMatch, MemOf, ShardOf, IndexRemove;
      deleted := false;
      var i := ShardOf(id);
      SameLookup(shards[..], id);
      if id in shards[i] {
        var matches := MatchLabels(filter, shards[i][id].labels);
        if matches {
          DeleteSeries(shards[..], id);
          SetShard(i, shards[i] - {id});
          index.Remove(metric, id);
          deleted := true;
        }
      }
    }

    /** What os.Stat finds for a metric directory. */
    predicate Exists(place: Place)
      reads this
    {
      match place
      case Below(dir) => dir in chunks
      case ChunkRoot => root
      case AboveRoot => true
    }

    lemma ValidFlushes(universe: set<Series>)
      requires Valid(universe)
      ensures CanFlush(universe)
    {
      hide Placed, MemOf, Whole, Flushable;
      WholeFlushable(wm.segments, chunks, State(), universe);
    }

    /** DropMetric: flushes, rewrites the files of the directory without the matching series, and
        evicts those from memory; reports whether anything matched. For "." and ".." the directory
        is the chunk directory or its parent: the flush is made and nothing is dropped. */
    method DropMetric(metric: Str, filter: Labels, ghost universe: set<Series>) returns (r: Result<bool>)
      requires Valid(universe) && CanNumber(State())
      modifies this, shards, index, wm
      ensures metric == [] ==> r == Err(MetricRequired)
      ensures metric == [] || (metric !in old(index.idx) && !old(Exists(Join(SanitizeMetric(metric))))) ==>
                Valid(universe) && State() == old(State())
      ensures metric != [] && Join(SanitizeMetric(metric)).Below? ==>
                r.Ok? && Drop(old(State()), SanitizeMetric(metric), metric, filter, State(), r.value)
      ensures metric != [] && Join(SanitizeMetric(metric)).Below?
              && (metric in old(index.idx) || SanitizeMetric(metric) in old(chunks)) ==>
                forall key: Series ::
                  DroppedSeries(old(State()), SanitizeMetric(metric), metric, filter, State(), key)
      ensures Join(SanitizeMetric(metric)).Below? ==>
                SanitizeMetric(metric) in chunks || !InMemory(State().mem, metric) ==> Valid(universe)
      ensures metric != [] && !Join(SanitizeMetric(metric)).Below? ==>
                r == Ok(false) && Valid(universe) && (State() == old(State()) || Emptied(old(State()), metric, State()))
    {
      hide MemOf, Placed, Whole, Engine.Flush, DropAfterFlush, AnyMatch, SanitizeMetric, Drop, CanNumber, WalContents,
        Contents, Flushable;
      if |metric| == 0 {
        return Err(MetricRequired);
      }
      ghost var s := State();
      var dir := SanitizeMetric(metric);
      if !index.Has(metric) && !Exists(Join(dir)) {
        if dir !in chunks {
          DropUnknown(s, dir, metric, filter);
        }
        return Ok(false);
      }
      ValidFlushes(universe);
      var _ := FlushToChunks(universe);
      ghost var mid := State();
      if Join(dir).Below? {
        var dropped := DropFlushed(metric, filter, universe);
        DropIs(s, mid, dir, metric, filter, State(), dropped);
        DropsSeries(s, dir, metric, filter, State(), dropped);
        r := Ok(dropped);
      } else {
        var dropped := DropElsewhere(metric, filter, universe);
        r := Ok(dropped);
      }
    }

    /** The part of a drop after its flush when the name leads elsewhere: the directory that it
        leads to has no chunk files, and goes when it is the chunk directory and empty. */
    method DropElsewhere(metric: Str, filter: Labels, ghost universe: set<Series>) returns (dropped: bool)
      requires Valid(universe) && !Join(SanitizeMetric(metric)).Below?
      modifies this`root, shards, index
      ensures Valid(universe) && !dropped
      ensures State() == old(State()) || State() == old(State()).(index := old(State()).index - {metric})
    {
      hide MemOf, Whole, SanitizeMetric, SoundIndex, GoodMem, Usable, NoCollision, Placed, EvictMatching, MatchingIds,
        IndexRemove, DiskOf;
      ghost var s := State();
      WholeParts(wm.segments, chunks, s, universe);
      NoneElsewhere(s, metric, filter, universe);
      UnlistedWhole(wm.segments, chunks, s, metric, universe);
      var place := Join(SanitizeMetric(metric));
      if place.ChunkRoot? && chunks == map[] {
        root := false;
      }
      dropped := EvictSeries(metric, filter, universe);
      if place.ChunkRoot? && !root {
        var _ := index.Drop(metric);
      }
    }

    /** The part of a drop after its flush. */
    method DropFlushed(metric: Str, filter: Labels, ghost universe: set<Series>) returns (dropped: bool)
      requires Valid(universe)
      modifies this, shards, index
      ensures DropAfterFlush(old(State()), SanitizeMetric(metric), metric, filter, State())
      ensures dropped <==> AnyMatch(old(State()), SanitizeMetric(metric), metric, filter)
      ensures SanitizeMetric(metric) in chunks || !InMemory(State().mem, metric) ==> Valid(universe)
    {
      hide MemOf, Whole, DroppedDir, DropAfterFlush, AnyMatch, SanitizeMetric, InMemory, AnyLoses, SoundIndex, GoodMem,
        Usable, NoCollision, Placed, EvictMatching, MatchingIds, IndexRemove, DiskOf, ChunkContents, Contents, ByteDir,
        AllReadable, StoredBytes;
      ghost var mid := State();
      ghost var before := chunks;
      var dir := SanitizeMetric(metric);
      WholeParts(wm.segments, chunks, mid, universe);
      DirStored(wm.segments, chunks, mid, dir, universe);
      MatchesFound(mid, dir, metric, filter);
      var left, onDisk := DropSeriesFromChunks(chunks, dir, filter, universe);
      chunks := left;
      var inMemory := DropFromMemory(dir, metric, filter, universe);
      dropped := onDisk.value || inMemory;
      Dropped(wm.segments, before, mid, dir, metric, filter, chunks, State(), universe);
    }

    /** enforceRetention with the cutoff that the clock gives: expired files are deleted, and
        each shard is trimmed. */
    method EnforceRetention(cutoff: int64, ghost universe: set<Series>)
      requires Valid(universe)
      modifies this, shards, index
      ensures Valid(universe) && Retain(old(State()), cutoff, State())
      ensures chunks.Keys == old(chunks).Keys
      ensures forall m, n :: m in chunks ==>
                (n in chunks[m] <==>
                 n in old(chunks)[m]
                 && exists d, p :: d in Content(old(chunks)[m][n]).series && p in d.points && p.ts >= cutoff)
      ensures forall m, n :: m in chunks && n in chunks[m] ==> chunks[m][n] == old(chunks)[m][n]
      ensures forall id :: id in State().mem
                      <==> id in old(State()).mem && exists p :: p in old(State()).mem[id].points && p.ts >= cutoff
      ensures forall id :: id in State().mem ==>
                State().mem[id].Key() == old(State()).mem[id].Key()
                && From(old(State()).mem[id].points, State().mem[id].points, cutoff)
      ensures forall name: Str :: AllBefore(old(State()), name, cutoff) ==> ShowsNothing(State(), name)
      ensures StillListed(old(State()), State())
    {
      assert shards.Length == NUM_SHARDS;
      assert AllReadableIn(chunks);
      hide Content, AllBefore, ShowsNothing, StillListed, From, MemOf, Placed, GoodMem, NoCollision, Usable, Whole,
        FreshMem, FreshFiles, Purged, AllReadable, ChunkContents, DiskOf, SoundIndex, Retain;
      ghost var s := State();
      ghost var before := chunks;
      WholeParts(wm.segments, chunks, s, universe);
      var left := DeleteExpired(chunks, cutoff);
      chunks := left;
      TrimMemory(cutoff, universe);
      Trimmed(wm.segments, before, s, cutoff, chunks, State(), universe);
      RetentionLeaves(wm.segments, before, s, cutoff, State(), universe);
    }

    /** Trims every shard, and takes the series that are left without points off the index. */
    method TrimMemory(cutoff: int64, ghost universe: set<Series>)
      requires Placed(shards[..]) && GoodMem(MemOf(shards[..]), universe)
      modifies shards, index
      ensures Placed(shards[..]) && MemOf(shards[..]) == FreshMem(old(MemOf(shards[..])), cutoff)
      ensures
        var mem := old(MemOf(shards[..]));
        index.idx == Purged(old(index.idx), mem, mem.Keys - FreshMem(mem, cutoff).Keys)
    {
      assert shards.Length == NUM_SHARDS;
      hide MemOf, Placed, GoodMem, FreshMem, Purged, Expired, TrimmedTo;
      ghost var before, mem, idx := shards[..], MemOf(shards[..]), index.idx;
      var i := 0;
      PurgeNone(idx, mem);
      NoneExpired(mem, cutoff);
      NoneTrimmed(before, cutoff);
      while i < shards.Length
        invariant 0 <= i <= shards.Length
        invariant TrimmedTo(before, shards[..], i, cutoff)
        invariant index.idx == Purged(idx, mem, Expired(mem, i, cutoff))
      {
        TrimmedMore(before, shards[..], i, cutoff);
        TrimAt(i, cutoff, before, idx, universe);
        i := i + 1;
      }
      AllExpired(mem, cutoff);
      AllTrimmed(before, shards[..], cutoff);
    }

    /** Trims one shard. */
    method TrimAt(
      i: nat, cutoff: int64, ghost before: seq<Shard>, ghost idx: map<Str, set<uint64>>, ghost universe: set<Series>)
      requires i < shards.Length && Placed(before) && |before| == shards.Length && shards[i] == before[i]
      requires GoodMem(MemOf(before), universe)
      requires index.idx == Purged(idx, MemOf(before), Expired(MemOf(before), i, cutoff))
      modifies shards, index
      ensures shards[..] == old(shards[..])[i := FreshMem(before[i], cutoff)]
      ensures index.idx == Purged(idx, MemOf(before), Expired(MemOf(before), i + 1, cutoff))
    {
      hide MemOf, GoodMem, FreshMem, Purged, AllSorted, Expired;
      ShardSorted(before, i, universe);
      var was := shards[i];
      var shard, removed := TrimShard(was, cutoff);
      SetShard(i, shard);
      ExpiredMore(before, i, cutoff);
      PurgeIds(was, removed, idx, MemOf(before), Expired(MemOf(before), i, cutoff));
    }

    /** Takes ids off the index, one after the other. */
    method PurgeIds(
      shard: Shard, removed: set<uint64>, ghost idx: map<Str, set<uint64>>, ghost mem: map<uint64, Record>,
      ghost gone: set<uint64>)
      requires gone <= mem.Keys && removed <= mem.Keys && removed !! gone
      requires forall id :: id in removed ==> id in shard && shard[id] == mem[id]
      requires index.idx == Purged(idx, mem, gone)
      modifies index
      ensures index.idx == Purged(idx, mem, gone + removed)
    {
      hide Purged, IndexRemove;
      var left := removed;
      assert gone + (removed - left) == gone;
      while left != {}
        invariant left <= removed
        invariant index.idx == Purged(idx, mem, gone + (removed - left))
        decreases left
      {
        var id :| id in left;
        PurgeMore(idx, mem, gone + (removed - left), id);
        assert gone + (removed - left) + {id} == gone + (removed - (left - {id}));
        index.Remove(shard[id].metric, id);
        left := left - {id};
      }
      assert gone + (removed - left) == gone + removed;
    }

    // ---- query ----

    /** The points of one series in memory, when it matches and has points in range. */
    method HotSeries(filter: Labels, lower: int64, to: int64, id: uint64, ghost universe: set<Series>)
      returns (found: bool, rec: Record)
      requires Placed(shards[..]) && GoodMem(MemOf(shards[..]), universe)
      ensures found <==> HotHas(MemOf(shards[..]), filter, lower, to, id)
      ensures found ==> rec == HotRecord(MemOf(shards[..]), lower, to, id)
    {
      hide LabelsMatch, Filter, GoodMem, Sorted, MemOf, ShardOf;
      found, rec := false, Record([], map[], []);
      var i := ShardOf(id);
      SameLookup(shards[..], id);
      if id !in shards[i] {
        return;
      }
      var ser := shards[i][id];
      var matches := MatchLabels(filter, ser.labels);
      if !matches {
        return;
      }
      StartSorted(MemOf(shards[..]), id, universe);
      var points := FilterPoints(ser.points, lower, to);
      found, rec := |points| != 0, ser.(points := points);
    }

    /** queryMemory: the hot buffer after the watermark; older points come from the chunks. */
    method QueryMemory(metric: Str, filter: Labels, from: int64, to: int64, ghost universe: set<Series>)
      returns (res: seq<Record>)
      requires Valid(universe) && flushedUpTo < MAX_INT64
      ensures Answer(res, metric, filter, HotContent(State(), from, to)) && FromKeys(res, universe)
      ensures Selects(res, metric, filter, HotContent(State(), from, to))
    {
      assert shards.Length == NUM_SHARDS;
      hide Selects, LabelsMatch, Filter, GoodMem, Sorted, MemOf, Whole, Placed, HotHas, HotRecord, Answer, NoCollision,
        SoundIndex, Usable, DiskOf;
      ghost var s := State();
      WholeParts(wm.segments, chunks, s, universe);
      var ids := index.Lookup(metric);
      var lower := from;
      if flushedUpTo > 0 && (from == 0 || flushedUpTo + 1 > from) {
        lower := flushedUpTo + 1;
      }
      res := HotListed(filter, lower, to, ids, universe);
      HotAnswer(s, metric, filter, from, to, res, ids, lower, universe);
      AnswerSelects(res, metric, filter, HotContent(s, from, to));
    }

    method HotListed(filter: Labels, lower: int64, to: int64, ids: set<uint64>, ghost universe: set<Series>)
      returns (res: seq<Record>)
      requires Placed(shards[..]) && GoodMem(MemOf(shards[..]), universe)
      ensures HotFound(MemOf(shards[..]), filter, lower, to, ids, res)
    {
      assert shards.Length == NUM_SHARDS;
      hide MemOf, Placed, HotHas, HotRecord, HotFound, GoodMem;
      ghost var mem := MemOf(shards[..]);
      res := [];
      var left := ids;
      assert ids - left == {};
      NothingFound(mem, filter, lower, to);
      while left != {}
        invariant left <= ids
        invariant HotFound(mem, filter, lower, to, ids - left, res)
        decreases left
      {
        var id :| id in left;
        var found, rec := HotSeries(filter, lower, to, id, universe);
        FoundMore(mem, filter, lower, to, ids - left, res, id, universe);
        assert ids - left + {id} == ids - (left - {id});
        if found {
          res := res + [rec];
        }
        left := left - {id};
      }
      assert ids - left == ids;
    }

    /** Query without a window: each matching series once, with exactly the points in range that
        its directory and memory hold for it. For a metric that names its own directory these are
        the visible points. */
    method Query(metric: Str, filter: Labels, from: int64, to: int64, ghost universe: set<Series>)
      returns (r: Result<seq<Record>>)
      requires Valid(universe) && flushedUpTo < MAX_INT64 && NoCollision(Asked(universe, metric))
      ensures metric == [] ==> r == Err(MetricRequired)
      ensures metric != [] ==>
                r.Ok? && Answer(r.value, metric, filter, DirContent(State(), SanitizeMetric(metric), from, to))
      ensures metric != [] ==> Selects(r.value, metric, filter, DirContent(State(), SanitizeMetric(metric), from, to))
      ensures OwnName(metric) ==> r.Ok? && Answer(r.value, metric, filter, VisibleContent(State(), from, to))
    {
      assert shards.Length == NUM_SHARDS;
      hide MemOf, Whole, Placed, Answer, Selects, NoCollision, SanitizeMetric, FromKeys, VisibleContent, HotContent,
        ColdContent, DirContent, DiskOf, Asked, Usable, OwnName, Join;
      if |metric| == 0 {
        return Err(MetricRequired);
      }
      ghost var s := State();
      var cold := QueryCold(metric, filter, from, to, universe);
      var hot := QueryMemory(metric, filter, from, to, universe);
      MoreKeys(hot, universe, metric);
      var raw := Combine(cold, hot, s, metric, filter, from, to, Asked(universe, metric));
      AnswerSelects(raw, metric, filter, DirContent(s, SanitizeMetric(metric), from, to));
      r := Ok(raw);
    }

    /** The part of a query that the chunk files answer; none of them fails to be read. */
    method QueryCold(metric: Str, filter: Labels, from: int64, to: int64, ghost universe: set<Series>)
      returns (cold: seq<Record>)
      requires Valid(universe) && NoCollision(Asked(universe, metric))
      ensures FromKeys(cold, Asked(universe, metric))
      ensures Answer(cold, metric, filter, ColdContent(State().Dir(SanitizeMetric(metric)), from, to))
    {
      hide MemOf, Whole, Placed, Answer, NoCollision, SanitizeMetric, FromKeys, ColdContent, DiskOf, Contents,
        GoodBytes, Asked, ByteDir, Blocks, SoundFiles;
      ghost var s := State();
      ghost var dir := SanitizeMetric(metric);
      DirAsked(wm.segments, chunks, s, metric, from, to, universe);
      var r := QueryChunks(chunks, metric, filter, from, to, Asked(universe, metric));
      cold := r.value;
      ColdKeys(cold, s.Dir(dir), metric, filter, from, to, Asked(universe, metric));
    }

    /** Every metric of the index, once. */
    method Metrics() returns (names: seq<Str>)
      ensures forall m :: m in names <==> m in index.idx
      ensures forall i, j :: 0 <= i < j < |names| ==> names[i] != names[j]
    {
      names := index.List();
    }

    /** Query with a window: the raw answer, each series grouped into windows. */
    method QueryWindow(
      metric: Str, filter: Labels, from: int64, to: int64, window: int64, agg: seq<uint64> -> uint64,
      ghost universe: set<Series>)
      returns (r: Result<seq<Record>>)
      requires Valid(universe) && flushedUpTo < MAX_INT64 && NoCollision(Asked(universe, metric))
      requires Aggregable(metric, filter, DirContent(State(), SanitizeMetric(metric), from, to), from, window)
      ensures metric == [] ==> r == Err(MetricRequired)
      ensures metric != [] ==> r.Ok?
      ensures
        var content := DirContent(State(), SanitizeMetric(metric), from, to);
        && (metric != [] && window > 0 ==> WindowAnswer(r.value, metric, filter, content, from, window, agg))
        && (metric != [] && window == 0 ==> Answer(r.value, metric, filter, content))
        && (metric != [] && window < 0 ==> r.value == [])
    {
      assert shards.Length == NUM_SHARDS;
      hide MemOf, Whole, Placed, Answer, WindowAnswer, DirContent, VisibleContent, SanitizeMetric, Aggregable, DiskOf;
      r := Query(metric, filter, from, to, universe);
      if r.Err? || window == 0 {
        return;
      }
      var results :=
        GroupAll(r.value, metric, filter, DirContent(State(), SanitizeMetric(metric), from, to), from, window, agg);
      r := Ok(results);
    }
  }

  /** Opens a database: the watermark from the chunk headers, the index from the directories,
      memory from all segments in order, and the last segment open for appending. It fails exactly
      when a segment does not replay. */
  method OpenDb(segments: Segments, chunks: Directories, ghost universe: set<Series>)
    returns (r: Result<Db>)
    requires Openable(segments, chunks, universe)
    ensures r.Ok? <==> AllReplay(segments)
    ensures r.Ok? ==>
              && fresh(r.value) && fresh(r.value.shards) && fresh(r.value.index) && fresh(r.value.wm)
              && r.value.Valid(universe) && Engine.Open(DiskOf(segments, chunks), r.value.State())
  {
    hide Placed, MemOf, IsMaxChunkTS, Whole, Openable, AllReplay, ChunkContents, DiskOf, AllReadable, Engine.Open,
      Reopened;
    OpenableParts(segments, chunks, universe);
    var db := new Db(segments, chunks);
    var _ :- db.Load(segments, universe);
    r := Ok(db);
  }

  /** maxChunkTS: the latest maximum in the headers of all chunk files, or zero. */
  method MaxChunkTS(chunks: Directories) returns (t: int64)
    requires AllReadableIn(chunks)
    ensures IsMaxChunkTS(ChunkContents(chunks), t) && t >= 0
  {
    hide Content, Readable;
    t := 0;
    ghost var contents: map<Str, Files> := ChunkContents(chunks);
    var dirs := chunks.Keys;
    while dirs != {}
      invariant dirs <= chunks.Keys
      invariant t >= 0
      invariant forall m: Str, n: nat :: m in contents && m !in dirs && n in contents[m] ==> contents[m][n].maxTS <= t
      invariant t == 0 || exists m: Str, n: nat :: m in contents && n in contents[m] && contents[m][n].maxTS == t
      decreases dirs
    {
      var m :| m in dirs;
      t := MaxFileTS(chunks[m], t);
      dirs := dirs - {m};
    }
  }

  method MaxFileTS(files: ByteFiles, least: int64) returns (t: int64)
    requires AllReadable(files)
    ensures t >= least && forall n :: n in Contents(files) ==> Contents(files)[n].maxTS <= t
    ensures t == least || exists n :: n in Contents(files) && Contents(files)[n].maxTS == t
  {
    hide ReadBytes, RangeBytes, FromLE;
    t := least;
    ghost var contents := Contents(files);
    var left := files.Keys;
    while left != {}
      invariant left <= files.Keys
      invariant t >= least && forall n :: n in contents && n !in left ==> contents[n].maxTS <= t
      invariant t == least || exists n :: n in contents && contents[n].maxTS == t
      decreases left
    {
      var n :| n in left;
      var range := ChunkTimeRange(files[n]);
      assert Readable(files[n]) && contents[n] == Content(files[n]);
      if range.Ok? && range.value.1 > t {
        t := range.value.1;
      }
      left := left - {n};
    }
  }

  lemma {:induction false} NothingReplayed(wal: map<nat, seq<Record>>, dirs: set<Str>)
    ensures ReplayMem(AllRecords(wal, [])) == map[]
    ensures ReplayIndex(dirs, AllRecords(wal, [])) == map m | m in dirs :: {}
  {
  }

  lemma {:induction false} RecordsStep(wal: map<nat, seq<Record>>, order: seq<nat>, i: nat)
    requires i < |order| && order[i] in wal
    ensures AllRecords(wal, order[..i + 1]) == AllRecords(wal, order[..i]) + wal[order[i]]
  {
    assert order[..i + 1][..i] == order[..i];
  }

  lemma {:induction false} ReplayStep(dirs: set<Str>, recs: seq<Record>, rec: Record)
    ensures ReplayMem(recs + [rec]) == Engine.ApplyRecord(ReplayMem(recs), rec)
    ensures ReplayIndex(dirs, recs + [rec]) == IndexRecord(ReplayIndex(dirs, recs), ReplayMem(recs), rec)
  {
    hide Engine.ApplyRecord, IndexRecord;
    assert (recs + [rec])[..|recs|] == recs;
  }

  lemma {:induction false} Replayed(before: seq<Record>, recs: seq<Record>, i: nat, universe: set<Series>)
    requires GoodRecords(before, universe) && GoodRecords(recs, universe) && i < |recs|
    ensures GoodRecords(before + recs[..i], universe)
    ensures before + recs[..i + 1] == before + recs[..i] + [recs[i]]
  {
    hide GoodRecord;
  }

  lemma {:induction false} SameLookup(shards: seq<Shard>, id: uint64)
    requires Placed(shards)
    ensures id in shards[ShardOf(id)] <==> id in MemOf(shards)
    ensures id in MemOf(shards) ==> MemOf(shards)[id] == shards[ShardOf(id)][id]
  {
    hide ShardOf;
  }

  lemma {:induction false} FlushesSeries(s: State, s': State)
    requires Engine.Flush(s, s')
    ensures forall key: Series :: FlushedSeries(s, s', key)
  {
    hide Engine.Flush, FlushedSeries;
    forall key: Series ensures FlushedSeries(s, s', key) {
      FlushExactly(s, s', key);
    }
  }

  lemma {:induction false} DropsSeries(s: State, dir: Str, metric: Str, filter: Labels, s': State, dropped: bool)
    requires Drop(s, dir, metric, filter, s', dropped) && (metric in s.index || dir in s.disk.chunks)
    ensures forall key: Series :: DroppedSeries(s, dir, metric, filter, s', key)
  {
    hide Drop, DroppedSeries;
    forall key: Series ensures DroppedSeries(s, dir, metric, filter, s', key) {
      DropExactly(s, dir, metric, filter, s', dropped, key);
    }
  }

  lemma {:induction false} MemInOrder(mem: map<uint64, Record>, universe: set<Series>)
    requires GoodMem(mem, universe)
    ensures forall id :: id in mem ==> Sorted(mem[id].points) && mem[id].points != []
  {
    hide SeriesKey.Hash, Sorted, AllAbove;
    forall id | id in mem ensures Sorted(mem[id].points) && mem[id].points != [] {
      assert GoodEntry(id, mem[id], universe);
    }
  }

  lemma {:induction false} ShardSorted(shards: seq<Shard>, i: nat, universe: set<Series>)
    requires Placed(shards) && i < NUM_SHARDS && GoodMem(MemOf(shards), universe)
    ensures AllSorted(shards[i])
  {
    hide SeriesKey.Hash, MemOf, ShardOf;
    forall id | id in shards[i] ensures Sorted(shards[i][id].points) {
      FromShard(shards, i, id);
      assert GoodEntry(id, MemOf(shards)[id], universe);
    }
  }

  ghost predicate InFilter(mem: map<uint64, Record>, filter: Labels, id: uint64) {
    id in mem && LabelsMatch(filter, mem[id].labels)
  }

  ghost function Filtered(mem: map<uint64, Record>, filter: Labels, ids: set<uint64>): set<uint64> {
    set id | id in ids && InFilter(mem, filter, id)
  }

  lemma {:induction false} FilteredMore(mem: map<uint64, Record>, filter: Labels, ids: set<uint64>, id: uint64)
    ensures Filtered(mem, filter, ids + {id})
         == Filtered(mem, filter, ids) + (if InFilter(mem, filter, id) then {id} else {})
  {
    hide InFilter;
  }

  lemma {:induction false} NoneRemoved(
    mem: map<uint64, Record>, index: map<Str, set<uint64>>, metric: Str, filter: Labels)
    ensures Filtered(mem, filter, {}) == {}
    ensures mem - {} == mem && IndexRemove(index, metric, {}) == index
  {
  }

  /** An id outside those already evicted still has its entry. */
  lemma {:induction false} EvictMore(mem: map<uint64, Record>, filter: Labels, ids: set<uint64>, id: uint64)
    requires id !in ids
    ensures
      var gone := Filtered(mem, filter, ids);
      && mem - gone - {id} == mem - (gone + {id}) && gone + {} == gone
      && (InFilter(mem - gone, filter, id) <==> InFilter(mem, filter, id))
  {
    hide LabelsMatch;
  }

  lemma {:induction false} AllEvicted(
    mem: map<uint64, Record>, index: map<Str, set<uint64>>, metric: Str, filter: Labels, universe: set<Series>)
    requires NoCollision(universe) && GoodMem(mem, universe) && SoundIndex(index, mem, universe)
    ensures
      var gone := Filtered(mem, filter, if metric in index then index[metric] else {});
      gone == MatchingIds(mem, metric, filter) && mem - gone == EvictMatching(mem, metric, filter)
  {
    hide LabelsMatch, NoCollision, GoodMem, SoundIndex;
    forall id ensures id in mem ==> (mem[id].metric == metric <==> Listed(index, metric, id)) {
      if id in mem {
        ListedMetric(index, mem, universe, metric, id);
      }
    }
  }

  /** A flush, after which the metric may be taken off the index. */
  ghost predicate Emptied(s: State, metric: Str, s': State) {
    exists mid :: Engine.Flush(s, mid) && (s' == mid || s' == mid.(index := mid.index - {metric}))
  }

  lemma {:induction false} DropUnknown(s: State, dir: Str, metric: Str, filter: Labels)
    requires metric !in s.index && dir !in s.disk.chunks
    ensures Drop(s, dir, metric, filter, s, false)
  {
  }

  lemma {:induction false} DropIs(
    s: State, mid: State, dir: Str, metric: Str, filter: Labels, s': State, dropped: bool)
    requires metric in s.index || dir in s.disk.chunks
    requires Engine.Flush(s, mid) && DropAfterFlush(mid, dir, metric, filter, s')
    requires dropped <==> AnyMatch(mid, dir, metric, filter)
    ensures Drop(s, dir, metric, filter, s', dropped)
  {
    hide Engine.Flush, DropAfterFlush, AnyMatch;
  }

  /** deleteExpiredChunks: the files that end before the cutoff go. */
  method DeleteExpired(chunks: Directories, cutoff: int64) returns (chunks': Directories)
    requires AllReadableIn(chunks)
    ensures
      var was := ChunkContents(chunks);
      ChunkContents(chunks') == map m | m in was :: FreshFiles(was[m], cutoff)
    ensures AllReadableIn(chunks') && chunks'.Keys == chunks.Keys
    ensures forall m, n :: m in chunks ==>
              (n in chunks'[m] <==> n in chunks[m] && Content(chunks[m][n]).maxTS >= cutoff)
    ensures forall m, n :: m in chunks && n in chunks'[m] ==> chunks'[m][n] == chunks[m][n]
  {
    hide AllReadable, FreshBytes, ChunkContents, Content;
    chunks' := chunks;
    var left := chunks.Keys;
    while left != {}
      invariant left <= chunks.Keys && chunks'.Keys == chunks.Keys
      invariant forall m :: m in left ==> chunks'[m] == chunks[m]
      invariant forall m :: m in chunks && m !in left ==> FreshBytes(chunks[m], cutoff, chunks'[m])
      invariant forall m, n :: m in chunks && m !in left ==>
                  (n in chunks'[m] <==> n in chunks[m] && Content(chunks[m][n]).maxTS >= cutoff)
      invariant forall m, n :: m in chunks && n in chunks'[m] ==> n in chunks[m] && chunks'[m][n] == chunks[m][n]
      invariant AllReadableIn(chunks')
      decreases left
    {
      var m :| m in left;
      var files := KeepFresh(chunks[m], cutoff);
      chunks' := chunks'[m := files];
      left := left - {m};
    }
    AllFresh(chunks, cutoff, chunks');
  }

  ghost predicate FreshBytes(files: ByteFiles, cutoff: int64, files': ByteFiles) {
    Contents(files') == FreshFiles(Contents(files), cutoff)
  }

  lemma {:induction false} AllFresh(chunks: Directories, cutoff: int64, chunks': Directories)
    requires chunks'.Keys == chunks.Keys && forall m :: m in chunks ==> FreshBytes(chunks[m], cutoff, chunks'[m])
    ensures
      var was := ChunkContents(chunks);
      ChunkContents(chunks') == map m | m in was :: FreshFiles(was[m], cutoff)
  {
    hide Contents, FreshFiles;
  }

  /** The files of one directory that do not end before the cutoff, by their headers. */
  method KeepFresh(files: ByteFiles, cutoff: int64) returns (files': ByteFiles)
    requires AllReadable(files)
    ensures FreshBytes(files, cutoff, files') && AllReadable(files')
    ensures forall n :: n in files' <==> n in files && Content(files[n]).maxTS >= cutoff
    ensures forall n :: n in files' ==> files'[n] == files[n]
  {
    hide ReadBytes, RangeBytes, FromLE;
    ghost var contents := Contents(files);
    files' := files;
    var left := files.Keys;
    while left != {}
      invariant left <= files.Keys
      invariant forall n :: n in files' <==> n in files && (n in left || contents[n].maxTS >= cutoff)
      invariant forall n :: n in files' ==> files'[n] == files[n]
      decreases left
    {
      var n :| n in left;
      var range := ChunkTimeRange(files[n]);
      assert Readable(files[n]) && contents[n] == Content(files[n]);
      if range.Ok? && range.value.1 < cutoff {
        files' := files' - {n};
      }
      left := left - {n};
    }
  }

  /** The ids that retention removes from the first n shards. */
  ghost function Expired(mem: map<uint64, Record>, n: nat, cutoff: int64): (ids: set<uint64>)
    ensures ids <= mem.Keys
  {
    set id | id in mem && ShardOf(id) < n && After(mem[id].points, cutoff - 1) == []
  }

  lemma {:induction false} ExpiredMore(shards: seq<Shard>, i: nat, cutoff: int64)
    requires Placed(shards) && i < NUM_SHARDS
    ensures
      var mem := MemOf(shards);
      var removed := shards[i].Keys - FreshMem(shards[i], cutoff).Keys;
      && Expired(mem, i + 1, cutoff) == Expired(mem, i, cutoff) + removed
      && removed !! Expired(mem, i, cutoff)
      && forall id :: id in removed ==> id in mem && shards[i][id] == mem[id]
  {
    hide ShardOf, After, MemOf;
    var mem := MemOf(shards);
    var removed := shards[i].Keys - FreshMem(shards[i], cutoff).Keys;
    forall id | id in shards[i] ensures ShardOf(id) == i && id in mem && mem[id] == shards[i][id] {
      FromShard(shards, i, id);
    }
    forall id | id in mem && ShardOf(id) == i ensures id in shards[i] {
      SameLookup(shards, id);
    }
  }

  /** The first n shards are trimmed and the others are as before. */
  ghost predicate TrimmedTo(before: seq<Shard>, now: seq<Shard>, n: nat, cutoff: int64) {
    && |now| == |before|
    && (forall i :: 0 <= i < n && i < |now| ==> now[i] == FreshMem(before[i], cutoff))
    && (forall i :: n <= i < |now| ==> now[i] == before[i])
  }

  lemma {:induction false} NoneTrimmed(before: seq<Shard>, cutoff: int64)
    ensures TrimmedTo(before, before, 0, cutoff)
  {
  }

  lemma {:induction false} TrimmedMore(before: seq<Shard>, now: seq<Shard>, n: nat, cutoff: int64)
    requires TrimmedTo(before, now, n, cutoff) && n < |now|
    ensures |now| == |before| && now[n] == before[n]
    ensures TrimmedTo(before, now[n := FreshMem(before[n], cutoff)], n + 1, cutoff)
  {
    hide FreshMem;
  }

  lemma {:induction false} AllTrimmed(before: seq<Shard>, now: seq<Shard>, cutoff: int64)
    requires Placed(before) && TrimmedTo(before, now, NUM_SHARDS, cutoff)
    ensures Placed(now) && MemOf(now) == FreshMem(MemOf(before), cutoff)
  {
    hide FreshMem;
    TrimAll(before, now, cutoff);
  }

  lemma {:induction false} NoneExpired(mem: map<uint64, Record>, cutoff: int64)
    ensures Expired(mem, 0, cutoff) == {}
  {
  }

  lemma {:induction false} AllExpired(mem: map<uint64, Record>, cutoff: int64)
    ensures Expired(mem, NUM_SHARDS, cutoff) == mem.Keys - FreshMem(mem, cutoff).Keys
  {
    hide After;
    forall id | id in mem ensures ShardOf(id) < NUM_SHARDS {}
  }

  // ---- the hot buffer ----

  /** A series in memory that matches and has points in range. */
  ghost predicate HotHas(mem: map<uint64, Record>, filter: Labels, lower: int, to: int, id: uint64) {
    id in mem && LabelsMatch(filter, mem[id].labels) && Filter(mem[id].points, lower, to) != []
  }

  ghost function HotRecord(mem: map<uint64, Record>, lower: int, to: int, id: uint64): Record
    requires id in mem
  {
    mem[id].(points := Filter(mem[id].points, lower, to))
  }

  /** The results are exactly those of the given ids. */
  ghost predicate HotFound(
    mem: map<uint64, Record>, filter: Labels, lower: int, to: int, ids: set<uint64>, res: seq<Record>)
  {
    && (forall i, j :: 0 <= i < j < |res| ==> res[i].Key() != res[j].Key())
    && (forall rec :: rec in res ==>
          exists id :: id in ids && HotHas(mem, filter, lower, to, id) && HotRecord(mem, lower, to, id) == rec)
    && (forall id :: id in ids && HotHas(mem, filter, lower, to, id) ==> HotRecord(mem, lower, to, id) in res)
  }

  lemma {:induction false} NothingFound(mem: map<uint64, Record>, filter: Labels, lower: int, to: int)
    ensures HotFound(mem, filter, lower, to, {}, [])
  {
  }

  lemma {:induction false} FoundMore(
    mem: map<uint64, Record>, filter: Labels, lower: int, to: int, ids: set<uint64>, res: seq<Record>, id: uint64,
    universe: set<Series>)
    requires HotFound(mem, filter, lower, to, ids, res) && id !in ids && GoodMem(mem, universe)
    ensures
      var has := HotHas(mem, filter, lower, to, id);
      HotFound(mem, filter, lower, to, ids + {id}, if has then res + [HotRecord(mem, lower, to, id)] else res)
  {
    hide Filter, LabelsMatch, SeriesKey.Hash, Sorted, AllAbove;
    if HotHas(mem, filter, lower, to, id) {
      forall i | 0 <= i < |res| ensures res[i].Key() != mem[id].Key() {
        assert res[i] in res;
        var k :| k in ids && HotHas(mem, filter, lower, to, k) && HotRecord(mem, lower, to, k) == res[i];
        assert GoodEntry(k, mem[k], universe) && GoodEntry(id, mem[id], universe);
      }
    }
  }

  /** Reading memory from after the watermark reads the hot points in range. */
  lemma {:induction false} HotInRange(s: State, from: int64, to: int64, id: uint64, universe: set<Series>)
    requires GoodMem(s.mem, universe) && id in s.mem && 0 <= s.flushedUpTo
    ensures
      var lower := if s.flushedUpTo > 0 && (from == 0 || s.flushedUpTo + 1 > from) then s.flushedUpTo + 1 else from;
      Filter(s.mem[id].points, lower, to) == Filter(HotPoints(s, s.mem[id].Key()), from, to)
  {
    hide Filter, SeriesKey.Hash, After;
    assert GoodEntry(id, s.mem[id], universe);
    if s.flushedUpTo > 0 {
      FilterAfter(s.mem[id].points, s.flushedUpTo, from, to);
    }
  }

  lemma {:induction false} HotAnswer(
    s: State, metric: Str, filter: Labels, from: int64, to: int64, res: seq<Record>, ids: set<uint64>, lower: int64,
    universe: set<Series>)
    requires NoCollision(universe) && GoodMem(s.mem, universe) && SoundIndex(s.index, s.mem, universe)
    requires s.flushedUpTo >= 0 && ids == if metric in s.index then s.index[metric] else {}
    requires lower == if s.flushedUpTo > 0 && (from == 0 || s.flushedUpTo + 1 > from) then s.flushedUpTo + 1 else from
    requires HotFound(s.mem, filter, lower, to, ids, res)
    ensures Answer(res, metric, filter, HotContent(s, from, to)) && FromKeys(res, universe)
  {
    hide Filter, SeriesKey.Hash, LabelsMatch, HotPoints, NoCollision, SoundIndex, Sorted, AllAbove;
    forall rec | rec in res
      ensures AnswerEntry(rec, metric, filter, HotContent(s, from, to)) && rec.Key() in universe
    {
      var id :| id in ids && HotHas(s.mem, filter, lower, to, id) && HotRecord(s.mem, lower, to, id) == rec;
      HotInRange(s, from, to, id, universe);
      ListedMetric(s.index, s.mem, universe, metric, id);
      assert GoodEntry(id, s.mem[id], universe);
    }
    forall key: Series |
      key.metric == metric && LabelsMatch(filter, key.labels) && HotContent(s, from, to)(key) != []
      ensures Mentions(res, key)
    {
      var id := SeriesKey.Hash(key);
      InMemoryIfHot(s, key, from, to);
      HotInRange(s, from, to, id, universe);
      ListedMetric(s.index, s.mem, universe, metric, id);
      assert HotHas(s.mem, filter, lower, to, id);
    }
  }

  lemma {:induction false} InMemoryIfHot(s: State, key: Series, from: int, to: int)
    requires Filter(HotPoints(s, key), from, to) != []
    ensures SeriesKey.Hash(key) in s.mem && s.mem[SeriesKey.Hash(key)].Key() == key
  {
    hide SeriesKey.Hash;
    FilterNone([], from, to);
    AfterOfAbove([], s.flushedUpTo);
  }

  lemma {:induction false} StartSorted(mem: map<uint64, Record>, id: uint64, universe: set<Series>)
    requires GoodMem(mem, universe)
    ensures id in mem ==> Sorted(mem[id].points)
    ensures Sorted([])
  {
    hide SeriesKey.Hash;
    if id in mem {
      assert GoodEntry(id, mem[id], universe);
    }
  }
}
