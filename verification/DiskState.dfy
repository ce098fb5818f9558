/** The state that files and segments stand for, and what each operation may rely on and must
    show of the bytes that it writes. */
module DiskState {
  import opened Words
  import opened Model
  import opened Points
  import opened Names
  import opened WalFormat
  import opened Wal
  import opened Binary
  import opened ChunkFormat
  import opened EngineState
  import opened EngineLemmas
  import opened EngineInvariant
  import opened EngineSound
  import opened EngineLimits
  import opened EngineEffects
  import opened DiskContent
  import opened ChunkQuery
  import opened ChunkRewrite
  import opened FlushWriter
  import opened QueryMerge
  import SeriesKey

  type Segments = map<nat, seq<byte>>
  type Directories = map<Str, ByteFiles>

  /** The disk that files and segments stand for. */
  ghost function DiskOf(segments: Segments, chunks: Directories): Disk {
    Disk(WalContents(segments), ChunkContents(chunks))
  }

  /** Every chunk file can be read. */
  ghost predicate AllReadableIn(chunks: Directories) {
    forall m :: m in chunks ==> AllReadable(chunks[m])
  }

  /** Every directory is below the chunk directory: none is named "." or "..". */
  ghost predicate AllBelow(chunks: Directories) {
    forall m :: m in chunks ==> Join(m) == Below(m)
  }

  /** Every chunk file has a number that is read back from its name. */
  ghost predicate AllNumbered(chunks: Directories) {
    forall m, n :: m in chunks && n in chunks[m] ==> n < NUMBERS
  }

  /** Each file and segment can be read, and the state is sound and within the limits. */
  ghost predicate Whole(segments: Segments, chunks: Directories, s: State, universe: set<Series>) {
    && AllReplay(segments) && AllReadableIn(chunks) && AllBelow(chunks)
    && Sound(s, universe) && Limits(s)
  }

  /** What memory and index rely on. */
  lemma {:induction false} WholeParts(segments: Segments, chunks: Directories, s: State, universe: set<Series>)
    requires Whole(segments, chunks, s, universe)
    ensures Usable(universe) && NoCollision(universe) && GoodMem(s.mem, universe)
    ensures SoundIndex(s.index, s.mem, universe) && s.flushedUpTo >= 0
  {
    hide GoodWal, SoundChunks, GoodMem, NoCollision, SoundIndex, Limits, Storable, AllReplay, AllReadable;
  }

  // ---- open ----

  /** A directory that the program has left behind: every chunk file can be read, segments replay
      to known records or not at all, and the limits hold. */
  ghost predicate Openable(segments: Segments, chunks: Directories, universe: set<Series>) {
    && Usable(universe) && SoundChunks(ChunkContents(chunks), universe)
    && AllReadableIn(chunks) && AllBelow(chunks)
    && (forall n :: n in segments ==> GoodRecords(RecordsIn(segments[n]), universe))
    && DiskLimits(DiskOf(segments, chunks))
  }

  lemma {:induction false} OpenableParts(segments: Segments, chunks: Directories, universe: set<Series>)
    requires Openable(segments, chunks, universe)
    ensures NoCollision(universe) && forall n :: n in segments ==> GoodRecords(RecordsIn(segments[n]), universe)
    ensures forall n :: n in segments ==> 1 <= n < NUMBERS
    ensures AllReadableIn(chunks)
  {
    hide SoundChunks, RecordsIn, GoodRecords, AllReadable, NoCollision, Storable, Contents;
    assert forall n :: n in segments ==> n in DiskOf(segments, chunks).wal;
  }

  /** The segments after opening: the first one is created when there is none. */
  function Reopened(segments: Segments): Segments {
    if segments == map[] then map[1 := []] else segments
  }

  lemma {:induction false} ReopenedSegments(segments: Segments)
    requires AllReplay(segments)
    ensures AllReplay(Reopened(segments))
    ensures WalContents(Reopened(segments)) == if segments.Keys == {} then map[1 := []] else WalContents(segments)
  {
    EmptySegmentReplays();
    hide ReplayBytes, RecordsIn;
  }

  lemma {:induction false} Opened(segments: Segments, chunks: Directories, s: State, universe: set<Series>)
    requires Openable(segments, chunks, universe) && AllReplay(segments)
    requires s.disk == DiskOf(Reopened(segments), chunks)
    requires s.current == if segments == map[] then 1 else Largest(segments.Keys)
    requires IsMaxChunkTS(ChunkContents(chunks), s.flushedUpTo)
    requires
      var recs := AllRecords(WalContents(segments), Ascending(segments.Keys));
      s.mem == ReplayMem(recs) && s.index == ReplayIndex(chunks.Keys, recs)
    ensures Whole(Reopened(segments), chunks, s, universe) && Open(DiskOf(segments, chunks), s)
  {
    hide SoundChunks, RecordsIn, GoodRecords, AllReadable, Usable, Contents, DiskLimits, Sound, Limits, IsMaxChunkTS,
      ReplayMem, ReplayIndex, AllRecords, WalContents, ChunkContents, AllReplay;
    ReopenedSegments(segments);
    var disk := DiskOf(segments, chunks);
    assert segments == map[] <==> disk.wal.Keys == {};
    KnownSegments(segments, universe);
    OpenSound(disk, s, universe);
    OpenedLimits(disk, s);
  }

  /** What a valid database leaves behind can be opened. */
  lemma {:induction false} LeftOpenable(segments: Segments, chunks: Directories, s: State, universe: set<Series>)
    requires Whole(segments, chunks, s, universe) && s.disk == DiskOf(segments, chunks)
    ensures Openable(segments, chunks, universe) && AllReplay(segments)
  {
    hide Usable, SoundChunks, GoodMem, SoundIndex, GoodRecords, AllReadableIn, RecordsIn, ChunkContents, DiskLimits,
      Limits, ReplayBytes;
    LimitsDisk(s);
    forall n | n in segments ensures GoodRecords(RecordsIn(segments[n]), universe) {
      assert n in s.disk.wal;
    }
  }

  /** So can an empty directory. */
  lemma {:induction false} NothingOpenable(universe: set<Series>)
    requires Usable(universe)
    ensures Openable(map[], map[], universe) && AllReplay(map[]) && DiskOf(map[], map[]) == Disk(map[], map[])
  {
    hide Usable;
    forall key: Series
      ensures |ColdPoints(DirOf(map[], key.metric), key.labels)| + |PointsOf(LastRecords(Disk(map[], map[])), key)| == 0
    {
      ColdNone(key.labels);
      PointsOfNone(key);
    }
    assert DiskOf(map[], map[]) == Disk(map[], map[]);
  }

  lemma {:induction false} KnownSegments(segments: Segments, universe: set<Series>)
    requires forall n :: n in segments ==> GoodRecords(RecordsIn(segments[n]), universe)
    ensures forall n :: n in WalContents(segments) ==> GoodRecords(WalContents(segments)[n], universe)
  {
    hide RecordsIn, GoodRecords;
  }

  /** The first i segments replay. */
  ghost predicate ReplaysTo(segments: Segments, order: seq<nat>, i: nat)
    requires i <= |order| && forall n :: n in order ==> n in segments
  {
    forall j :: 0 <= j < i ==> ReplayBytes(segments[order[j]]).Ok?
  }

  lemma {:induction false} ReplaysNone(segments: Segments, order: seq<nat>)
    requires forall n :: n in order ==> n in segments
    ensures ReplaysTo(segments, order, 0)
  {
  }

  lemma {:induction false} ReplaysMore(segments: Segments, order: seq<nat>, i: nat)
    requires i < |order| && (forall n :: n in order ==> n in segments) && ReplaysTo(segments, order, i)
    ensures ReplayBytes(segments[order[i]]).Ok? ==>
              && ReplaysTo(segments, order, i + 1)
              && WalContents(segments)[order[i]] == ReplayBytes(segments[order[i]]).value
    ensures ReplayBytes(segments[order[i]]).Err? ==> !AllReplay(segments)
  {
    hide ReplayBytes;
    assert order[i] in order;
  }

  lemma {:induction false} ReplaysAll(segments: Segments, order: seq<nat>)
    requires (forall n :: n in order <==> n in segments) && ReplaysTo(segments, order, |order|)
    ensures AllReplay(segments)
  {
    hide ReplayBytes;
    forall n | n in segments ensures ReplayBytes(segments[n]).Ok? {
      assert n in order;
    }
  }

  // ---- push ----

  /** The lengths of a good record fit their fields in the log. */
  lemma {:induction false} GoodLoggable(rec: Record, universe: set<Series>)
    requires Usable(universe) && GoodRecord(rec, universe)
    ensures Loggable(rec)
  {
    hide NoCollision, SeriesKey.BlockBytes, ShortLabels;
    assert Storable(rec.Key());
  }

  lemma {:induction false} Pushed(
    segments: Segments, chunks: Directories, s: State, rec: Record, segments': Segments, s': State,
    universe: set<Series>)
    requires Whole(segments, chunks, s, universe) && s.disk == DiskOf(segments, chunks) && s.current in segments
    requires GoodRecord(rec, universe) && HasRoom(s, rec)
    requires AllReplay(segments) && Loggable(rec) ==>
               && AllReplay(segments')
               && WalContents(segments') == WalContents(segments)[s.current := RecordsIn(segments[s.current]) + [rec]]
    requires s' == s.(disk := DiskOf(segments', chunks), mem := ApplyRecord(s.mem, rec),
                      index := IndexRecord(s.index, s.mem, rec))
    ensures Whole(segments', chunks, s', universe) && s' == Push(s, rec)
  {
    hide Sound, Limits, GoodRecord, HasRoom, ApplyRecord, IndexRecord, RecordsIn, ChunkContents, AllReadable, Loggable,
      AllReplay;
    assert Usable(universe) by { WholeParts(segments, chunks, s, universe); }
    GoodLoggable(rec, universe);
    PushSound(s, rec, universe);
    PushLimits(s, rec);
  }

  // ---- flush ----

  /** The segments after a flush: the sealed one is gone and the next one is open. */
  function SegmentsAfter(segments: Segments, sealed: nat): Segments {
    segments[sealed + 1 := []] - {sealed}
  }

  /** What a flush relies on: not the chunk files, whose numbers alone it reads. */
  ghost predicate Flushable(
    segments: Segments, current: nat, chunks: Directories, mem: map<uint64, Record>, universe: set<Series>)
  {
    && current in segments && Usable(universe) && GoodMem(mem, universe) && AllNumbered(chunks)
    && GoodRecords(RecordsIn(segments[current]), universe) && FewPoints(RecordsIn(segments[current]))
  }

  lemma {:induction false} WholeFlushable(segments: Segments, chunks: Directories, s: State, universe: set<Series>)
    requires Whole(segments, chunks, s, universe) && s.disk == DiskOf(segments, chunks)
    ensures Flushable(segments, s.current, chunks, s.mem, universe) && ReplayBytes(segments[s.current]).Ok?
    ensures AllReadableIn(chunks)
  {
    hide NoCollision, Storable, GoodRecords, GoodMem, SoundChunks, SoundIndex, ColdPoints, PointsOf, AllReadable,
      ReplayBytes, Contents;
    assert s.Segment() == RecordsIn(segments[s.current]);
    forall key ensures |PointsOf(s.Segment(), key)| <= MAX_POINTS {
      assert Load(s, key) <= MAX_POINTS;
    }
    forall m, n | m in chunks && n in chunks[m] ensures n < NUMBERS {
      assert m in s.disk.chunks && n in s.disk.chunks[m];
    }
  }

  lemma {:induction false} SegmentsFlushed(segments: Segments, sealed: nat)
    requires sealed in segments
    ensures WalContents(SegmentsAfter(segments, sealed)) == Rotated(WalContents(segments), sealed)
    ensures AllReplay(segments) ==> AllReplay(SegmentsAfter(segments, sealed))
  {
    hide AllReplay, WalContents, ReplayBytes;
    EmptySegmentReplays();
    SegmentsPut(segments, sealed + 1, []);
    SegmentsLess(segments[sealed + 1 := []], sealed);
  }

  lemma {:induction false} SealedRecords(segments: Segments, chunks: Directories, s: State)
    requires s.disk == DiskOf(segments, chunks) && s.current in segments && ReplayBytes(segments[s.current]).Ok?
    ensures ReplayBytes(segments[s.current]) == Ok(s.Segment()) && RecordsIn(segments[s.current]) == s.Segment()
  {
    hide ReplayBytes, ChunkContents;
  }

  lemma {:induction false} FlushedNothing(segments: Segments, chunks: Directories, s: State, s': State)
    requires s.disk == DiskOf(segments, chunks) && s.Segment() == [] && s.current in segments
    requires s' == s.(disk := DiskOf(SegmentsAfter(segments, s.current), chunks), current := s.current + 1)
    ensures Flush(s, s')
  {
    hide Rotated, AllReplay, WalContents, ChunkContents, SegmentsAfter;
    SegmentsFlushed(segments, s.current);
  }

  lemma {:induction false} Flushed(
    segments: Segments, chunks: Directories, s: State, chunks': Directories, s': State, t: int64)
    requires s.disk == DiskOf(segments, chunks)
    requires s'.disk == DiskOf(SegmentsAfter(segments, s.current), chunks') && s'.current == s.current + 1
    requires s'.index == s.index && s.current in segments && s.Segment() != []
    requires ChunksWritten(ChunkContents(chunks), s.Segment(), ChunkContents(chunks'))
    requires IsMaxTS(s.Segment(), t)
    requires s'.flushedUpTo == if t > 0 then t else s.flushedUpTo
    requires s'.mem == if t > 0 then Evict(s.mem, t) else s.mem
    ensures Flush(s, s')
  {
    hide ChunksWritten, IsMaxTS, Rotated, AllReplay, WalContents, ChunkContents, SegmentsAfter, Evict;
    SegmentsFlushed(segments, s.current);
    assert Watermark(s, t, s');
  }

  /** A flush of a valid state leaves a valid state. */
  lemma {:induction false} FlushWhole(
    segments: Segments, chunks: Directories, s: State, chunks': Directories, s': State, universe: set<Series>)
    requires Whole(segments, chunks, s, universe) && CanNumber(s) && s.disk == DiskOf(segments, chunks)
    requires s'.disk == DiskOf(SegmentsAfter(segments, s.current), chunks') && Flush(s, s')
    requires s.current in segments && AllReadableIn(chunks')
    ensures Whole(SegmentsAfter(segments, s.current), chunks', s', universe)
  {
    hide Limits, CanNumber, Flush, AllReplay, AllReadableIn, WalContents, SegmentsAfter, GoodMem, SoundChunks,
      SoundIndex, GoodRecords, Usable, Contents;
    SegmentsFlushed(segments, s.current);
    FlushSound(s, s', universe);
    FlushLimits(s, s');
    NewBelow(s, s', universe);
  }

  lemma {:induction false} NewBelow(s: State, s': State, universe: set<Series>)
    requires Usable(universe) && GoodWal(s.disk.wal, s.current, universe) && Flush(s, s')
    requires forall m :: m in s.disk.chunks ==> Join(m) == Below(m)
    ensures forall m :: m in s'.disk.chunks ==> Join(m) == Below(m)
  {
    hide IsMaxTS, Watermark, AddedFile, SanitizeMetric, Rotated, Join, NoCollision;
    forall m | m in s'.disk.chunks ensures Join(m) == Below(m) {
      if m !in s.disk.chunks {
        var rec :| rec in s.Segment() && rec.metric == m;
        assert GoodRecord(rec, universe);
        OwnBelow(rec.Key());
      }
    }
  }

  lemma {:induction false} OwnBelow(key: Series)
    requires Storable(key)
    ensures Join(key.metric) == Below(key.metric)
  {
    OwnDirectory(key.metric);
  }

  // ---- compaction ----

  /** Every directory of a valid state can be compacted. */
  lemma {:induction false} DirsMergeable(segments: Segments, chunks: Directories, s: State, universe: set<Series>)
    requires Whole(segments, chunks, s, universe) && s.disk == DiskOf(segments, chunks)
    ensures Usable(universe) && forall m :: m in chunks ==> Mergeable(chunks[m], m, universe)
    ensures AllReadableIn(chunks)
  {
    hide Usable, GoodFile, GoodWal, GoodMem, SoundIndex, Content, Readable, ColdPoints, PointsOf, AllReplay;
    forall m | m in chunks ensures Mergeable(chunks[m], m, universe) {
      var files := Contents(chunks[m]);
      assert s.Dir(m) == files && SoundFiles(files, m, universe);
      forall labels ensures |ColdPoints(files, labels)| <= MAX_POINTS {
        assert Load(s, Series(m, labels)) <= MAX_POINTS;
      }
    }
  }

  lemma {:induction false} Compacted(
    segments: Segments, chunks: Directories, s: State, chunks': Directories, threshold: int, s': State,
    universe: set<Series>)
    requires Whole(segments, chunks, s, universe) && CanNumber(s) && s.disk == DiskOf(segments, chunks)
    requires chunks'.Keys == chunks.Keys && forall m :: m in chunks ==> CompactedBytes(chunks[m], threshold, chunks'[m])
    requires s' == s.(disk := DiskOf(segments, chunks'))
    ensures Compact(s, threshold, s') && Whole(segments, chunks', s', universe)
  {
    hide Sound, Limits, CanNumber, AllReadable, CompactedDir, Contents, AllReplay, WalContents;
    CompactSound(s, threshold, s', universe);
    CompactLimits(s, threshold, s');
  }

  // ---- drop ----

  lemma {:induction false} DirStored(
    segments: Segments, chunks: Directories, s: State, dir: Str, universe: set<Series>)
    requires Whole(segments, chunks, s, universe) && s.disk == DiskOf(segments, chunks)
    ensures Usable(universe) && StoredBytes(ByteDir(chunks, dir), dir, universe)
    ensures AllReadable(ByteDir(chunks, dir)) && Contents(ByteDir(chunks, dir)) == s.Dir(dir)
  {
    hide Usable, SoundChunks, GoodWal, GoodMem, SoundIndex, Content, Readable, Room, StoredFile, AllReplay;
    var files := ByteDir(chunks, dir);
    ContentsDir(chunks, dir);
    forall n | n in files && Readable(files[n]) ensures StoredFile(Content(files[n]), dir, universe) {
      FileStored(s, dir, n, universe);
    }
  }

  /** The ids of the series in memory that a drop evicts. */
  ghost function MatchingIds(mem: map<uint64, Record>, metric: Str, filter: Labels): set<uint64> {
    set id | id in mem && Matches(mem[id], metric, filter)
  }

  lemma {:induction false} MatchesFound(s: State, dir: Str, metric: Str, filter: Labels)
    ensures AnyMatch(s, dir, metric, filter)
       <==> AnyLoses(s.Dir(dir), filter) || MatchingIds(s.mem, metric, filter) != {}
  {
    hide LabelsMatch;
    if id :| id in s.mem && Matches(s.mem[id], metric, filter) {
      assert id in MatchingIds(s.mem, metric, filter);
    }
    if id :| id in MatchingIds(s.mem, metric, filter) {
      assert Matches(s.mem[id], metric, filter);
    }
  }

  lemma {:induction false} Dropped(
    segments: Segments, chunks: Directories, s: State, dir: Str, metric: Str, filter: Labels, chunks': Directories,
    s': State, universe: set<Series>)
    requires Whole(segments, chunks, s, universe) && s.disk == DiskOf(segments, chunks)
    requires DroppedDir(ChunkContents(chunks), dir, filter, ChunkContents(chunks'))
    requires AllReadableIn(chunks) ==> AllReadableIn(chunks')
    requires s'.disk == DiskOf(segments, chunks') && s'.current == s.current && s'.flushedUpTo == s.flushedUpTo
    requires s'.mem == EvictMatching(s.mem, metric, filter)
    requires
      var index := IndexRemove(s.index, metric, MatchingIds(s.mem, metric, filter));
      s'.index == if dir in chunks' then index else index - {metric}
    ensures DropAfterFlush(s, dir, metric, filter, s')
    ensures dir in chunks' || !InMemory(s'.mem, metric) ==> Whole(segments, chunks', s', universe)
  {
    hide Sound, Limits, DroppedDir, EvictMatching, IndexRemove, InMemory, LabelsMatch, AllReadable, AllReplay, Contents,
      WalContents;
    DropAfterFlushLimits(s, dir, metric, filter, s');
    if dir in chunks' || !InMemory(s'.mem, metric) {
      DropAfterFlushSound(s, dir, metric, filter, s', universe);
      FewerBelow(chunks, dir, filter, chunks');
    }
  }

  lemma {:induction false} FewerBelow(chunks: Directories, dir: Str, filter: Labels, chunks': Directories)
    requires AllBelow(chunks) && DroppedDir(ChunkContents(chunks), dir, filter, ChunkContents(chunks'))
    ensures AllBelow(chunks')
  {
    hide DroppedFiles, Contents;
    forall m | m in chunks' ensures Join(m) == Below(m) {
      assert m in ChunkContents(chunks');
    }
  }

  /** No series in memory belongs to a metric whose name leads elsewhere. */
  lemma {:induction false} NoneElsewhere(s: State, metric: Str, filter: Labels, universe: set<Series>)
    requires GoodMem(s.mem, universe) && Usable(universe) && !Join(SanitizeMetric(metric)).Below?
    ensures MatchingIds(s.mem, metric, filter) == {} && EvictMatching(s.mem, metric, filter) == s.mem
    ensures IndexRemove(s.index, metric, {}) == s.index && !InMemory(s.mem, metric)
  {
    hide SanitizeMetric, LabelsMatch, Join, Usable, GoodEntry;
    forall id | id in s.mem ensures s.mem[id].metric != metric {
      assert GoodEntry(id, s.mem[id], universe);
      KnownOwn(id, s.mem[id], universe);
    }
    assert MatchingIds(s.mem, metric, filter) == {};
  }

  lemma {:induction false} KnownOwn(id: uint64, rec: Record, universe: set<Series>)
    requires GoodEntry(id, rec, universe) && Usable(universe)
    ensures OwnName(rec.metric)
  {
    hide SanitizeMetric, SeriesKey.Hash, Sorted, AllAbove, Join, NoCollision;
    assert Storable(rec.Key());
  }

  /** A metric without series in memory may be taken off the index. */
  lemma {:induction false} UnlistedWhole(
    segments: Segments, chunks: Directories, s: State, metric: Str, universe: set<Series>)
    requires Whole(segments, chunks, s, universe) && !InMemory(s.mem, metric)
    ensures Whole(segments, chunks, s.(index := s.index - {metric}), universe)
  {
    hide GoodWal, SoundChunks, GoodMem, Usable, AllReplay, AllReadableIn, AllBelow, Room, Numbered, FromUniverse;
    var s' := s.(index := s.index - {metric});
    SameRoom(s, s');
  }

  lemma {:induction false} SameRoom(s: State, s': State)
    requires Room(s) && s'.disk == s.disk && s'.current == s.current
    ensures Room(s')
  {
    hide ColdPoints, PointsOf;
    forall key ensures Load(s', key) <= MAX_POINTS {
      assert Load(s', key) == Load(s, key);
    }
  }

  // ---- retention ----

  lemma {:induction false} Trimmed(
    segments: Segments, chunks: Directories, s: State, cutoff: int64, chunks': Directories, s': State,
    universe: set<Series>)
    requires Whole(segments, chunks, s, universe) && s.disk == DiskOf(segments, chunks)
    requires
      var was := ChunkContents(chunks);
      ChunkContents(chunks') == map m | m in was :: FreshFiles(was[m], cutoff)
    requires AllReadableIn(chunks')
    requires s' == s.(disk := DiskOf(segments, chunks'), mem := FreshMem(s.mem, cutoff), index := FreshIndex(s, cutoff))
    ensures Retain(s, cutoff, s') && Whole(segments, chunks', s', universe)
  {
    hide SoundIndex, GoodWal, SoundChunks, GoodMem, Limits, FreshFiles, FreshMem, FreshIndex, AllReadable, AllReplay,
      WalContents, ChunkContents, Usable;
    RetainSound(s, cutoff, s', universe);
    RetainLimits(s, cutoff, s', universe);
  }

  /** What retention leaves, said of the points. */
  lemma {:induction false} RetentionLeaves(
    segments: Segments, chunks: Directories, s: State, cutoff: int64, s': State, universe: set<Series>)
    requires Whole(segments, chunks, s, universe) && s.disk == DiskOf(segments, chunks) && Retain(s, cutoff, s')
    ensures forall m, n :: m in chunks && n in chunks[m] ==>
              (Content(chunks[m][n]).maxTS >= cutoff
               <==> exists d, p :: d in Content(chunks[m][n]).series && p in d.points && p.ts >= cutoff)
    ensures forall id :: id in s'.mem <==> id in s.mem && exists p :: p in s.mem[id].points && p.ts >= cutoff
    ensures forall id :: id in s'.mem ==>
              s'.mem[id].Key() == s.mem[id].Key() && From(s.mem[id].points, s'.mem[id].points, cutoff)
    ensures forall name: Str :: AllBefore(s, name, cutoff) ==> ShowsNothing(s', name)
    ensures StillListed(s, s')
  {
    hide Purged, StillListed, Content, SeriesKey.Hash, AllAbove, AllBefore, ShowsNothing, GoodMem, FreshMem, FreshFiles,
      FreshIndex, From, Limits, GoodWal, SoundIndex, Usable, AllReplay, AllReadableIn, GoodSeries, Distinct, RangeIs,
      Sorted, WalContents;
    forall m, n | m in chunks && n in chunks[m]
      ensures GoodFile(Content(chunks[m][n]), m, universe)
      ensures Content(chunks[m][n]).maxTS >= cutoff
         <==> exists d, p :: d in Content(chunks[m][n]).series && p in d.points && p.ts >= cutoff
    {
      assert SoundFiles(s.disk.chunks[m], m, universe) && n in s.disk.chunks[m];
      NewestInFile(Content(chunks[m][n]), cutoff);
    }
    forall id | id in s.mem ensures Sorted(s.mem[id].points) {
      assert GoodEntry(id, s.mem[id], universe) by { EntryGood(s.mem, id, universe); }
    }
    TrimExactly(s.mem, cutoff);
    RetainedIndex(s, cutoff, s');
    forall name: Str | AllBefore(s, name, cutoff) ensures ShowsNothing(s', name) {
      RetainClears(s, cutoff, s', universe, name);
    }
  }

  /** An id stays listed unless it was that of a series of the metric which memory has lost, and a
      metric unless it had such an id and has no other. */
  ghost predicate StillListed(s: State, s': State) {
    && (forall m, id :: Listed(s'.index, m, id)
                   <==> Listed(s.index, m, id) && !(id in s.mem && id !in s'.mem && s.mem[id].metric == m))
    && (forall m :: m in s'.index
                <==> m in s.index && ((exists id :: Listed(s'.index, m, id))
                                      || forall id :: id in s.mem && id !in s'.mem ==> s.mem[id].metric != m))
  }

  lemma {:induction false} RetainedIndex(s: State, cutoff: int64, s': State)
    requires Retain(s, cutoff, s')
    ensures StillListed(s, s')
  {
    hide FreshMem, FreshFiles, Purged, Listed;
    assert forall id :: id in s'.mem ==> id in s.mem by { FreshMemPart(s.mem, cutoff); }
    PurgeExactly(s.index, s.mem, s.mem.Keys - s'.mem.Keys);
  }

  lemma {:induction false} FreshMemPart(mem: map<uint64, Record>, cutoff: int64)
    ensures forall id :: id in FreshMem(mem, cutoff) ==> id in mem
  {
  }

  lemma {:induction false} EntryGood(mem: map<uint64, Record>, id: uint64, universe: set<Series>)
    requires GoodMem(mem, universe) && id in mem
    ensures GoodEntry(id, mem[id], universe)
  {
    hide GoodEntry;
  }

  // ---- query ----

  /** What a query for a metric relies on, by whatever name. */
  lemma {:induction false} DirAsked(
    segments: Segments, chunks: Directories, s: State, metric: Str, from: int, to: int, universe: set<Series>)
    requires Whole(segments, chunks, s, universe) && s.disk == DiskOf(segments, chunks)
    ensures
      var dir := SanitizeMetric(metric);
      && GoodBytes(ByteDir(chunks, dir), metric, Asked(universe, metric))
      && SoundFiles(s.Dir(dir), metric, Asked(universe, metric))
      && Contents(ByteDir(chunks, dir)) == s.Dir(dir)
      && forall n :: n in ByteDir(chunks, dir) ==> n < NUMBERS && !Blocks(ByteDir(chunks, dir)[n], from, to)
  {
    hide Usable, GoodFile, GoodWal, GoodMem, SoundIndex, Content, ReadBytes, RangeBytes, SanitizeMetric, Asked, Room,
      AllReplay;
    var dir := SanitizeMetric(metric);
    var files := ByteDir(chunks, dir);
    ContentsDir(chunks, dir);
    forall n | n in files
      ensures GoodFile(Content(files[n]), metric, Asked(universe, metric)) && n < NUMBERS && !Blocks(files[n], from, to)
    {
      assert SoundFiles(s.disk.chunks[dir], dir, universe);
      assert n in s.disk.chunks[dir];
      AskedFile(Content(files[n]), metric, universe);
      assert Readable(files[n]);
    }
  }

  lemma {:induction false} MoreKeys(results: seq<Record>, universe: set<Series>, metric: Str)
    requires FromKeys(results, universe)
    ensures FromKeys(results, Asked(universe, metric))
  {
    hide SanitizeMetric;
  }
}
