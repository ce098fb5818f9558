/** What must not overflow: the points of a series in one file, and the numbers of files and
    segments. While it does not, every file and segment reads back from its bytes. */
module EngineLimits {
  import opened Words
  import opened Model
  import opened Points
  import opened Names
  import opened EngineState
  import opened EngineLemmas
  import opened EngineInvariant
  import opened EngineSteps
  import opened EngineMaintenance
  import opened EngineSound
  import opened DiskContent
  import ChunkFormat

  /** How many points of a series the files of its directory and the open segment hold. */
  ghost function Load(s: State, key: Series): nat {
    |ColdPoints(s.Dir(key.metric), key.labels)| + |PointsOf(s.Segment(), key)|
  }

  /** The series of a record has room for its points. */
  ghost predicate HasRoom(s: State, rec: Record) {
    Load(s, rec.Key()) + |rec.points| <= MAX_POINTS
  }

  /** There is a number left for the next segment and for the next file of every directory. */
  ghost predicate CanNumber(s: State) {
    && s.current + 1 < NUMBERS
    && forall m, n :: m in s.disk.chunks && n in s.disk.chunks[m] ==> n + 1 < NUMBERS
  }

  ghost predicate Room(s: State) {
    forall key :: Load(s, key) <= MAX_POINTS
  }

  ghost predicate Numbered(disk: Disk) {
    && (forall n :: n in disk.wal ==> 1 <= n < NUMBERS)
    && forall m, n :: m in disk.chunks && n in disk.chunks[m] ==> 1 <= n < NUMBERS
  }

  ghost predicate Limits(s: State) {
    s.current in s.disk.wal && Room(s) && Numbered(s.disk)
  }

  // ---- steps ----

  lemma {:induction false} PushLimits(s: State, rec: Record)
    requires Limits(s) && HasRoom(s, rec)
    ensures Limits(Push(s, rec))
  {
    hide ColdPoints, PointsOf, ApplyRecord, IndexRecord;
    var s' := Push(s, rec);
    forall key ensures Load(s', key) <= MAX_POINTS {
      PointsOfPush(s.Segment(), rec, key);
      assert Load(s, key) <= MAX_POINTS;
    }
  }

  lemma {:induction false} WrittenLoad(
    chunks: map<Str, Files>, recs: seq<Record>, chunks': map<Str, Files>, key: Series)
    requires ChunksWritten(chunks, recs, chunks')
    ensures |ColdPoints(DirOf(chunks', key.metric), key.labels)|
         == |ColdPoints(DirOf(chunks, key.metric), key.labels)| + |PointsOf(recs, key)|
  {
    hide ColdPoints, PointsOf, InsertAll, ChunksWritten;
    WrittenCold(chunks, recs, chunks', key);
    NoneSorted();
    InsertAllKeepsOrder([], PointsOf(recs, key));
    SameSize(InsertAll([], PointsOf(recs, key)), PointsOf(recs, key));
  }

  lemma {:induction false} SameSize(ps: seq<Point>, qs: seq<Point>)
    requires multiset(ps) <= multiset(qs)
    ensures |ps| <= |qs| && (multiset(ps) == multiset(qs) ==> |ps| == |qs|)
  {
    assert |multiset(ps)| == |ps| && |multiset(qs)| == |qs|;
    assert multiset(qs) == multiset(ps) + (multiset(qs) - multiset(ps));
  }

  /** All files are numbered from 1 to `most`. */
  ghost predicate NumbersUpTo(chunks: map<Str, Files>, most: nat) {
    forall m, n :: m in chunks && n in chunks[m] ==> 1 <= n <= most
  }

  lemma {:induction false} WrittenNumbers(
    chunks: map<Str, Files>, recs: seq<Record>, chunks': map<Str, Files>, most: nat)
    requires ChunksWritten(chunks, recs, chunks') && NumbersUpTo(chunks, most)
    ensures NumbersUpTo(chunks', most + 1)
  {
    hide FlushFile;
    forall m, n | m in chunks' && n in chunks'[m] ensures 1 <= n <= most + 1 {
      if HasMetric(recs, m) {
        NextNumberBound(DirOf(chunks, m), most);
      }
    }
  }

  lemma {:induction false} NextNumberBound(files: Files, most: nat)
    requires forall n :: n in files ==> n <= most
    ensures 1 <= NextNumber(files) <= most + 1
  {
  }

  lemma {:induction false} CompactedNumbers(s: State, threshold: int, s': State, most: nat)
    requires Compact(s, threshold, s') && NumbersUpTo(s.disk.chunks, most)
    ensures NumbersUpTo(s'.disk.chunks, most + 1)
  {
    hide MergedFile;
    forall m, n | m in s'.disk.chunks && n in s'.disk.chunks[m] ensures 1 <= n <= most + 1 {
      assert CompactedDir(s.disk.chunks[m], threshold, s'.disk.chunks[m]);
      NextNumberBound(s.disk.chunks[m], most);
    }
  }

  lemma {:induction false} FlushLoad(s: State, s': State, key: Series)
    requires s.current in s.disk.wal && Flush(s, s')
    ensures Load(s', key) == Load(s, key)
  {
    hide ColdPoints, PointsOf, ChunksWritten, Watermark, IsMaxTS;
    assert s'.Segment() == [];
    PointsOfNone(key);
    if s.Segment() != [] {
      WrittenLoad(s.disk.chunks, s.Segment(), s'.disk.chunks, key);
    }
  }

  lemma {:induction false} FlushLimits(s: State, s': State)
    requires Limits(s) && CanNumber(s) && Flush(s, s')
    ensures Limits(s')
  {
    hide Load, ChunksWritten, Watermark, IsMaxTS;
    if s.Segment() != [] {
      WrittenNumbers(s.disk.chunks, s.Segment(), s'.disk.chunks, NUMBERS - 2);
    }
    forall key ensures Load(s', key) <= MAX_POINTS {
      FlushLoad(s, s', key);
    }
  }

  lemma {:induction false} CompactLoad(s: State, threshold: int, s': State, key: Series)
    requires Compact(s, threshold, s')
    ensures Load(s', key) == Load(s, key)
  {
    hide ColdPoints, PointsOf, CompactedDir;
    var m := key.metric;
    assert m in s'.disk.chunks <==> m in s.disk.chunks;
    if m in s.disk.chunks {
      CompactedCold(s.disk.chunks[m], threshold, s'.disk.chunks[m], key.labels);
      SameSize(ColdPoints(s'.Dir(m), key.labels), ColdPoints(s.Dir(m), key.labels));
    }
  }

  lemma {:induction false} CompactLimits(s: State, threshold: int, s': State)
    requires Limits(s) && CanNumber(s) && Compact(s, threshold, s')
    ensures Limits(s')
  {
    hide Load, CompactedDir;
    forall key ensures Load(s', key) <= MAX_POINTS {
      CompactLoad(s, threshold, s', key);
    }
    CompactedNumbers(s, threshold, s', NUMBERS - 2);
  }

  lemma {:induction false} DropAfterFlushLoad(
    mid: State, dir: Str, metric: Str, filter: Labels, s': State, key: Series)
    requires DropAfterFlush(mid, dir, metric, filter, s')
    ensures Load(s', key) <= Load(mid, key)
  {
    hide ColdPoints, PointsOf, KeptFile, Keep, LabelsMatch, DroppedIndex, EvictMatching;
    DroppedColdDir(mid.disk.chunks, dir, filter, s'.disk.chunks, key);
  }

  lemma {:induction false} DropAfterFlushLimits(mid: State, dir: Str, metric: Str, filter: Labels, s': State)
    requires Limits(mid) && DropAfterFlush(mid, dir, metric, filter, s')
    ensures Limits(s')
  {
    hide Load, KeptFile, Keep, LabelsMatch, DroppedIndex, EvictMatching;
    forall key ensures Load(s', key) <= MAX_POINTS {
      DropAfterFlushLoad(mid, dir, metric, filter, s', key);
      assert Load(mid, key) <= MAX_POINTS;
    }
  }

  lemma {:induction false} DropLimits(
    s: State, dir: Str, metric: Str, filter: Labels, s': State, dropped: bool)
    requires Limits(s) && CanNumber(s) && Drop(s, dir, metric, filter, s', dropped)
    ensures Limits(s')
  {
    hide Limits, CanNumber, Flush, DropAfterFlush, AnyMatch;
    if s' != s {
      var mid :| Flush(s, mid) && DropAfterFlush(mid, dir, metric, filter, s')
        && (dropped <==> AnyMatch(mid, dir, metric, filter));
      FlushLimits(s, mid);
      DropAfterFlushLimits(mid, dir, metric, filter, s');
    }
  }

  lemma {:induction false} RetainLimits(s: State, cutoff: int64, s': State, universe: set<Series>)
    requires Limits(s) && SoundChunks(s.disk.chunks, universe) && Retain(s, cutoff, s')
    ensures Limits(s')
  {
    hide ColdPoints, PointsOf, GoodFile, FreshMem, FreshIndex;
    forall key ensures Load(s', key) <= MAX_POINTS {
      FreshCold(s.disk.chunks, cutoff, universe, key);
      assert Load(s, key) <= MAX_POINTS;
      assert multiset(ColdPoints(s'.Dir(key.metric), key.labels))
          <= multiset(ColdPoints(s.Dir(key.metric), key.labels));
      SameSize(ColdPoints(s'.Dir(key.metric), key.labels), ColdPoints(s.Dir(key.metric), key.labels));
    }
  }

  /** The records of the segment that opening reopens. */
  ghost function LastRecords(disk: Disk): seq<Record> {
    if disk.wal.Keys == {} then [] else disk.wal[Largest(disk.wal.Keys)]
  }

  /** The disk of a state within the limits. */
  ghost predicate DiskLimits(disk: Disk) {
    && Numbered(disk)
    && forall key: Series ::
         |ColdPoints(DirOf(disk.chunks, key.metric), key.labels)| + |PointsOf(LastRecords(disk), key)| <= MAX_POINTS
  }

  lemma {:induction false} OpenedLimits(disk: Disk, s: State)
    requires DiskLimits(disk) && Open(disk, s)
    ensures Limits(s)
  {
    hide ColdPoints, PointsOf, AllRecords, ReplayMem, ReplayIndex, IsMaxChunkTS;
    assert s.Segment() == LastRecords(disk);
    forall key ensures Load(s, key) <= MAX_POINTS {
      assert |ColdPoints(DirOf(disk.chunks, key.metric), key.labels)| + |PointsOf(LastRecords(disk), key)|
          <= MAX_POINTS;
    }
  }

  lemma {:induction false} LimitsDisk(s: State)
    requires Limits(s) && forall n :: n in s.disk.wal ==> n <= s.current
    ensures DiskLimits(s.disk) && Largest(s.disk.wal.Keys) == s.current
  {
    hide ColdPoints, PointsOf;
    forall key: Series
      ensures |ColdPoints(DirOf(s.disk.chunks, key.metric), key.labels)| + |PointsOf(LastRecords(s.disk), key)|
           <= MAX_POINTS
    {
      assert Load(s, key) <= MAX_POINTS;
    }
  }

  /** Opening reopens the last segment, so that it keeps the limits of the disk. */
  lemma {:induction false} OpenLimits(s: State, s': State)
    requires Limits(s) && Open(s.disk, s') && forall n :: n in s.disk.wal ==> n <= s.current
    ensures Limits(s') && s'.current == s.current
  {
    hide Limits, DiskLimits, AllRecords, ReplayMem, ReplayIndex, IsMaxChunkTS;
    LimitsDisk(s);
    OpenedLimits(s.disk, s');
    assert s.current in s.disk.wal by { CurrentThere(s); }
  }

  lemma {:induction false} CurrentThere(s: State)
    requires Limits(s)
    ensures s.current in s.disk.wal
  {
    hide Room, Numbered;
  }

  /** The segments of a disk with a last one. */
  lemma {:induction false} LastIs(disk: Disk, n: nat)
    requires n in disk.wal && forall k :: k in disk.wal ==> k <= n
    ensures LastRecords(disk) == disk.wal[n]
  {
    assert Largest(disk.wal.Keys) == n;
  }

  lemma {:induction false} CrashLimits(s: State, s': State)
    requires Limits(s) && CanNumber(s) && CrashInFlush(s, s') && forall n :: n in s.disk.wal ==> n <= s.current
    ensures Limits(s')
  {
    hide ColdPoints, PointsOf, Open, ChunksWritten, LastRecords;
    var chunks' :| ChunksWritten(s.disk.chunks, s.Segment(), chunks')
      && Open(Disk(s.disk.wal[s.current + 1 := []], chunks'), s');
    var disk := Disk(s.disk.wal[s.current + 1 := []], chunks');
    LastIs(disk, s.current + 1);
    WrittenNumbers(s.disk.chunks, s.Segment(), chunks', NUMBERS - 2);
    forall key: Series
      ensures |ColdPoints(DirOf(chunks', key.metric), key.labels)| + |PointsOf(LastRecords(disk), key)| <= MAX_POINTS
    {
      PointsOfNone(key);
      assert Load(s, key) <= MAX_POINTS;
      WrittenLoad(s.disk.chunks, s.Segment(), chunks', key);
    }
    OpenedLimits(disk, s');
  }

  lemma {:induction false} LoseLimits(s: State, lost: seq<Record>, s': State)
    requires Limits(s) && LoseTail(s, lost, s') && forall n :: n in s.disk.wal ==> n <= s.current
    ensures Limits(s')
  {
    hide ColdPoints, PointsOf, Open, LastRecords;
    var kept :| s.Segment() == kept + lost && Open(Disk(s.disk.wal[s.current := kept], s.disk.chunks), s');
    var disk := Disk(s.disk.wal[s.current := kept], s.disk.chunks);
    LastIs(disk, s.current);
    forall key: Series
      ensures |ColdPoints(DirOf(disk.chunks, key.metric), key.labels)| + |PointsOf(LastRecords(disk), key)| <= MAX_POINTS
    {
      PointsOfConcat(kept, lost, key);
      assert Load(s, key) <= MAX_POINTS;
    }
    OpenedLimits(disk, s');
  }

  // ---- what is on disk ----

  /** A file of a sound state within the limits is one that the format can hold. */
  lemma {:induction false} FileStored(s: State, m: Str, n: nat, universe: set<Series>)
    requires SoundChunks(s.disk.chunks, universe) && Room(s) && m in s.disk.chunks && n in s.disk.chunks[m]
    ensures StoredFile(s.disk.chunks[m][n], m, universe)
  {
    hide RangeIs, ColdPoints, PointsOf;
    var files := s.disk.chunks[m];
    assert SoundFiles(files, m, universe);
    forall d | d in files[n].series ensures d.points != [] && |d.points| <= MAX_POINTS {
      assert GoodSeries(d);
      assert Load(s, Series(m, d.labels)) <= MAX_POINTS;
      PartOfCold(files, n, d);
    }
  }

  lemma {:induction false} PartOfCold(files: Files, n: nat, d: SeriesData)
    requires n in files && Distinct(files[n].series) && d in files[n].series
    ensures |d.points| <= |ColdPoints(files, d.labels)|
  {
    hide Distinct, PointsIn, Ascending;
    PartOfOrder(files, Ascending(files.Keys), n, d);
  }

  lemma {:induction false} PartOfOrder(files: Files, order: seq<nat>, n: nat, d: SeriesData)
    requires n in order && n in files && Distinct(files[n].series) && d in files[n].series
    ensures |d.points| <= |PointsIn(files, order, d.labels)|
    decreases order
  {
    hide FilePoints, Distinct;
    if order[|order| - 1] == n {
      FilePointsOne(files[n].series, d);
    } else {
      PartOfOrder(files, order[..|order| - 1], n, d);
    }
  }

  /** In every sound state within the limits each chunk file reads back, from the bytes that are
      written for it, as exactly the content that the state holds. */
  lemma {:induction false} FilesReadBack(s: State, universe: set<Series>)
    requires SoundData(s, universe) && Limits(s)
    ensures forall m, n :: m in s.disk.chunks && n in s.disk.chunks[m] ==>
              var f := s.disk.chunks[m][n];
              Content(ChunkFormat.FileBytes(RecordsOf(f.series, m))) == f
              && Readable(ChunkFormat.FileBytes(RecordsOf(f.series, m)))
  {
    hide SoundChunks, Room, Content, Readable, ChunkFormat.FileBytes, GoodWal, GoodMem, Usable, StoredFile;
    forall m, n | m in s.disk.chunks && n in s.disk.chunks[m]
      ensures
        var f := s.disk.chunks[m][n];
        Content(ChunkFormat.FileBytes(RecordsOf(f.series, m))) == f
        && Readable(ChunkFormat.FileBytes(RecordsOf(f.series, m)))
    {
      FileStored(s, m, n, universe);
      FileReadsBack(s.disk.chunks[m][n], m, universe);
    }
  }
}
