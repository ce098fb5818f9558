/** What holds over every run of every operation: late points, crashes, drops and retention in
    any order. */
module EngineSafety {
  import opened Words
  import opened Model
  import opened Points
  import opened EngineState
  import opened EngineLemmas
  import opened EngineInvariant
  import opened EngineSteps
  import opened EngineMaintenance
  import opened EngineOpen
  import opened EngineSound
  import opened EngineRuns
  import opened EngineLimits
  import SeriesKey

  datatype AnyOp = Do(op: Op) | RetainOp(cutoff: int64)

  ghost predicate AnyStep(s: State, op: AnyOp, s': State) {
    match op
    case Do(o) => Step(s, o, s')
    case RetainOp(cutoff) => Retain(s, cutoff, s')
  }

  /** Steps must fit, in any order and with any timestamps above zero. */
  ghost predicate Allowed(s: State, op: AnyOp, universe: set<Series>) {
    op.Do? ==> Fits(s, op.op, universe)
  }

  ghost predicate AnyRun(states: seq<State>, ops: seq<AnyOp>, universe: set<Series>) {
    && |states| == |ops| + 1 && Created(states[0])
    && forall i :: 0 <= i < |ops| ==>
         AnyStep(states[i], ops[i], states[i + 1]) && Allowed(states[i], ops[i], universe)
  }

  /** The records pushed so far, in order. */
  ghost function Pushed(ops: seq<AnyOp>): seq<Record> {
    if ops == [] then []
    else
      var last := ops[|ops| - 1];
      Pushed(ops[..|ops| - 1]) + (if last.Do? && last.op.PushOp? then [last.op.rec] else [])
  }

  // ---- where points come from ----

  /** Every point of the list was pushed to the series. */
  ghost predicate From(ps: seq<Point>, pushed: seq<Record>, key: Series) {
    forall p :: p in ps ==> p in PointsOf(pushed, key)
  }

  ghost predicate WalFrom(wal: map<nat, seq<Record>>, pushed: seq<Record>) {
    forall n, key :: n in wal ==> From(PointsOf(wal[n], key), pushed, key)
  }

  ghost predicate ChunksFrom(chunks: map<Str, Files>, pushed: seq<Record>) {
    forall key: Series :: From(ColdPoints(DirOf(chunks, key.metric), key.labels), pushed, key)
  }

  ghost predicate MemFrom(mem: map<uint64, Record>, pushed: seq<Record>) {
    forall key :: From(MemPoints(mem, key), pushed, key)
  }

  ghost predicate AllFrom(s: State, pushed: seq<Record>) {
    WalFrom(s.disk.wal, pushed) && ChunksFrom(s.disk.chunks, pushed) && MemFrom(s.mem, pushed)
  }

  /** Lists with no more points than lists that were pushed were pushed. */
  lemma {:induction false} FewerFrom(ps: seq<Point>, qs: seq<Point>, pushed: seq<Record>, key: Series)
    requires From(qs, pushed, key) && forall p :: p in ps ==> p in qs
    ensures From(ps, pushed, key)
  {
    hide PointsOf;
  }

  lemma {:induction false} InsertedFrom(ps: seq<Point>, more: seq<Point>, pushed: seq<Record>, key: Series)
    requires Sorted(ps) && From(ps, pushed, key) && From(more, pushed, key)
    ensures From(InsertAll(ps, more), pushed, key)
  {
    hide PointsOf, InsertAll;
    InsertAllKeepsOrder(ps, more);
    forall p | p in InsertAll(ps, more) ensures p in PointsOf(pushed, key) {
      assert p in multiset(InsertAll(ps, more));
      assert p in multiset(ps) || p in multiset(more);
    }
  }

  lemma {:induction false} FromGrows(ps: seq<Point>, pushed: seq<Record>, rec: Record, key: Series)
    requires From(ps, pushed, key)
    ensures From(ps, pushed + [rec], key)
  {
    hide PointsOf;
    PointsOfPush(pushed, rec, key);
  }

  lemma {:induction false} RecordFrom(pushed: seq<Record>, rec: Record)
    ensures From(rec.points, pushed + [rec], rec.Key())
  {
    hide PointsOf;
    PointsOfPush(pushed, rec, rec.Key());
  }

  // ---- steps ----

  lemma {:induction false} PushFrom(s: State, rec: Record, pushed: seq<Record>, universe: set<Series>)
    requires SoundData(s, universe) && GoodRecord(rec, universe) && AllFrom(s, pushed)
    ensures AllFrom(Push(s, rec), pushed + [rec])
  {
    hide Storable, PointsOf, InsertAll, MemPoints, ColdPoints, ApplyRecord, IndexRecord, GoodMem, SoundChunks,
      NoCollision, From;
    var s', more := Push(s, rec), pushed + [rec];
    RecordFrom(pushed, rec);
    forall key: Series ensures From(ColdPoints(s'.Dir(key.metric), key.labels), more, key) {
      FromGrows(ColdPoints(s.Dir(key.metric), key.labels), pushed, rec, key);
    }
    forall n, key | n in s'.disk.wal ensures From(PointsOf(s'.disk.wal[n], key), more, key) {
      PushWalFrom(s, rec, pushed, n, key);
    }
    forall key ensures From(MemPoints(s'.mem, key), more, key) {
      PushMemFrom(s, rec, pushed, universe, key);
    }
  }

  lemma {:induction false} PushWalFrom(s: State, rec: Record, pushed: seq<Record>, n: nat, key: Series)
    requires WalFrom(s.disk.wal, pushed) && s.current in s.disk.wal && n in s.disk.wal
    ensures From(PointsOf(Push(s, rec).disk.wal[n], key), pushed + [rec], key)
  {
    hide PointsOf, ApplyRecord, IndexRecord;
    FromGrows(PointsOf(s.disk.wal[n], key), pushed, rec, key);
    if n == s.current {
      PointsOfPush(s.disk.wal[n], rec, key);
      RecordFrom(pushed, rec);
    }
  }

  lemma {:induction false} PushMemFrom(s: State, rec: Record, pushed: seq<Record>, universe: set<Series>, key: Series)
    requires SoundData(s, universe) && GoodRecord(rec, universe) && MemFrom(s.mem, pushed)
    ensures From(MemPoints(ApplyRecord(s.mem, rec), key), pushed + [rec], key)
  {
    hide Storable, PointsOf, InsertAll, MemPoints, ApplyRecord, GoodMem, SoundChunks, NoCollision, From, GoodRecord,
      GoodWal;
    ApplyGood(s.mem, rec, universe);
    KnownRecord(rec, universe);
    FromGrows(MemPoints(s.mem, key), pushed, rec, key);
    if key in universe {
      ApplyPoints(s.mem, rec, universe, key);
      if rec.Key() == key {
        MemSorted(s.mem, universe, key);
        RecordFrom(pushed, rec);
        InsertedFrom(MemPoints(s.mem, key), rec.points, pushed + [rec], key);
      }
    } else {
      MemSorted(ApplyRecord(s.mem, rec), universe, key);
      NothingFrom(pushed + [rec], key);
    }
  }

  lemma {:induction false} NothingFrom(pushed: seq<Record>, key: Series)
    ensures From([], pushed, key)
  {
  }

  lemma {:induction false} WrittenFrom(
    chunks: map<Str, Files>, recs: seq<Record>, chunks': map<Str, Files>, pushed: seq<Record>)
    requires ChunksWritten(chunks, recs, chunks') && ChunksFrom(chunks, pushed)
    requires forall key :: From(PointsOf(recs, key), pushed, key)
    ensures ChunksFrom(chunks', pushed)
  {
    hide ChunksWritten, ColdPoints, PointsOf, InsertAll;
    forall key: Series ensures From(ColdPoints(DirOf(chunks', key.metric), key.labels), pushed, key) {
      WrittenCold(chunks, recs, chunks', key);
      NoneSorted();
      assert From(PointsOf(recs, key), pushed, key);
      InsertedFrom([], PointsOf(recs, key), pushed, key);
    }
  }

  lemma {:induction false} SegmentFrom(s: State, pushed: seq<Record>)
    requires WalFrom(s.disk.wal, pushed)
    ensures forall key :: From(PointsOf(s.Segment(), key), pushed, key)
  {
    forall key ensures From(PointsOf(s.Segment(), key), pushed, key) {
      if s.current !in s.disk.wal {
        NothingFrom(pushed, key);
      }
    }
  }

  lemma {:induction false} EvictedFrom(mem: map<uint64, Record>, t: int64, pushed: seq<Record>, universe: set<Series>)
    requires GoodMem(mem, universe) && MemFrom(mem, pushed)
    ensures MemFrom(Evict(mem, t), pushed)
  {
    hide Storable, PointsOf, MemPoints, Evict, From, GoodMem;
    forall key ensures From(MemPoints(Evict(mem, t), key), pushed, key) {
      EvictPoints(mem, t, universe, key);
      FewerFrom(After(MemPoints(mem, key), t), MemPoints(mem, key), pushed, key);
    }
  }

  lemma {:induction false} FlushFrom(s: State, s': State, pushed: seq<Record>, universe: set<Series>)
    requires SoundData(s, universe) && Flush(s, s') && AllFrom(s, pushed)
    ensures AllFrom(s', pushed)
  {
    hide Storable, ChunksWritten, ColdPoints, MemPoints, PointsOf, Evict, IsMaxTS, GoodMem, SoundChunks, NoCollision,
      GoodWal, From;
    SegmentFrom(s, pushed);
    forall n, key | n in s'.disk.wal ensures From(PointsOf(s'.disk.wal[n], key), pushed, key) {
      RotatedFrom(s.disk.wal, s.current, pushed, n, key);
    }
    if s.Segment() != [] {
      WrittenFrom(s.disk.chunks, s.Segment(), s'.disk.chunks, pushed);
      var t: int64 :| IsMaxTS(s.Segment(), t) && Watermark(s, t, s');
      EvictedFrom(s.mem, t, pushed, universe);
    }
  }

  lemma {:induction false} RotatedFrom(
    wal: map<nat, seq<Record>>, sealed: nat, pushed: seq<Record>, n: nat, key: Series)
    requires WalFrom(wal, pushed) && n in Rotated(wal, sealed)
    ensures From(PointsOf(Rotated(wal, sealed)[n], key), pushed, key)
  {
    if n == sealed + 1 {
      NothingFrom(pushed, key);
    }
  }

  lemma {:induction false} CompactFrom(s: State, threshold: int, s': State, pushed: seq<Record>)
    requires Compact(s, threshold, s') && AllFrom(s, pushed)
    ensures AllFrom(s', pushed)
  {
    hide ColdPoints, PointsOf, From, CompactedDir, MemFrom, WalFrom;
    forall key: Series ensures From(ColdPoints(s'.Dir(key.metric), key.labels), pushed, key) {
      var m := key.metric;
      assert m in s'.disk.chunks <==> m in s.disk.chunks;
      if m in s.disk.chunks {
        CompactedCold(s.disk.chunks[m], threshold, s'.disk.chunks[m], key.labels);
        SomeIn(ColdPoints(s'.Dir(m), key.labels), ColdPoints(s.Dir(m), key.labels));
        FewerFrom(ColdPoints(s'.Dir(m), key.labels), ColdPoints(s.Dir(m), key.labels), pushed, key);
      }
    }
  }

  lemma {:induction false} DropFrom(
    s: State, metric: Str, filter: Labels, s': State, dropped: bool, pushed: seq<Record>, universe: set<Series>)
    requires SoundData(s, universe) && Drop(s, metric, metric, filter, s', dropped) && AllFrom(s, pushed)
    ensures AllFrom(s', pushed)
  {
    hide Storable, SoundData, Flush, DropAfterFlush, AnyMatch, AllFrom;
    if s' != s {
      var mid :| Flush(s, mid) && DropAfterFlush(mid, metric, metric, filter, s')
        && (dropped <==> AnyMatch(mid, metric, metric, filter));
      FlushFrom(s, mid, pushed, universe);
      DropAfterFlushFrom(mid, metric, filter, s', pushed);
    }
  }

  lemma {:induction false} DropAfterFlushFrom(mid: State, metric: Str, filter: Labels, s': State, pushed: seq<Record>)
    requires DropAfterFlush(mid, metric, metric, filter, s') && AllFrom(mid, pushed)
    ensures AllFrom(s', pushed)
  {
    hide ColdPoints, PointsOf, From, DroppedDir, LabelsMatch, SeriesKey.Hash, DroppedIndex;
    forall key: Series ensures From(ColdPoints(s'.Dir(key.metric), key.labels), pushed, key) {
      DroppedColdDir(mid.disk.chunks, metric, filter, s'.disk.chunks, key);
      NothingFrom(pushed, key);
    }
    forall key ensures From(MemPoints(s'.mem, key), pushed, key) {
      NothingFrom(pushed, key);
      assert From(MemPoints(mid.mem, key), pushed, key);
    }
  }

  lemma {:induction false} OpenFrom(disk: Disk, s: State, pushed: seq<Record>, universe: set<Series>)
    requires Usable(universe) && SoundChunks(disk.chunks, universe) && Open(disk, s)
    requires forall n :: n in disk.wal ==> GoodRecords(disk.wal[n], universe)
    requires WalFrom(disk.wal, pushed) && ChunksFrom(disk.chunks, pushed)
    ensures AllFrom(s, pushed)
  {
    hide Storable, AllRecords, Ascending, ReplayMem, ReplayIndex, SoundChunks, NoCollision, GoodRecords, ColdPoints,
      MemPoints, PointsOf, From, IsMaxChunkTS;
    var order := Ascending(disk.wal.Keys);
    var recs := AllRecords(disk.wal, order);
    RecordsKnown(disk.wal, order, universe);
    ReplayGood(recs, universe);
    forall key ensures From(MemPoints(s.mem, key), pushed, key) {
      RecordsFrom(disk.wal, order, pushed, key);
      NothingFrom(pushed, key);
      if key in universe {
        ReplayPoints(recs, universe, key);
        NoneSorted();
        InsertedFrom([], PointsOf(recs, key), pushed, key);
      } else {
        MemSorted(s.mem, universe, key);
      }
    }
    forall n, key | n in s.disk.wal ensures From(PointsOf(s.disk.wal[n], key), pushed, key) {
      PointsOfNone(key);
      NothingFrom(pushed, key);
    }
  }

  lemma {:induction false} RecordsFrom(wal: map<nat, seq<Record>>, order: seq<nat>, pushed: seq<Record>, key: Series)
    requires WalFrom(wal, pushed)
    ensures From(PointsOf(AllRecords(wal, order), key), pushed, key)
    decreases order
  {
    hide PointsOf;
    PointsOfNone(key);
    if order != [] {
      var n, most := order[|order| - 1], order[..|order| - 1];
      RecordsFrom(wal, most, pushed, key);
      PointsOfConcat(AllRecords(wal, most), if n in wal then wal[n] else [], key);
    }
  }

  lemma {:induction false} CrashFrom(s: State, s': State, pushed: seq<Record>, universe: set<Series>)
    requires SoundData(s, universe) && CrashInFlush(s, s') && AllFrom(s, pushed)
    ensures SoundData(s', universe) && AllFrom(s', pushed)
  {
    hide Storable, ChunksWritten, ColdPoints, MemPoints, PointsOf, GoodMem, SoundChunks, NoCollision, From, Open,
      GoodRecords;
    var chunks' :| ChunksWritten(s.disk.chunks, s.Segment(), chunks')
      && Open(Disk(s.disk.wal[s.current + 1 := []], chunks'), s');
    var disk := Disk(s.disk.wal[s.current + 1 := []], chunks');
    SegmentFrom(s, pushed);
    WrittenSound(s.disk.chunks, s.Segment(), chunks', universe);
    WrittenFrom(s.disk.chunks, s.Segment(), chunks', pushed);
    NoRecords(universe);
    forall n, key | n in disk.wal ensures From(PointsOf(disk.wal[n], key), pushed, key) {
      PointsOfNone(key);
      NothingFrom(pushed, key);
    }
    OpenFrom(disk, s', pushed, universe);
    OpenSound(disk, s', universe);
  }

  lemma {:induction false} ReopenFrom(s: State, s': State, pushed: seq<Record>, universe: set<Series>)
    requires SoundData(s, universe) && Open(s.disk, s') && AllFrom(s, pushed)
    ensures SoundData(s', universe) && AllFrom(s', pushed)
  {
    hide Storable, ColdPoints, MemPoints, PointsOf, GoodMem, SoundChunks, NoCollision, From, Open, GoodRecords;
    OpenFrom(s.disk, s', pushed, universe);
    OpenSound(s.disk, s', universe);
  }

  lemma {:induction false} RetainFrom(s: State, cutoff: int64, s': State, pushed: seq<Record>, universe: set<Series>)
    requires SoundData(s, universe) && Retain(s, cutoff, s') && AllFrom(s, pushed)
    ensures AllFrom(s', pushed)
  {
    hide Storable, ColdPoints, PointsOf, GoodFile, NoCollision, GoodWal, From, FreshIndex, SeriesKey.Hash, After,
      FreshFiles;
    forall key: Series ensures From(ColdPoints(s'.Dir(key.metric), key.labels), pushed, key) {
      FreshCold(s.disk.chunks, cutoff, universe, key);
      var before, now := ColdPoints(s.Dir(key.metric), key.labels), ColdPoints(s'.Dir(key.metric), key.labels);
      forall p | p in now ensures p in before {
        assert multiset(now)[p] <= multiset(before)[p];
      }
      FewerFrom(now, before, pushed, key);
    }
    forall key ensures From(MemPoints(s'.mem, key), pushed, key) {
      NothingFrom(pushed, key);
      FreshFrom(s.mem, cutoff, pushed, key);
    }
  }

  lemma {:induction false} FreshFrom(mem: map<uint64, Record>, cutoff: int64, pushed: seq<Record>, key: Series)
    requires MemFrom(mem, pushed)
    ensures From(MemPoints(FreshMem(mem, cutoff), key), pushed, key)
  {
    hide SeriesKey.Hash, PointsOf;
    assert From(MemPoints(mem, key), pushed, key);
    var id := SeriesKey.Hash(key);
    if id in FreshMem(mem, cutoff) && mem[id].Key() == key {
      FewerFrom(After(mem[id].points, cutoff - 1), mem[id].points, pushed, key);
    }
  }

  // ---- runs ----

  lemma {:induction false} StepSafe(s: State, op: AnyOp, s': State, pushed: seq<Record>, universe: set<Series>)
    requires SoundData(s, universe) && Limits(s) && AllFrom(s, pushed)
    requires AnyStep(s, op, s') && Allowed(s, op, universe)
    ensures SoundData(s', universe) && Limits(s')
    ensures AllFrom(s', pushed + (if op.Do? && op.op.PushOp? then [op.op.rec] else []))
  {
    hide SoundData, AllFrom, Flush, Compact, Drop, Open, CrashInFlush, LoseTail, Retain, GoodRecord, Limits, HasRoom,
      CanNumber;
    assert pushed + [] == pushed;
    AnyLimits(s, op, s', universe);
    match op
    case RetainOp(cutoff) =>
      RetainData(s, cutoff, s', universe);
      RetainFrom(s, cutoff, s', pushed, universe);
    case Do(o) =>
      match o {
        case PushOp(rec) =>
          PushData(s, rec, universe);
          PushFrom(s, rec, pushed, universe);
        case FlushOp =>
          FlushData(s, s', universe);
          FlushFrom(s, s', pushed, universe);
        case CompactOp(threshold) =>
          CompactData(s, threshold, s', universe);
          CompactFrom(s, threshold, s', pushed);
        case DropOp(metric, filter, dropped) =>
          DropData(s, metric, metric, filter, s', dropped, universe);
          DropFrom(s, metric, filter, s', dropped, pushed, universe);
        case ReopenOp => ReopenFrom(s, s', pushed, universe);
        case CrashOp => CrashFrom(s, s', pushed, universe);
        case LoseOp(lost) => LoseFrom(s, lost, s', pushed, universe);
      }
  }

  lemma {:induction false} AnyLimits(s: State, op: AnyOp, s': State, universe: set<Series>)
    requires SoundData(s, universe) && Limits(s) && AnyStep(s, op, s') && Allowed(s, op, universe)
    ensures Limits(s')
  {
    hide Limits, Step, Fits, Retain, SoundChunks, GoodRecords, GoodMem;
    match op
    case RetainOp(cutoff) => RetainLimits(s, cutoff, s', universe);
    case Do(o) => StepLimits(s, o, s', universe);
  }

  lemma {:induction false} LoseFrom(
    s: State, lost: seq<Record>, s': State, pushed: seq<Record>, universe: set<Series>)
    requires SoundData(s, universe) && LoseTail(s, lost, s') && AllFrom(s, pushed)
    ensures SoundData(s', universe) && AllFrom(s', pushed)
  {
    hide Usable, ColdPoints, MemPoints, PointsOf, GoodMem, SoundChunks, From, Open, GoodRecord;
    var kept :| s.Segment() == kept + lost && Open(Disk(s.disk.wal[s.current := kept], s.disk.chunks), s');
    var disk := Disk(s.disk.wal[s.current := kept], s.disk.chunks);
    assert forall rec :: rec in kept ==> rec in kept + lost;
    forall n, key | n in disk.wal ensures From(PointsOf(disk.wal[n], key), pushed, key) {
      if n == s.current {
        assert From(PointsOf(s.Segment(), key), pushed, key);
        PointsOfConcat(kept, lost, key);
        FewerFrom(PointsOf(kept, key), PointsOf(kept + lost, key), pushed, key);
      }
    }
    OpenFrom(disk, s', pushed, universe);
    OpenSound(disk, s', universe);
  }

  /** Safety over every run of every operation: queries see no point that was not pushed to its
      series, and each retention keeps every visible point at or after its cutoff. */
  lemma {:induction false} NothingInvented(states: seq<State>, ops: seq<AnyOp>, universe: set<Series>)
    requires Usable(universe) && AnyRun(states, ops, universe)
    ensures SoundData(states[|ops|], universe) && Limits(states[|ops|]) && AllFrom(states[|ops|], Pushed(ops))
    ensures forall key, p :: p in Visible(states[|ops|], key) ==> p in PointsOf(Pushed(ops), key)
    ensures forall cutoff: int64, s', key ::
              Retain(states[|ops|], cutoff, s') ==> Trimmed(Visible(states[|ops|], key), Visible(s', key), cutoff)
    decreases |ops|
  {
    hide Usable, SoundData, AllFrom, Visible, AnyStep, Allowed, Created, PointsOf, Retain, Trimmed, Limits;
    var n := |ops|;
    if n == 0 {
      CreatedSafe(states[0], universe);
    } else {
      assert AnyRun(states[..n], ops[..n - 1], universe);
      NothingInvented(states[..n], ops[..n - 1], universe);
      StepSafe(states[n - 1], ops[n - 1], states[n], Pushed(ops[..n - 1]), universe);
    }
    forall key, p | p in Visible(states[n], key) ensures p in PointsOf(Pushed(ops), key) {
      VisibleFrom(states[n], Pushed(ops), key);
    }
    forall cutoff: int64, s', key | Retain(states[n], cutoff, s')
      ensures Trimmed(Visible(states[n], key), Visible(s', key), cutoff)
    {
      RetainTrims(states[n], cutoff, s', universe, key);
    }
  }

  lemma {:induction false} RetainTrims(s: State, cutoff: int64, s': State, universe: set<Series>, key: Series)
    requires SoundData(s, universe) && Retain(s, cutoff, s')
    ensures Trimmed(Visible(s, key), Visible(s', key), cutoff)
  {
    hide Storable, Visible, Retain, Trimmed, GoodFile, GoodMem, NoCollision, GoodWal;
    RetainVisible(s, cutoff, s', universe, key);
  }

  lemma {:induction false} VisibleFrom(s: State, pushed: seq<Record>, key: Series)
    requires AllFrom(s, pushed)
    ensures From(Visible(s, key), pushed, key)
  {
    hide ColdPoints, MemPoints, PointsOf;
    assert From(MemPoints(s.mem, key), pushed, key);
    HotUnfold(s, key);
  }

  lemma {:induction false} CreatedSafe(s: State, universe: set<Series>)
    requires Created(s) && Usable(universe)
    ensures SoundData(s, universe) && Limits(s) && AllFrom(s, Pushed([]))
  {
    hide Storable, Limits, Created, NoCollision, ColdPoints, MemPoints, From, Ordered;
    CreatedOrdered(s, universe);
    OrderedShape(s, universe);
    ShapeSound(s, universe);
    assert s.disk.wal.Keys == {s.current};
    forall key: Series
      ensures From(ColdPoints(s.Dir(key.metric), key.labels), [], key) && From(MemPoints(s.mem, key), [], key)
    {
      ColdNone(key.labels);
      NoMemPoints(s.mem, key);
      NothingFrom([], key);
    }
    forall n, key | n in s.disk.wal ensures From(PointsOf(s.disk.wal[n], key), [], key) {
      PointsOfNone(key);
      NothingFrom([], key);
    }
  }

  // ---- what retention does not promise ----

  /** Retention trims memory but not the log: the next flush writes every record of the open
      segment, whatever its age, so that a series then reads from its files what retention left
      there and all its points of the segment, the trimmed ones included. */
  lemma {:induction false} TrimmedComesBack(s: State, cutoff: int64, s': State, s'': State, key: Series)
    requires Retain(s, cutoff, s') && Flush(s', s'') && s.Segment() != []
    ensures ColdPoints(s''.Dir(key.metric), key.labels)
         == ColdPoints(s'.Dir(key.metric), key.labels) + InsertAll([], PointsOf(s.Segment(), key))
    ensures multiset(PointsOf(s.Segment(), key)) <= multiset(Visible(s'', key))
  {
    hide ColdPoints, PointsOf, InsertAll, ChunksWritten, FreshMem, FreshFiles, FreshIndex, HotPoints, IsMaxTS,
      Watermark;
    assert s'.Segment() == s.Segment();
    WrittenCold(s'.disk.chunks, s'.Segment(), s''.disk.chunks, key);
    NoneSorted();
    InsertAllKeepsOrder([], PointsOf(s.Segment(), key));
  }
}
