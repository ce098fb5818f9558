/** Whole runs of the engine against the plain map from series to points. */
module EngineRuns {
  import opened Words
  import opened Model
  import opened Points
  import opened EngineState
  import opened EngineLemmas
  import opened EngineInvariant
  import opened EngineSteps
  import opened EngineMaintenance
  import opened EngineOpen
  import opened EngineSound
  import opened EngineLimits
  import opened DiskContent
  import ChunkFormat
  import SeriesKey

  datatype Op =
    | PushOp(rec: Record)
    | FlushOp
    | CompactOp(threshold: int)
    | DropOp(metric: Str, filter: Labels, dropped: bool)
    | ReopenOp
    | CrashOp
    | LoseOp(lost: seq<Record>)

  ghost predicate Step(s: State, op: Op, s': State) {
    match op
    case PushOp(rec) => s' == Push(s, rec)
    case FlushOp => Flush(s, s')
    case CompactOp(threshold) => Compact(s, threshold, s')
    case DropOp(metric, filter, dropped) => Drop(s, metric, metric, filter, s', dropped)
    case ReopenOp => Open(s.disk, s')
    case CrashOp => CrashInFlush(s, s')
    case LoseOp(lost) => LoseTail(s, lost, s')
  }

  /** A new database. */
  ghost predicate Created(s: State) {
    Open(Disk(map[], map[]), s)
  }

  ghost predicate IsRun(states: seq<State>, ops: seq<Op>) {
    && |states| == |ops| + 1
    && Created(states[0])
    && forall i :: 0 <= i < |ops| ==> Step(states[i], ops[i], states[i + 1])
  }

  // ---- the plain map ----

  /** What a step does to one series of the plain map. */
  ghost function Plain(points: multiset<Point>, op: Op, key: Series): multiset<Point> {
    match op
    case PushOp(rec) => points + (if rec.Key() == key then multiset(rec.points) else multiset{})
    case DropOp(metric, filter, _) =>
      if key.metric == metric && LabelsMatch(filter, key.labels) then multiset{} else points
    case LoseOp(lost) => points - multiset(PointsOf(lost, key))
    case _ => points
  }

  /** The points of one series in the plain map after the steps. */
  ghost function Expected(ops: seq<Op>, key: Series): multiset<Point> {
    if ops == [] then multiset{} else Plain(Expected(ops[..|ops| - 1], key), ops[|ops| - 1], key)
  }

  // ---- runs in time order ----

  /** A push has at most 65535 points of a series in use, which has room for them; a step that
      writes files finds numbers below one million for them. */
  ghost predicate Fits(s: State, op: Op, universe: set<Series>) {
    match op
    case PushOp(rec) => GoodRecord(rec, universe) && HasRoom(s, rec)
    case ReopenOp => true
    case LoseOp(_) => true
    case _ => CanNumber(s)
  }

  /** Besides fitting, a push has timestamps after the watermark. */
  ghost predicate AfterWatermark(s: State, op: Op, universe: set<Series>) {
    Fits(s, op, universe) && (op.PushOp? ==> AllAbove(op.rec.points, s.flushedUpTo))
  }

  /** Besides that, a drop finds no segment left behind by a crash in a flush. */
  ghost predicate InOrder(s: State, op: Op, universe: set<Series>) {
    AfterWatermark(s, op, universe) && (op.DropOp? ==> Clean(s))
  }

  ghost predicate OrderedRun(states: seq<State>, ops: seq<Op>, universe: set<Series>) {
    && IsRun(states, ops)
    && forall i :: 0 <= i < |ops| ==> InOrder(states[i], ops[i], universe)
  }

  lemma {:induction false} CreatedOrdered(s: State, universe: set<Series>)
    requires Created(s) && Usable(universe)
    ensures Limits(s)
    ensures Ordered(s, universe) && Clean(s) && s.mem == map[] && s.Segment() == [] && s.disk.chunks == map[]
  {
    hide Storable, NoCollision, SeriesKey.Hash, HotIsSegment, MemAfter, After, MemPoints;
    var none: map<nat, seq<Record>> := map[];
    assert none.Keys == {};
    assert Ascending({}) == [];
    NoRecords(universe);
    EmptyMemHot(s, universe);
  }

  lemma {:induction false} CreatedEmpty(s: State, universe: set<Series>, key: Series)
    requires Created(s) && Usable(universe)
    ensures Visible(s, key) == []
  {
    hide Storable, Created, NoCollision, Ordered;
    CreatedOrdered(s, universe);
    ColdNone(key.labels);
    NothingHot(s, key);
  }

  lemma {:induction false} StepKeeps(s: State, op: Op, s': State, universe: set<Series>)
    requires Ordered(s, universe) && Step(s, op, s') && InOrder(s, op, universe)
    ensures Ordered(s', universe)
  {
    hide Storable, Ordered, Flush, Compact, Drop, Open, CrashInFlush, LoseTail, GoodRecord, AllAbove, HasRoom,
      CanNumber;
    match op
    case PushOp(rec) => PushKeeps(s, rec, universe);
    case FlushOp => FlushKeeps(s, s', universe);
    case CompactOp(threshold) => CompactKeeps(s, threshold, s', universe);
    case DropOp(metric, filter, dropped) => DropKeeps(s, metric, filter, s', dropped, universe);
    case ReopenOp => ReopenKeeps(s, s', universe);
    case CrashOp => CrashKeeps(s, s', universe);
    case LoseOp(lost) => LoseKeeps(s, lost, s', universe);
  }

  lemma {:induction false} LastSegment(s: State, universe: set<Series>)
    requires Shape(s, universe)
    ensures forall n :: n in s.disk.wal ==> n <= s.current
  {
    hide Storable, GoodRecords, GoodIndex, GoodChunks, GoodMem;
  }

  /** Each step that fits keeps the limits. */
  lemma {:induction false} StepLimits(s: State, op: Op, s': State, universe: set<Series>)
    requires Limits(s) && Step(s, op, s') && Fits(s, op, universe) && forall n :: n in s.disk.wal ==> n <= s.current
    ensures Limits(s')
  {
    hide Limits, Flush, Compact, Drop, Open, CrashInFlush, LoseTail, GoodRecord, HasRoom, CanNumber;
    match op
    case PushOp(rec) => PushLimits(s, rec);
    case FlushOp => FlushLimits(s, s');
    case CompactOp(threshold) => CompactLimits(s, threshold, s');
    case DropOp(metric, filter, dropped) => DropLimits(s, metric, metric, filter, s', dropped);
    case ReopenOp => OpenLimits(s, s');
    case CrashOp => CrashLimits(s, s');
    case LoseOp(lost) => LoseLimits(s, lost, s');
  }

  /** Each step does to what queries see exactly what it does to the plain map. */
  lemma {:induction false} StepRefines(s: State, op: Op, s': State, universe: set<Series>, key: Series)
    requires Ordered(s, universe) && Step(s, op, s') && InOrder(s, op, universe)
    ensures multiset(Visible(s', key)) == Plain(multiset(Visible(s, key)), op, key)
  {
    hide Storable, Ordered, Flush, Compact, Drop, Open, CrashInFlush, LoseTail, Visible, AllAbove, HasRoom, CanNumber;
    match op
    case PushOp(rec) => PushRefines(s, rec, universe, key);
    case FlushOp => FlushInvisible(s, s', universe, key);
    case CompactOp(threshold) => CompactVisible(s, threshold, s', key);
    case DropOp(metric, filter, dropped) => DropVisible(s, metric, filter, s', dropped, universe, key);
    case ReopenOp => ReopenKeeps(s, s', universe);
    case CrashOp => CrashKeeps(s, s', universe);
    case LoseOp(lost) => LoseKeeps(s, lost, s', universe);
  }

  lemma {:induction false} PushRefines(s: State, rec: Record, universe: set<Series>, key: Series)
    requires Ordered(s, universe) && GoodRecord(rec, universe) && AllAbove(rec.points, s.flushedUpTo)
    ensures multiset(Visible(Push(s, rec), key))
         == multiset(Visible(s, key)) + (if rec.Key() == key then multiset(rec.points) else multiset{})
  {
    hide Storable, Ordered, Push, Visible, AllAbove, InsertAll;
    if key in universe {
      PushVisible(s, rec, universe, key);
      VisibleSorted(s, universe, key);
      InsertAllKeepsOrder(Visible(s, key), if rec.Key() == key then rec.points else []);
    } else {
      PushKeeps(s, rec, universe);
      OrderedShapes(s, Push(s, rec), universe);
      VisibleKnown(s, universe, key);
      VisibleKnown(Push(s, rec), universe, key);
    }
  }

  /** Refinement: after any run in time order, queries see of every series exactly the points
      of the plain map, sorted by time, none lost and none twice. */
  lemma {:induction false} RunRefines(states: seq<State>, ops: seq<Op>, universe: set<Series>)
    requires Usable(universe) && OrderedRun(states, ops, universe)
    ensures Ordered(states[|ops|], universe) && Limits(states[|ops|])
    ensures forall key :: Sorted(Visible(states[|ops|], key))
    ensures forall key :: multiset(Visible(states[|ops|], key)) == Expected(ops, key)
    decreases |ops|
  {
    hide Storable, NoCollision, Ordered, Visible, Created, Step, Fits, Sorted, Limits, Shape;
    var n := |ops|;
    if n == 0 {
      CreatedOrdered(states[0], universe);
      forall key ensures multiset(Visible(states[0], key)) == multiset{} {
        CreatedEmpty(states[0], universe, key);
      }
    } else {
      var before := ops[..n - 1];
      assert OrderedRun(states[..n], before, universe);
      RunRefines(states[..n], before, universe);
      StepKeeps(states[n - 1], ops[n - 1], states[n], universe);
      OrderedShape(states[n - 1], universe);
      LastSegment(states[n - 1], universe);
      StepLimits(states[n - 1], ops[n - 1], states[n], universe);
      forall key ensures multiset(Visible(states[n], key)) == Expected(ops, key) {
        StepRefines(states[n - 1], ops[n - 1], states[n], universe, key);
      }
    }
    forall key ensures Sorted(Visible(states[n], key)) {
      VisibleSorted(states[n], universe, key);
    }
  }

  /** After any run in time order every chunk file reads back from its bytes as what it holds. */
  lemma {:induction false} RunReadsBack(states: seq<State>, ops: seq<Op>, universe: set<Series>)
    requires Usable(universe) && OrderedRun(states, ops, universe)
    ensures forall m, n :: m in states[|ops|].disk.chunks && n in states[|ops|].disk.chunks[m] ==>
              var f := states[|ops|].disk.chunks[m][n];
              Content(ChunkFormat.FileBytes(RecordsOf(f.series, m))) == f
              && Readable(ChunkFormat.FileBytes(RecordsOf(f.series, m)))
  {
    hide Usable, Ordered, Created, Step, InOrder, Limits, Visible, Sorted, Content, Readable, ChunkFormat.FileBytes;
    RunRefines(states, ops, universe);
    ReadsBack(states[|ops|], universe);
  }

  lemma {:induction false} ReadsBack(s: State, universe: set<Series>)
    requires Ordered(s, universe) && Limits(s)
    ensures forall m, n :: m in s.disk.chunks && n in s.disk.chunks[m] ==>
              var f := s.disk.chunks[m][n];
              Content(ChunkFormat.FileBytes(RecordsOf(f.series, m))) == f
              && Readable(ChunkFormat.FileBytes(RecordsOf(f.series, m)))
  {
    hide Ordered, Shape, SoundData, Limits, Content, Readable, ChunkFormat.FileBytes;
    OrderedShape(s, universe);
    ShapeSound(s, universe);
    FilesReadBack(s, universe);
  }

  // ---- runs without a crash in a flush ----

  lemma {:induction false} StepClean(s: State, op: Op, s': State, universe: set<Series>)
    requires Ordered(s, universe) && Clean(s) && Step(s, op, s') && InOrder(s, op, universe) && !op.CrashOp?
    ensures Clean(s')
  {
    hide Storable, Ordered, Flush, Drop, CrashInFlush, LoseTail, Fits, Open;
    match op
    case PushOp(rec) =>
    case FlushOp => FlushKeeps(s, s', universe);
    case CompactOp(threshold) =>
    case DropOp(metric, filter, dropped) => DropKeeps(s, metric, filter, s', dropped, universe);
    case ReopenOp => ReopenKeeps(s, s', universe);
    case LoseOp(lost) => LoseKeeps(s, lost, s', universe);
  }

  /** Without a crash in a flush no segment is ever left behind, and drops need no condition. */
  lemma {:induction false} RunsClean(states: seq<State>, ops: seq<Op>, universe: set<Series>)
    requires Usable(universe) && IsRun(states, ops)
    requires forall i :: 0 <= i < |ops| ==> AfterWatermark(states[i], ops[i], universe) && !ops[i].CrashOp?
    ensures OrderedRun(states, ops, universe) && Clean(states[|ops|])
    decreases |ops|
  {
    hide Usable, Ordered, Created, Step, AfterWatermark, Clean, Limits, Visible, Sorted;
    var n := |ops|;
    if n == 0 {
      CreatedOrdered(states[0], universe);
    } else {
      var most, before := states[..n], ops[..n - 1];
      assert IsRun(most, before);
      RunsClean(most, before, universe);
      RunRefines(most, before, universe);
      forall i | 0 <= i < n ensures InOrder(states[i], ops[i], universe) {
        if i < n - 1 {
          assert InOrder(most[i], before[i], universe);
        }
      }
      StepClean(states[n - 1], ops[n - 1], states[n], universe);
    }
  }

  /** The listed metrics are exactly those with a point to read. */
  lemma {:induction false} MetricsExact(s: State, universe: set<Series>, metric: Str)
    requires Ordered(s, universe)
    ensures metric in s.index <==> exists key: Series :: key.metric == metric && Visible(s, key) != []
  {
    hide Storable, ColdPoints, HotPoints, GoodSeries, RangeIs, Leftovers, RecordsAbove, HotIsSegment, OrderedDirs,
      GoodWal, SeriesKey.Hash, After;
    if metric in s.disk.chunks {
      var files := s.disk.chunks[metric];
      var n :| n in files;
      assert GoodFile(files[n], metric, universe);
      var d := files[n].series[0];
      assert d in files[n].series && GoodSeries(d);
      GoodNotEmpty(d);
      HeldInDir(files, n, d, d.points[0]);
      assert Visible(s, Series(metric, d.labels)) != [];
    } else if metric in s.index {
      var id :| id in s.mem && s.mem[id].metric == metric;
      var key := s.mem[id].Key();
      assert GoodEntry(id, s.mem[id], universe);
      AfterOfAbove(s.mem[id].points, s.flushedUpTo);
      HotIsAfter(s, universe, key);
      assert MemPoints(s.mem, key) == s.mem[id].points;
      assert Visible(s, key) != [];
    }
    if key: Series :| key.metric == metric && Visible(s, key) != [] {
      VisibleListed(s, universe, key);
    }
  }

  lemma {:induction false} VisibleListed(s: State, universe: set<Series>, key: Series)
    requires Shape(s, universe) && Visible(s, key) != []
    ensures key.metric in s.index
  {
    hide Storable, ColdPoints, After, SeriesKey.Hash, GoodWal, GoodChunks;
    if key.metric !in s.index {
      UnknownMetric(s, universe, key.metric, key);
    }
  }

  // ---- runs in any order ----

  /** Everything stored of a series: chunk files and the open segment. */
  ghost function Stored(s: State, key: Series): multiset<Point> {
    multiset(ColdPoints(s.Dir(key.metric), key.labels)) + multiset(PointsOf(s.Segment(), key))
  }

  /** Memory holds nothing but points of the open segment, the only one on disk. */
  ghost predicate Retained(s: State, universe: set<Series>) {
    && Shape(s, universe) && Clean(s) && SegmentListed(s)
    && forall key :: key in universe ==> multiset(MemPoints(s.mem, key)) <= multiset(PointsOf(s.Segment(), key))
  }

  ghost predicate AnyOrder(s: State, op: Op, universe: set<Series>) {
    Fits(s, op, universe) && !op.DropOp? && !op.CrashOp?
  }

  ghost predicate AnyOrderRun(states: seq<State>, ops: seq<Op>, universe: set<Series>) {
    && IsRun(states, ops)
    && forall i :: 0 <= i < |ops| ==> AnyOrder(states[i], ops[i], universe)
  }

  lemma {:induction false} PushRetained(s: State, rec: Record, universe: set<Series>)
    requires Retained(s, universe) && GoodRecord(rec, universe)
    ensures Retained(Push(s, rec), universe)
    ensures forall key ::
      Stored(Push(s, rec), key) == Stored(s, key) + (if rec.Key() == key then multiset(rec.points) else multiset{})
  {
    hide Storable, MemPoints, PointsOf, InsertAll, ApplyRecord, GoodIndex, GoodChunks, ColdPoints, IndexRecord,
      GoodRecord;
    var s' := Push(s, rec);
    PushShape(s, rec, universe);
    PushListed(s, rec);
    forall key ensures PointsOf(s'.Segment(), key)
      == PointsOf(s.Segment(), key) + (if rec.Key() == key then rec.points else [])
    {
      PointsOfPush(s.Segment(), rec, key);
    }
    forall key | key in universe
      ensures multiset(MemPoints(s'.mem, key)) <= multiset(PointsOf(s'.Segment(), key))
    {
      GoodKey(rec, universe);
      ApplyPoints(s.mem, rec, universe, key);
      MemSorted(s.mem, universe, key);
      InsertAllKeepsOrder(MemPoints(s.mem, key), rec.points);
    }
  }

  lemma {:induction false} GoodKey(rec: Record, universe: set<Series>)
    requires GoodRecord(rec, universe)
    ensures rec.Key() in universe
  {
  }

  lemma {:induction false} PushListed(s: State, rec: Record)
    requires SegmentListed(s) && rec.metric in Push(s, rec).index
    ensures SegmentListed(Push(s, rec))
  {
    hide ApplyRecord, SeriesKey.Hash;
    assert Push(s, rec).Segment() == s.Segment() + [rec];
  }

  lemma {:induction false} RetainedExplained(s: State, universe: set<Series>)
    requires Retained(s, universe)
    ensures MemExplained(s)
  {
    hide Storable, SeriesKey.Hash, PointsOf, GoodIndex, GoodChunks, Sorted, AllAbove;
    forall id | id in s.mem ensures HasMetric(s.Segment(), s.mem[id].metric) {
      var key := s.mem[id].Key();
      assert GoodEntry(id, s.mem[id], universe);
      assert MemPoints(s.mem, key) == s.mem[id].points;
      SomeIn(s.mem[id].points, PointsOf(s.Segment(), key));
      PointsOfMember(s.Segment(), key, s.mem[id].points[0]);
    }
  }

  lemma {:induction false} SomeIn(ps: seq<Point>, qs: seq<Point>)
    requires multiset(ps) <= multiset(qs)
    ensures forall p :: p in ps ==> p in qs
  {
    forall p | p in ps ensures p in qs {
      assert p in multiset(ps);
      assert p in multiset(qs);
    }
  }

  lemma {:induction false} RetainedEvicts(s: State, t: int64, universe: set<Series>)
    requires Retained(s, universe) && IsMaxTS(s.Segment(), t)
    ensures Evict(s.mem, t) == map[]
    ensures s.Segment() != [] ==> t > 0
  {
    hide Storable, SeriesKey.Hash, PointsOf, GoodIndex, GoodChunks, After, Sorted;
    forall id | id in s.mem ensures After(s.mem[id].points, t) == [] {
      var key, ps := s.mem[id].Key(), s.mem[id].points;
      assert GoodEntry(id, s.mem[id], universe);
      assert MemPoints(s.mem, key) == ps;
      SomeIn(ps, PointsOf(s.Segment(), key));
      forall p | p in ps ensures p.ts <= t {
        PointsOfMember(s.Segment(), key, p);
      }
      AfterOfAtMost(ps, t);
    }
    if s.Segment() != [] {
      var rec := s.Segment()[0];
      assert rec in s.Segment() && GoodRecord(rec, universe);
      assert rec.points[0] in rec.points;
    }
  }

  /** Right after a flush memory is empty and queries see every stored point, late ones
      included, whatever order they were pushed in. */
  lemma {:induction false} FlushShowsAll(s: State, s': State, universe: set<Series>)
    requires Retained(s, universe) && Flush(s, s')
    ensures Retained(s', universe) && s'.mem == map[]
    ensures forall key :: multiset(Visible(s', key)) == Stored(s', key) == Stored(s, key)
  {
    hide Storable, MemPoints, PointsOf, InsertAll, GoodIndex, GoodChunks, ColdPoints, ChunksWritten, IsMaxTS, Evict,
      GoodMem, NoCollision, HotPoints;
    RetainedExplained(s, universe);
    FlushShape(s, s', universe);
    RotatedGood(s.disk.wal, s.current, universe);
    if s.Segment() == [] {
      RetainedNothing(s, universe);
    } else {
      var t: int64 :| IsMaxTS(s.Segment(), t) && Watermark(s, t, s');
      RetainedEvicts(s, t, universe);
    }
    assert s'.Segment() == [];
    forall key ensures multiset(Visible(s', key)) == Stored(s', key) == Stored(s, key) {
      NothingHot(s', key);
      PointsOfNone(key);
      if s.Segment() != [] {
        WrittenCold(s.disk.chunks, s.Segment(), s'.disk.chunks, key);
        NoneSorted();
        InsertAllKeepsOrder([], PointsOf(s.Segment(), key));
      }
    }
    forall key ensures MemPoints(s'.mem, key) == [] {
      NoMemPoints(s'.mem, key);
    }
  }

  lemma {:induction false} NoMemPoints(mem: map<uint64, Record>, key: Series)
    requires mem == map[]
    ensures MemPoints(mem, key) == []
  {
  }

  lemma {:induction false} RetainedNothing(s: State, universe: set<Series>)
    requires Retained(s, universe) && s.Segment() == []
    ensures s.mem == map[]
  {
    hide Storable, PointsOf;
    RetainedExplained(s, universe);
    RetainedMentions(s, universe);
  }

  lemma {:induction false} RetainedMentions(s: State, universe: set<Series>)
    requires Retained(s, universe)
    ensures forall id :: id in s.mem ==> s.Segment() != []
  {
    hide Storable, SeriesKey.Hash, GoodIndex, GoodChunks, Sorted, AllAbove;
    forall id | id in s.mem ensures s.Segment() != [] {
      var key := s.mem[id].Key();
      assert GoodEntry(id, s.mem[id], universe);
      assert MemPoints(s.mem, key) == s.mem[id].points;
      SomeIn(s.mem[id].points, PointsOf(s.Segment(), key));
    }
  }

  lemma {:induction false} CompactRetained(s: State, threshold: int, s': State, universe: set<Series>)
    requires Retained(s, universe) && Compact(s, threshold, s')
    ensures Retained(s', universe) && forall key :: Stored(s', key) == Stored(s, key)
  {
    hide Storable, MemPoints, PointsOf, GoodIndex, GoodChunks, ColdPoints, CompactedDir, GoodMem, NoCollision;
    CompactShape(s, threshold, s', universe);
    forall key ensures Stored(s', key) == Stored(s, key) {
      var m := key.metric;
      assert m in s'.disk.chunks <==> m in s.disk.chunks;
      if m in s.disk.chunks {
        CompactedCold(s.disk.chunks[m], threshold, s'.disk.chunks[m], key.labels);
      }
    }
  }

  /** Opening a disk with one segment. */
  lemma {:induction false} OpenRetained(disk: Disk, current: nat, s: State, universe: set<Series>)
    requires Usable(universe) && GoodWal(disk.wal, current, universe) && GoodChunks(disk.chunks, universe)
    requires disk.wal.Keys == {current} && Open(disk, s)
    ensures Retained(s, universe) && s.disk == disk && s.current == current
  {
    hide Storable, MemPoints, PointsOf, GoodIndex, GoodChunks, ColdPoints, GoodMem, NoCollision, InsertAll, ReplayMem,
      ReplayIndex, AllRecords, Ascending;
    var recs := disk.wal[current];
    SplitRecords(disk.wal, current, universe);
    assert disk.wal.Keys - {current} == {};
    NoEarlier(disk.wal);
    assert AllRecords(disk.wal, Ascending(disk.wal.Keys)) == recs;
    ReplayGood(recs, universe);
    ReplayIndexGood(disk.chunks.Keys, recs, universe);
    ReplayListed(disk.chunks.Keys, recs, universe);
    NoneSorted();
    forall key | key in universe ensures multiset(MemPoints(s.mem, key)) <= multiset(PointsOf(recs, key)) {
      ReplayPoints(recs, universe, key);
      InsertAllKeepsOrder([], PointsOf(recs, key));
    }
  }

  lemma {:induction false} RetainedDisk(s: State, universe: set<Series>)
    requires Retained(s, universe)
    ensures Usable(universe) && GoodWal(s.disk.wal, s.current, universe) && GoodChunks(s.disk.chunks, universe)
    ensures s.disk.wal.Keys == {s.current} && s.Segment() == s.disk.wal[s.current] && Shape(s, universe)
  {
    hide Usable, MemPoints, PointsOf, GoodIndex, GoodChunks, GoodMem, GoodRecords;
  }

  lemma {:induction false} ReopenRetained(s: State, s': State, universe: set<Series>)
    requires Retained(s, universe) && Open(s.disk, s')
    ensures Retained(s', universe) && forall key :: Stored(s', key) == Stored(s, key)
  {
    hide Retained, Usable, GoodWal, GoodChunks, Open, ColdPoints, PointsOf, Shape;
    RetainedDisk(s, universe);
    OpenRetained(s.disk, s.current, s', universe);
  }

  /** Losing the end of the open segment takes exactly its points from what is stored. */
  lemma {:induction false} LoseRetained(s: State, lost: seq<Record>, s': State, universe: set<Series>)
    requires Retained(s, universe) && LoseTail(s, lost, s')
    ensures Retained(s', universe)
    ensures forall key :: Stored(s', key) == Stored(s, key) - multiset(PointsOf(lost, key))
  {
    hide Retained, Usable, GoodRecord, GoodChunks, Open, ColdPoints, PointsOf, Shape;
    var kept :| s.Segment() == kept + lost && Open(Disk(s.disk.wal[s.current := kept], s.disk.chunks), s');
    RetainedDisk(s, universe);
    var disk := Disk(s.disk.wal[s.current := kept], s.disk.chunks);
    assert disk.wal.Keys == {s.current};
    assert forall rec :: rec in kept ==> rec in kept + lost;
    assert GoodWal(disk.wal, s.current, universe);
    OpenRetained(disk, s.current, s', universe);
    forall key ensures Stored(s', key) == Stored(s, key) - multiset(PointsOf(lost, key)) {
      PointsOfConcat(kept, lost, key);
    }
  }

  lemma {:induction false} ReplayListed(dirs: set<Str>, recs: seq<Record>, universe: set<Series>)
    requires NoCollision(universe) && GoodRecords(recs, universe)
    ensures forall rec :: rec in recs ==> rec.metric in ReplayIndex(dirs, recs)
    decreases recs
  {
    hide Storable, ApplyRecord, GoodRecord, NoCollision, SeriesKey.Hash;
    if recs != [] {
      var most, last := recs[..|recs| - 1], recs[|recs| - 1];
      assert last in recs;
      assert GoodRecords(most, universe);
      ReplayListed(dirs, most, universe);
      ReplayGood(most, universe);
      ReplayIndexGood(dirs, most, universe);
      IndexStep(ReplayIndex(dirs, most), ReplayMem(most), dirs, last, universe);
      forall rec | rec in recs ensures rec.metric in ReplayIndex(dirs, recs) {
        assert rec in most || rec == last;
      }
    }
  }

  /** What queries see of a series is always part of what is stored: nothing twice. */
  lemma {:induction false} RetainedVisible(s: State, universe: set<Series>, key: Series)
    requires Retained(s, universe)
    ensures multiset(Visible(s, key)) <= Stored(s, key)
  {
    hide Storable, PointsOf, GoodIndex, GoodChunks, ColdPoints, NoCollision, After, HotPoints, MemPoints;
    MemSorted(s.mem, universe, key);
    HotUnfold(s, key);
    var ps := MemPoints(s.mem, key);
    AfterPart(ps, s.flushedUpTo);
    assert multiset(ps) <= multiset(PointsOf(s.Segment(), key));
    assert multiset(HotPoints(s, key)) <= multiset(ps);
  }

  lemma {:induction false} AfterPart(ps: seq<Point>, t: int)
    requires Sorted(ps)
    ensures multiset(After(ps, t)) <= multiset(ps)
  {
    AfterIsAbove(ps, t);
  }

  /** Conservation: whatever the order of timestamps, chunk files and the open segment hold
      exactly the pushed points, memory only points of that segment, and queries see each
      stored point at most once. */
  lemma {:induction false} RunConserves(states: seq<State>, ops: seq<Op>, universe: set<Series>)
    requires Usable(universe) && AnyOrderRun(states, ops, universe)
    ensures Retained(states[|ops|], universe) && Limits(states[|ops|])
    ensures forall key :: Stored(states[|ops|], key) == Expected(ops, key)
    ensures forall key :: multiset(Visible(states[|ops|], key)) <= Expected(ops, key)
    decreases |ops|
  {
    hide Storable, NoCollision, Retained, Visible, Created, Stored, GoodRecord, Flush, Compact, Open, Push, Drop,
      CrashInFlush, LoseTail, Limits, Shape, HasRoom, CanNumber;
    var n := |ops|;
    if n == 0 {
      CreatedRetained(states[0], universe);
    } else {
      var s, s' := states[n - 1], states[n];
      assert AnyOrderRun(states[..n], ops[..n - 1], universe);
      RunConserves(states[..n], ops[..n - 1], universe);
      assert Step(s, ops[n - 1], s') && AnyOrder(s, ops[n - 1], universe);
      RetainedDisk(s, universe);
      LastSegment(s, universe);
      StepLimits(s, ops[n - 1], s', universe);
      match ops[n - 1] {
        case PushOp(rec) => PushRetained(s, rec, universe);
        case FlushOp => FlushShowsAll(s, s', universe);
        case CompactOp(threshold) => CompactRetained(s, threshold, s', universe);
        case ReopenOp => ReopenRetained(s, s', universe);
        case LoseOp(lost) => LoseRetained(s, lost, s', universe);
      }
      forall key ensures Stored(s', key) == Expected(ops, key) {
        assert Expected(ops, key) == Plain(Stored(s, key), ops[n - 1], key);
      }
    }
    forall key ensures multiset(Visible(states[n], key)) <= Stored(states[n], key) {
      RetainedVisible(states[n], universe, key);
    }
  }

  lemma {:induction false} CreatedRetained(s: State, universe: set<Series>)
    requires Created(s) && Usable(universe)
    ensures Retained(s, universe) && Limits(s) && forall key :: Stored(s, key) == multiset{}
  {
    hide Storable, Created, NoCollision, ColdPoints, MemPoints, PointsOf;
    CreatedOrdered(s, universe);
    forall key ensures Stored(s, key) == multiset{} && MemPoints(s.mem, key) == [] {
      ColdNone(key.labels);
      PointsOfNone(key);
      NoMemPoints(s.mem, key);
    }
  }
}
