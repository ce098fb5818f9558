/** What queries see after any run without retention: late points, crashes, and drops while
    segments left behind by a crash are on disk, in any order. */
module EngineViews {
  import opened Words
  import opened Model
  import opened Points
  import opened EngineState
  import opened EngineLemmas
  import opened EngineInvariant
  import opened EngineSteps
  import opened EngineMaintenance
  import opened EngineOpen
  import opened EngineSound
  import opened EngineRuns
  import opened EngineSafety
  import opened EngineQueries
  import opened QueryMerge
  import opened ChunkQuery
  import opened EngineLimits
  import SeriesKey

  // ---- the plain machine ----

  /** Points per series in use. */
  type Bags = map<Series, multiset<Point>>

  /** What is in chunk files, in segments left behind, in the open segment and in memory, and the
      time up to which memory is not read. */
  datatype View = View(cold: Bags, left: Bags, open: Bags, mem: Bags, mark: int)

  ghost function Nothing(universe: set<Series>): Bags {
    map key | key in universe :: multiset{}
  }

  function Both(a: Bags, b: Bags): Bags
    requires a.Keys == b.Keys
  {
    map key | key in a :: a[key] + b[key]
  }

  /** With the points of records added, or taken away. */
  ghost function With(a: Bags, recs: seq<Record>): Bags {
    map key | key in a :: a[key] + multiset(PointsOf(recs, key))
  }

  ghost function Less(a: Bags, recs: seq<Record>): Bags {
    map key | key in a :: a[key] - multiset(PointsOf(recs, key))
  }

  function Without(a: Bags, metric: Str, filter: Labels): Bags {
    map key | key in a :: if key.metric == metric && LabelsMatch(filter, key.labels) then multiset{} else a[key]
  }

  /** The points after a time. */
  ghost function Above(m: multiset<Point>, t: int): (r: multiset<Point>)
    ensures forall p :: r[p] == if p.ts > t then m[p] else 0
    decreases |m|
  {
    if m == multiset{} then multiset{}
    else
      var p :| p in m;
      var rest := Above(m - multiset{p}, t);
      if p.ts > t then rest + multiset{p} else rest
  }

  ghost function Later(a: Bags, t: int): Bags {
    map key | key in a :: Above(a[key], t)
  }

  /** The latest time, or zero. */
  ghost predicate IsNewest(a: Bags, t: int) {
    && t >= 0
    && (forall key, p :: key in a && p in a[key] ==> p.ts <= t)
    && (t == 0 || exists key, p :: key in a && p in a[key] && p.ts == t)
  }

  /** The times above zero. */
  ghost function Times(a: Bags): set<nat> {
    set key, p | key in a && p in a[key] && p.ts > 0 :: p.ts as nat
  }

  ghost function Newest(a: Bags): (t: int)
    ensures IsNewest(a, t)
  {
    TimesOf(a);
    if Times(a) == {} then 0 else Largest(Times(a))
  }

  lemma {:induction false} TimesOf(a: Bags)
    ensures forall key, p :: key in a && p in a[key] && p.ts > 0 ==> p.ts in Times(a)
    ensures forall t :: t in Times(a) ==> exists key, p :: key in a && p in a[key] && p.ts == t
  {
  }

  lemma {:induction false} NewestIs(a: Bags, t: int)
    requires IsNewest(a, t)
    ensures Newest(a) == t
  {
    hide Newest;
    assert IsNewest(a, Newest(a));
  }

  /** The views of the universe. */
  ghost predicate Proper(v: View, universe: set<Series>) {
    v.cold.Keys == universe && v.left.Keys == universe && v.open.Keys == universe && v.mem.Keys == universe
  }

  /** The open segment goes to chunk files, and the mark to its latest point. */
  ghost function Flushed(v: View): View
    requires v.cold.Keys == v.open.Keys
  {
    var t := Newest(v.open);
    var mem, mark := if t > 0 then Later(v.mem, t) else v.mem, if t > 0 then t else v.mark;
    View(Both(v.cold, v.open), v.left, map key | key in v.open :: multiset{}, mem, mark)
  }

  /** Memory comes from all segments and the mark from the chunk files. */
  ghost function Opened(v: View): View
    requires v.left.Keys == v.open.Keys
  {
    v.(mem := Both(v.left, v.open), mark := Newest(v.cold))
  }

  /** What each step does; a drop of a metric that is not known does nothing. */
  ghost function Change(v: View, op: Op, known: bool, universe: set<Series>): (v': View)
    requires Proper(v, universe)
    ensures Proper(v', universe)
  {
    match op
    case PushOp(rec) => v.(open := With(v.open, [rec]), mem := With(v.mem, [rec]))
    case FlushOp => Flushed(v)
    case CompactOp(_) => v
    case DropOp(metric, filter, _) =>
      if !known then v
      else
        var w := Flushed(v);
        w.(cold := Without(w.cold, metric, filter), mem := Without(w.mem, metric, filter))
    case ReopenOp => Opened(v)
    case CrashOp => Opened(v.(cold := Both(v.cold, v.open), left := Both(v.left, v.open), open := Nothing(universe)))
    case LoseOp(lost) => Opened(v.(open := Less(v.open, lost)))
  }

  /** The view after steps; `known` says of each drop whether its metric was known. */
  ghost function ViewAfter(ops: seq<Op>, known: seq<bool>, universe: set<Series>): (v: View)
    requires |known| == |ops|
    ensures Proper(v, universe)
    decreases |ops|
  {
    if ops == [] then View(Nothing(universe), Nothing(universe), Nothing(universe), Nothing(universe), 0)
    else
      var n := |ops| - 1;
      Change(ViewAfter(ops[..n], known[..n], universe), ops[n], known[n], universe)
  }

  /** What queries see of a series: its cold points, and those in memory after the mark. */
  ghost function Seen(v: View, key: Series): multiset<Point> {
    (if key in v.cold then v.cold[key] else multiset{})
    + (if key in v.mem then Above(v.mem[key], v.mark) else multiset{})
  }

  // ---- the view of a state ----

  ghost function LeftRecords(s: State): seq<Record> {
    Earlier(s.disk.wal, s.current)
  }

  ghost predicate ColdIs(chunks: map<Str, Files>, cold: Bags) {
    forall key :: key in cold ==> cold[key] == multiset(ColdPoints(DirOf(chunks, key.metric), key.labels))
  }

  ghost predicate RecordsAre(recs: seq<Record>, bags: Bags) {
    forall key :: key in bags ==> bags[key] == multiset(PointsOf(recs, key))
  }

  ghost predicate MemIs(mem: map<uint64, Record>, bags: Bags) {
    forall key :: key in bags ==> bags[key] == multiset(MemPoints(mem, key))
  }

  ghost predicate Shows(s: State, v: View, universe: set<Series>) {
    && Proper(v, universe)
    && ColdIs(s.disk.chunks, v.cold) && RecordsAre(LeftRecords(s), v.left) && RecordsAre(s.Segment(), v.open)
    && MemIs(s.mem, v.mem) && v.mark == s.flushedUpTo
  }

  lemma {:induction false} RecordsNone(universe: set<Series>)
    ensures RecordsAre([], Nothing(universe))
  {
    hide PointsOf;
    forall key | key in universe ensures PointsOf([], key) == [] {
      PointsOfNone(key);
    }
  }

  lemma {:induction false} RecordsBoth(a: seq<Record>, b: seq<Record>, x: Bags, y: Bags)
    requires RecordsAre(a, x) && RecordsAre(b, y) && x.Keys == y.Keys
    ensures RecordsAre(a + b, Both(x, y))
  {
    hide PointsOf;
    forall key | key in x ensures multiset(PointsOf(a + b, key)) == x[key] + y[key] {
      PointsOfConcat(a, b, key);
    }
  }

  lemma {:induction false} RecordsPush(recs: seq<Record>, rec: Record, bags: Bags)
    requires RecordsAre(recs, bags)
    ensures RecordsAre(recs + [rec], With(bags, [rec]))
  {
    hide PointsOf;
    forall key | key in bags
      ensures multiset(PointsOf(recs + [rec], key)) == bags[key] + multiset(PointsOf([rec], key))
    {
      PointsOfConcat(recs, [rec], key);
    }
  }

  lemma {:induction false} RecordsLess(kept: seq<Record>, lost: seq<Record>, bags: Bags)
    requires RecordsAre(kept + lost, bags)
    ensures RecordsAre(kept, Less(bags, lost))
  {
    hide PointsOf;
    forall key | key in bags ensures multiset(PointsOf(kept, key)) == bags[key] - multiset(PointsOf(lost, key)) {
      PointsOfConcat(kept, lost, key);
    }
  }

  lemma {:induction false} SameRecords(
    wal: map<nat, seq<Record>>, wal': map<nat, seq<Record>>, order: seq<nat>)
    requires forall n :: n in order ==> (n in wal <==> n in wal') && (n in wal ==> wal[n] == wal'[n])
    ensures AllRecords(wal, order) == AllRecords(wal', order)
    decreases order
  {
    if order != [] {
      SameRecords(wal, wal', order[..|order| - 1]);
    }
  }

  lemma {:induction false} SameEarlier(
    wal: map<nat, seq<Record>>, current: nat, wal': map<nat, seq<Record>>, current': nat)
    requires wal'.Keys - {current'} == wal.Keys - {current}
    requires forall n :: n in wal.Keys - {current} ==> wal'[n] == wal[n]
    ensures Earlier(wal', current') == Earlier(wal, current)
  {
    hide AllRecords, Ascending;
    SameRecords(wal, wal', Ascending(wal.Keys - {current}));
  }

  lemma {:induction false} UsableApart(universe: set<Series>)
    requires Usable(universe)
    ensures NoCollision(universe)
  {
    hide NoCollision, Storable;
  }

  // ---- push ----

  lemma {:induction false} MemPush(mem: map<uint64, Record>, rec: Record, bags: Bags, universe: set<Series>)
    requires NoCollision(universe) && GoodMem(mem, universe) && rec.Key() in universe
    requires MemIs(mem, bags) && bags.Keys == universe
    ensures MemIs(ApplyRecord(mem, rec), With(bags, [rec]))
  {
    hide NoCollision, PointsOf, MemPoints, ApplyRecord, InsertAll, GoodMem;
    forall key | key in bags
      ensures multiset(MemPoints(ApplyRecord(mem, rec), key)) == bags[key] + multiset(PointsOf([rec], key))
    {
      PointsOfOne(rec, key);
      ApplyPoints(mem, rec, universe, key);
      MemSorted(mem, universe, key);
      InsertAllKeepsOrder(MemPoints(mem, key), rec.points);
    }
  }

  lemma {:induction false} PushShows(s: State, rec: Record, v: View, universe: set<Series>)
    requires SoundData(s, universe) && GoodRecord(rec, universe) && Shows(s, v, universe)
    ensures Shows(Push(s, rec), Change(v, PushOp(rec), true, universe), universe)
  {
    hide Usable, ColdIs, RecordsAre, MemIs, ApplyRecord, IndexRecord, GoodMem, SoundChunks, Earlier, GoodRecord,
      GoodRecords, With;
    var s' := Push(s, rec);
    SameEarlier(s.disk.wal, s.current, s'.disk.wal, s'.current);
    UsableApart(universe);
    KnownRecord(rec, universe);
    RecordsPush(s.Segment(), rec, v.open);
    MemPush(s.mem, rec, v.mem, universe);
  }

  // ---- flush ----

  /** The latest time of the open segment is the newest of its bag. */
  lemma {:induction false} NewestOfRecords(recs: seq<Record>, bags: Bags, universe: set<Series>, t: int64)
    requires GoodRecords(recs, universe) && RecordsAre(recs, bags) && bags.Keys == universe && IsMaxTS(recs, t)
    ensures Newest(bags) == t
  {
    hide PointsOf, Newest;
    forall key, p | key in bags && p in bags[key] ensures p.ts <= t {
      assert p in PointsOf(recs, key);
      PointsOfMember(recs, key, p);
    }
    if t != 0 {
      var rec, p :| rec in recs && p in rec.points && p.ts == t;
      assert GoodRecord(rec, universe);
      PointsOfHas(recs, rec, p);
      assert p in bags[rec.Key()];
    }
    NewestIs(bags, t);
  }

  lemma {:induction false} WrittenIs(
    chunks: map<Str, Files>, recs: seq<Record>, chunks': map<Str, Files>, cold: Bags, open: Bags)
    requires ColdIs(chunks, cold) && RecordsAre(recs, open) && cold.Keys == open.Keys
    requires ChunksWritten(chunks, recs, chunks')
    ensures ColdIs(chunks', Both(cold, open))
  {
    hide ColdPoints, PointsOf, ChunksWritten, InsertAll;
    forall key | key in cold
      ensures multiset(ColdPoints(DirOf(chunks', key.metric), key.labels)) == cold[key] + open[key]
    {
      WrittenCold(chunks, recs, chunks', key);
      NoneSorted();
      InsertAllKeepsOrder([], PointsOf(recs, key));
    }
  }

  lemma {:induction false} EvictShows(mem: map<uint64, Record>, t: int64, bags: Bags, universe: set<Series>)
    requires GoodMem(mem, universe) && MemIs(mem, bags)
    ensures MemIs(Evict(mem, t), Later(bags, t))
  {
    hide MemPoints, Evict, After, GoodMem;
    forall key | key in bags ensures multiset(MemPoints(Evict(mem, t), key)) == Above(bags[key], t) {
      EvictPoints(mem, t, universe, key);
      MemSorted(mem, universe, key);
      AfterCounts(MemPoints(mem, key), t);
    }
  }

  lemma {:induction false} NothingNewest(cold: Bags, bags: Bags)
    requires RecordsAre([], bags) && cold.Keys == bags.Keys
    ensures Newest(bags) == 0 && Both(cold, bags) == cold
  {
    hide Newest;
    forall key | key in bags ensures bags[key] == multiset{} {
      PointsOfNone(key);
    }
    NewestIs(bags, 0);
    assert forall key :: key in cold ==> Both(cold, bags)[key] == cold[key];
  }

  lemma {:induction false} FlushShows(s: State, s': State, v: View, universe: set<Series>)
    requires SoundData(s, universe) && Shows(s, v, universe) && Flush(s, s')
    ensures Proper(Flushed(v), universe) && Shows(s', Flushed(v), universe)
  {
    hide Usable, ColdIs, RecordsAre, MemIs, ChunksWritten, IsMaxTS, GoodMem, SoundChunks, GoodRecords, Evict, Newest,
      Later, Earlier, Both;
    SameEarlier(s.disk.wal, s.current, s'.disk.wal, s'.current);
    RecordsNone(universe);
    assert Flushed(v).open == Nothing(universe);
    BothKeys(v.cold, v.open);
    LaterKeys(v.mem, Newest(v.open));
    if s.Segment() == [] {
      NothingNewest(v.cold, v.open);
    } else {
      var t: int64 :| IsMaxTS(s.Segment(), t) && Watermark(s, t, s');
      WrittenIs(s.disk.chunks, s.Segment(), s'.disk.chunks, v.cold, v.open);
      NewestOfRecords(s.Segment(), v.open, universe, t);
      EvictShows(s.mem, t, v.mem, universe);
    }
  }

  lemma {:induction false} BothKeys(a: Bags, b: Bags)
    requires a.Keys == b.Keys
    ensures Both(a, b).Keys == a.Keys
  {
  }

  lemma {:induction false} LaterKeys(a: Bags, t: int)
    ensures Later(a, t).Keys == a.Keys
  {
  }

  // ---- compaction and drop ----

  lemma {:induction false} CompactShows(s: State, threshold: int, s': State, v: View, universe: set<Series>)
    requires Shows(s, v, universe) && Compact(s, threshold, s')
    ensures Shows(s', v, universe)
  {
    hide RecordsAre, MemIs, Earlier, Compact, ColdIs;
    CompactIs(s, threshold, s', v.cold);
  }

  lemma {:induction false} CompactIs(s: State, threshold: int, s': State, cold: Bags)
    requires ColdIs(s.disk.chunks, cold) && Compact(s, threshold, s')
    ensures ColdIs(s'.disk.chunks, cold) && s' == s.(disk := s.disk.(chunks := s'.disk.chunks))
  {
    hide ColdPoints, CompactedDir;
    forall key | key in cold
      ensures cold[key] == multiset(ColdPoints(DirOf(s'.disk.chunks, key.metric), key.labels))
    {
      var m := key.metric;
      assert m in s'.disk.chunks <==> m in s.disk.chunks;
      if m in s.disk.chunks {
        CompactedCold(s.disk.chunks[m], threshold, s'.disk.chunks[m], key.labels);
      }
    }
  }

  lemma {:induction false} DroppedIs(
    chunks: map<Str, Files>, metric: Str, filter: Labels, chunks': map<Str, Files>, cold: Bags)
    requires ColdIs(chunks, cold) && DroppedDir(chunks, metric, filter, chunks')
    ensures ColdIs(chunks', Without(cold, metric, filter))
  {
    hide ColdPoints, DroppedDir, LabelsMatch;
    forall key | key in cold
      ensures ColdPoints(DirOf(chunks', key.metric), key.labels)
           == if key.metric == metric && LabelsMatch(filter, key.labels) then []
              else ColdPoints(DirOf(chunks, key.metric), key.labels)
    {
      DroppedColdDir(chunks, metric, filter, chunks', key);
    }
  }

  lemma {:induction false} MemDropped(mem: map<uint64, Record>, metric: Str, filter: Labels, bags: Bags)
    requires MemIs(mem, bags)
    ensures MemIs(EvictMatching(mem, metric, filter), Without(bags, metric, filter))
  {
    hide LabelsMatch, SeriesKey.Hash;
  }

  lemma {:induction false} DropAfterFlushShows(
    s: State, metric: Str, filter: Labels, s': State, v: View, universe: set<Series>)
    requires Shows(s, v, universe) && DropAfterFlush(s, metric, metric, filter, s')
    ensures Shows(s', v.(cold := Without(v.cold, metric, filter), mem := Without(v.mem, metric, filter)), universe)
  {
    hide ColdIs, RecordsAre, MemIs, Earlier, DroppedDir, DroppedIndex, EvictMatching;
    DroppedIs(s.disk.chunks, metric, filter, s'.disk.chunks, v.cold);
    MemDropped(s.mem, metric, filter, v.mem);
  }

  /** The metric of a drop is listed or has a directory. */
  ghost predicate Known(s: State, op: Op) {
    op.DropOp? ==> op.metric in s.index || op.metric in s.disk.chunks
  }

  lemma {:induction false} DropShows(
    s: State, metric: Str, filter: Labels, s': State, dropped: bool, v: View, universe: set<Series>)
    requires SoundData(s, universe) && Shows(s, v, universe) && Drop(s, metric, metric, filter, s', dropped)
    ensures
      var op := DropOp(metric, filter, dropped);
      Shows(s', Change(v, op, Known(s, op), universe), universe)
  {
    hide SoundData, Flush, DropAfterFlush, AnyMatch, Flushed, ColdIs, RecordsAre, MemIs, Earlier, Without;
    if metric in s.index || metric in s.disk.chunks {
      var mid :| Flush(s, mid) && DropAfterFlush(mid, metric, metric, filter, s')
        && (dropped <==> AnyMatch(mid, metric, metric, filter));
      FlushShows(s, mid, v, universe);
      DropAfterFlushShows(mid, metric, filter, s', Flushed(v), universe);
    }
  }

  // ---- open ----

  /** The latest header maximum is the newest time in the chunk files. */
  lemma {:induction false} NewestOfChunks(chunks: map<Str, Files>, cold: Bags, universe: set<Series>, t: int64)
    requires SoundChunks(chunks, universe) && ColdIs(chunks, cold) && cold.Keys == universe && IsMaxChunkTS(chunks, t)
    ensures Newest(cold) == t
  {
    hide SoundChunks, ColdIs, Newest, IsMaxChunkTS, IsNewest;
    assert IsNewest(cold, t) by {
      NoneNewer(chunks, cold, universe, t);
      MarkReached(chunks, cold, universe, t);
      assert IsNewest(cold, t) by { NewestParts(cold, t); }
    }
    NewestIs(cold, t);
  }

  lemma {:induction false} NewestParts(a: Bags, t: int)
    requires t >= 0 && forall key, p :: key in a && p in a[key] ==> p.ts <= t
    requires t == 0 || exists key, p :: key in a && p in a[key] && p.ts == t
    ensures IsNewest(a, t)
  {
  }

  lemma {:induction false} NoneNewer(chunks: map<Str, Files>, cold: Bags, universe: set<Series>, t: int64)
    requires SoundChunks(chunks, universe) && ColdIs(chunks, cold) && cold.Keys == universe && IsMaxChunkTS(chunks, t)
    ensures t >= 0 && forall key, p :: key in cold && p in cold[key] ==> p.ts <= t
  {
    hide ColdPoints, SoundChunks;
    forall key, p | key in cold && p in cold[key] ensures p.ts <= t {
      assert p in ColdPoints(DirOf(chunks, key.metric), key.labels);
      ColdUnder(chunks, universe, key, p);
    }
  }

  lemma {:induction false} MarkReached(chunks: map<Str, Files>, cold: Bags, universe: set<Series>, t: int64)
    requires SoundChunks(chunks, universe) && ColdIs(chunks, cold) && cold.Keys == universe && IsMaxChunkTS(chunks, t)
    ensures t == 0 || exists key, p :: key in cold && p in cold[key] && p.ts == t
  {
    hide ColdPoints, SoundChunks;
    if t != 0 {
      var m, n :| m in chunks && n in chunks[m] && chunks[m][n].maxTS == t;
      var key, p := HeaderReached(chunks, universe, m, n);
      assert p in cold[key];
    }
  }

  lemma {:induction false} ColdUnder(chunks: map<Str, Files>, universe: set<Series>, key: Series, p: Point)
    requires SoundChunks(chunks, universe) && p in ColdPoints(DirOf(chunks, key.metric), key.labels)
    ensures key in universe
    ensures key.metric in chunks && exists n :: n in chunks[key.metric] && p.ts <= chunks[key.metric][n].maxTS
  {
    hide GoodFile, ColdPoints;
    if key.metric !in chunks {
      ColdNone(key.labels);
    } else {
      assert SoundFiles(chunks[key.metric], key.metric, universe);
      ColdInHeader(chunks[key.metric], key.metric, universe, key.labels, p);
    }
  }

  lemma {:induction false} HeaderReached(
    chunks: map<Str, Files>, universe: set<Series>, m: Str, n: nat) returns (key: Series, p: Point)
    requires SoundChunks(chunks, universe) && m in chunks && n in chunks[m]
    ensures key in universe && p in ColdPoints(DirOf(chunks, key.metric), key.labels) && p.ts == chunks[m][n].maxTS
  {
    hide ColdPoints, GoodSeries;
    var f := chunks[m][n];
    assert SoundFiles(chunks[m], m, universe) && GoodFile(f, m, universe);
    var d;
    d, p :| d in f.series && p in d.points && p.ts == f.maxTS;
    HeldInDir(chunks[m], n, d, p);
    key := Series(m, d.labels);
  }

  lemma {:induction false} ReplayedIs(recs: seq<Record>, bags: Bags, universe: set<Series>)
    requires NoCollision(universe) && GoodRecords(recs, universe) && RecordsAre(recs, bags) && bags.Keys == universe
    ensures MemIs(ReplayMem(recs), bags)
  {
    hide NoCollision, GoodRecords, PointsOf, MemPoints, ReplayMem, InsertAll;
    forall key | key in bags ensures multiset(MemPoints(ReplayMem(recs), key)) == bags[key] {
      ReplayPoints(recs, universe, key);
      NoneSorted();
      InsertAllKeepsOrder([], PointsOf(recs, key));
    }
  }

  /** What opening a disk shows; the view already has the disk's chunk files and segments. */
  lemma {:induction false} OpenShowsView(disk: Disk, current: nat, s: State, v: View, universe: set<Series>)
    requires Usable(universe) && GoodWal(disk.wal, current, universe) && SoundChunks(disk.chunks, universe)
    requires Open(disk, s) && Proper(v, universe) && ColdIs(disk.chunks, v.cold)
    requires RecordsAre(Earlier(disk.wal, current), v.left) && RecordsAre(disk.wal[current], v.open)
    ensures Shows(s, Opened(v), universe)
  {
    hide Usable, ColdIs, RecordsAre, MemIs, SoundChunks, GoodRecords, ReplayMem, ReplayIndex, AllRecords, Ascending,
      Newest, IsMaxChunkTS, Earlier, Both;
    SplitRecords(disk.wal, current, universe);
    UsableApart(universe);
    RecordsKnown(disk.wal, Ascending(disk.wal.Keys), universe);
    RecordsBoth(Earlier(disk.wal, current), disk.wal[current], v.left, v.open);
    BothKeys(v.left, v.open);
    ReplayedIs(AllRecords(disk.wal, Ascending(disk.wal.Keys)), Both(v.left, v.open), universe);
    NewestOfChunks(disk.chunks, v.cold, universe, s.flushedUpTo);
  }

  lemma {:induction false} ReopenShows(s: State, s': State, v: View, universe: set<Series>)
    requires SoundData(s, universe) && Shows(s, v, universe) && Open(s.disk, s')
    ensures Shows(s', Opened(v), universe)
  {
    hide Usable, ColdIs, MemIs, SoundChunks, GoodRecords, Open, RecordsAre, Earlier, Opened, GoodMem;
    OpenShowsView(s.disk, s.current, s', v, universe);
  }

  lemma {:induction false} LoseShows(s: State, lost: seq<Record>, s': State, v: View, universe: set<Series>)
    requires SoundData(s, universe) && Shows(s, v, universe) && LoseTail(s, lost, s')
    ensures Shows(s', Change(v, LoseOp(lost), true, universe), universe)
  {
    hide Usable, ColdIs, RecordsAre, MemIs, SoundChunks, GoodRecord, Open, Earlier, Opened, GoodMem, Less;
    var kept :| s.Segment() == kept + lost && Open(Disk(s.disk.wal[s.current := kept], s.disk.chunks), s');
    var disk := Disk(s.disk.wal[s.current := kept], s.disk.chunks);
    assert forall rec :: rec in kept ==> rec in kept + lost;
    SameEarlier(s.disk.wal, s.current, disk.wal, s.current);
    RecordsLess(kept, lost, v.open);
    LessKeys(v.open, lost);
    OpenShowsView(disk, s.current, s', v.(open := Less(v.open, lost)), universe);
  }

  lemma {:induction false} LessKeys(a: Bags, recs: seq<Record>)
    ensures Less(a, recs).Keys == a.Keys
  {
  }

  lemma {:induction false} CrashShows(s: State, s': State, v: View, universe: set<Series>)
    requires SoundData(s, universe) && Shows(s, v, universe) && CrashInFlush(s, s')
    ensures Shows(s', Change(v, CrashOp, true, universe), universe)
  {
    hide Usable, ColdIs, RecordsAre, MemIs, SoundChunks, GoodRecord, Open, Opened, GoodMem, ChunksWritten, Earlier,
      Both, Nothing;
    var chunks' :| ChunksWritten(s.disk.chunks, s.Segment(), chunks')
      && Open(Disk(s.disk.wal[s.current + 1 := []], chunks'), s');
    var n := s.current + 1;
    var disk := Disk(s.disk.wal[n := []], chunks');
    WrittenSound(s.disk.chunks, s.Segment(), chunks', universe);
    AllEarlier(s.disk.wal, s.current, universe);
    RecordsBoth(LeftRecords(s), s.Segment(), v.left, v.open);
    WrittenIs(s.disk.chunks, s.Segment(), chunks', v.cold, v.open);
    RecordsNone(universe);
    BothKeys(v.cold, v.open);
    BothKeys(v.left, v.open);
    NothingKeys(universe);
    var w := v.(cold := Both(v.cold, v.open), left := Both(v.left, v.open), open := Nothing(universe));
    OpenShowsView(disk, n, s', w, universe);
  }

  lemma {:induction false} NothingKeys(universe: set<Series>)
    ensures Nothing(universe).Keys == universe
  {
  }

  /** With a new segment after it, the one that was open counts as left. */
  lemma {:induction false} AllEarlier(wal: map<nat, seq<Record>>, current: nat, universe: set<Series>)
    requires GoodWal(wal, current, universe)
    ensures Earlier(wal[current + 1 := []], current + 1) == Earlier(wal, current) + wal[current]
  {
    hide AllRecords, Ascending, GoodRecords;
    SplitRecords(wal, current, universe);
    var wal' := wal[current + 1 := []];
    assert wal'.Keys - {current + 1} == wal.Keys;
    SameRecords(wal, wal', Ascending(wal.Keys));
  }

  // ---- runs ----

  lemma {:induction false} StepShows(s: State, op: Op, s': State, v: View, universe: set<Series>)
    requires SoundData(s, universe) && Shows(s, v, universe) && Step(s, op, s') && Fits(s, op, universe)
    ensures Shows(s', Change(v, op, Known(s, op), universe), universe)
  {
    hide SoundData, Shows, Flush, Compact, Drop, Open, CrashInFlush, LoseTail, GoodRecord, Push, HasRoom, CanNumber,
      Flushed, Opened, Known;
    match op
    case PushOp(rec) => PushShows(s, rec, v, universe);
    case FlushOp => FlushShows(s, s', v, universe);
    case CompactOp(threshold) => CompactShows(s, threshold, s', v, universe);
    case DropOp(metric, filter, dropped) => DropShows(s, metric, filter, s', dropped, v, universe);
    case ReopenOp => ReopenShows(s, s', v, universe);
    case CrashOp => CrashShows(s, s', v, universe);
    case LoseOp(lost) => LoseShows(s, lost, s', v, universe);
  }

  /** A run without retention whose steps fit, in any order. */
  ghost predicate FreeRun(states: seq<State>, ops: seq<Op>, universe: set<Series>) {
    IsRun(states, ops) && forall i :: 0 <= i < |ops| ==> Fits(states[i], ops[i], universe)
  }

  /** Of each drop, whether its metric was known. */
  ghost function Knowledge(states: seq<State>, ops: seq<Op>): (r: seq<bool>)
    requires |states| == |ops| + 1
    ensures |r| == |ops|
  {
    seq(|ops|, i requires 0 <= i < |ops| => Known(states[i], ops[i]))
  }

  lemma {:induction false} FreeRunSound(states: seq<State>, ops: seq<Op>, universe: set<Series>)
    requires Usable(universe) && FreeRun(states, ops, universe)
    ensures SoundData(states[|ops|], universe)
  {
    hide Usable, SoundData, Step, Fits, Created, Limits, AllFrom;
    var any := seq(|ops|, i requires 0 <= i < |ops| => Do(ops[i]));
    assert AnyRun(states, any, universe);
    NothingInvented(states, any, universe);
  }

  /** Exactly what queries see after any run of pushes, flushes, compactions, drops, reopenings,
      crashes in flushes and losses of segment ends, in any order and with any timestamps above
      zero: the cold points of the plain machine and its points in memory after the mark. */
  lemma {:induction false} RunViews(states: seq<State>, ops: seq<Op>, universe: set<Series>)
    requires Usable(universe) && FreeRun(states, ops, universe)
    ensures
      var v := ViewAfter(ops, Knowledge(states, ops), universe);
      Shows(states[|ops|], v, universe) && forall key :: multiset(Visible(states[|ops|], key)) == Seen(v, key)
    decreases |ops|
  {
    hide Usable, SoundData, Shows, Step, Fits, Created, Change, Visible, Seen, Known;
    var n := |ops|;
    if n == 0 {
      CreatedShows(states[0], universe);
    } else {
      var most, before := states[..n], ops[..n - 1];
      assert FreeRun(most, before, universe);
      RunViews(most, before, universe);
      FreeRunSound(most, before, universe);
      assert Knowledge(states, ops)[..n - 1] == Knowledge(most, before);
      StepShows(states[n - 1], ops[n - 1], states[n], ViewAfter(before, Knowledge(most, before), universe), universe);
    }
    FreeRunSound(states, ops, universe);
    var v := ViewAfter(ops, Knowledge(states, ops), universe);
    forall key ensures multiset(Visible(states[n], key)) == Seen(v, key) {
      ShowsSeen(states[n], v, universe, key);
    }
  }

  lemma {:induction false} CreatedShows(s: State, universe: set<Series>)
    requires Usable(universe) && Created(s)
    ensures
      var none := Nothing(universe);
      Shows(s, View(none, none, none, none, 0), universe)
  {
    hide Usable, Created, ColdIs, RecordsAre, MemIs, Ordered, Limits, Earlier, Nothing;
    CreatedOrdered(s, universe);
    CreatedMark(s);
    CleanEarlier(s);
    RecordsNone(universe);
    NothingKeys(universe);
    NothingThereYet(s, universe);
  }

  lemma {:induction false} CleanEarlier(s: State)
    requires Clean(s)
    ensures LeftRecords(s) == []
  {
    hide Ascending, AllRecords;
    assert s.disk.wal.Keys - {s.current} == {};
    NoEarlier(s.disk.wal);
  }

  lemma {:induction false} NothingThereYet(s: State, universe: set<Series>)
    requires s.disk.chunks == map[] && s.mem == map[]
    ensures ColdIs(s.disk.chunks, Nothing(universe)) && MemIs(s.mem, Nothing(universe))
  {
    hide ColdPoints, MemPoints;
    forall key | key in universe
      ensures ColdPoints(DirOf(s.disk.chunks, key.metric), key.labels) == [] && MemPoints(s.mem, key) == []
    {
      ColdNone(key.labels);
      NoMemPoints(s.mem, key);
    }
  }

  lemma {:induction false} CreatedMark(s: State)
    requires Created(s)
    ensures s.flushedUpTo == 0
  {
    hide AllRecords, ReplayMem, ReplayIndex;
  }

  lemma {:induction false} ShowsSeen(s: State, v: View, universe: set<Series>, key: Series)
    requires SoundData(s, universe) && Shows(s, v, universe)
    ensures multiset(Visible(s, key)) == Seen(v, key)
  {
    hide Usable, ColdPoints, MemPoints, SoundChunks, GoodWal, GoodMem, RecordsAre, After, Earlier, HotPoints, Above;
    NothingAbove(v.mark);
    HotUnfold(s, key);
    MemSorted(s.mem, universe, key);
    var ps := MemPoints(s.mem, key);
    AfterCounts(ps, s.flushedUpTo);
    AfterOfAbove(ps, 0);
    if key in universe {
      assert multiset(HotPoints(s, key)) == Above(v.mem[key], v.mark);
    } else {
      if ColdPoints(s.Dir(key.metric), key.labels) != [] {
        ColdUnder(s.disk.chunks, universe, key, ColdPoints(s.Dir(key.metric), key.labels)[0]);
      }
      AfterNone(s.flushedUpTo);
    }
  }

  /** A query answer after such a run holds each matching series with points in range once, with
      exactly the points in range that the plain machine shows. */
  lemma {:induction false} ViewAnswers(
    states: seq<State>, ops: seq<Op>, universe: set<Series>, results: seq<Record>, metric: Str, filter: Labels,
    from: int, to: int)
    requires Usable(universe) && FreeRun(states, ops, universe)
    requires Answer(results, metric, filter, VisibleContent(states[|ops|], from, to))
    ensures
      var v := ViewAfter(ops, Knowledge(states, ops), universe);
      && (forall i, j :: 0 <= i < j < |results| ==> results[i].Key() != results[j].Key())
      && (forall rec :: rec in results ==>
            && rec.metric == metric && LabelsMatch(filter, rec.labels) && rec.points != []
            && IsRange(rec.points, Seen(v, rec.Key()), from, to))
      && (forall key: Series, p: Point ::
            key.metric == metric && LabelsMatch(filter, key.labels) && p in Seen(v, key) && InRange(p, from, to) ==>
              Mentions(results, key))
  {
    hide Usable, Visible, Filter, InRange, LabelsMatch, Step, Fits, Created, Seen, IsRange, ViewAfter, Shows, Known;
    var s, v := states[|ops|], ViewAfter(ops, Knowledge(states, ops), universe);
    RunViews(states, ops, universe);
    forall rec | rec in results ensures IsRange(rec.points, Seen(v, rec.Key()), from, to) {
      assert AnswerEntry(rec, metric, filter, VisibleContent(s, from, to));
      ContentIsRange(Visible(s, rec.Key()), from, to);
    }
    forall key: Series, p: Point | key.metric == metric && LabelsMatch(filter, key.labels)
      && p in Seen(v, key) && InRange(p, from, to)
      ensures Mentions(results, key)
    {
      InContent(Visible(s, key), Seen(v, key), from, to, p);
    }
  }

  /** After a drop and a reopening a dropped series has exactly its points in segments left behind
      that are after everything in the chunk files. */
  lemma {:induction false} DroppedComesBack(
    v: View, metric: Str, filter: Labels, dropped: bool, universe: set<Series>, key: Series)
    requires Proper(v, universe) && key in universe && key.metric == metric && LabelsMatch(filter, key.labels)
    ensures
      var w := Change(v, DropOp(metric, filter, dropped), true, universe);
      Seen(w, key) == multiset{} && Seen(Change(w, ReopenOp, true, universe), key) == Above(v.left[key], Newest(w.cold))
  {
    hide LabelsMatch, Newest, Above, Change, Both;
    var w := Change(v, DropOp(metric, filter, dropped), true, universe);
    DroppedView(v, metric, filter, dropped, universe, key);
    ReopenedView(w, universe);
    NothingAbove(w.mark);
    BothAt(w.left, w.open, key);
  }

  lemma {:induction false} ReopenedView(v: View, universe: set<Series>)
    requires Proper(v, universe)
    ensures Change(v, ReopenOp, true, universe) == v.(mem := Both(v.left, v.open), mark := Newest(v.cold))
  {
    hide Newest, Both;
  }

  lemma {:induction false} DroppedView(
    v: View, metric: Str, filter: Labels, dropped: bool, universe: set<Series>, key: Series)
    requires Proper(v, universe) && key in universe && key.metric == metric && LabelsMatch(filter, key.labels)
    ensures
      var w := Change(v, DropOp(metric, filter, dropped), true, universe);
      w.left == v.left && w.open[key] == multiset{} && w.cold[key] == multiset{} && w.mem[key] == multiset{}
  {
    hide LabelsMatch, Newest, Above, Flushed, Without, Both;
    FlushedParts(v, universe, key);
    DroppedBag(Flushed(v).cold, metric, filter, key);
    DroppedBag(Flushed(v).mem, metric, filter, key);
  }

  lemma {:induction false} FlushedParts(v: View, universe: set<Series>, key: Series)
    requires Proper(v, universe) && key in universe
    ensures Proper(Flushed(v), universe) && Flushed(v).left == v.left && Flushed(v).open[key] == multiset{}
  {
    hide Newest, Above;
  }

  lemma {:induction false} DroppedBag(a: Bags, metric: Str, filter: Labels, key: Series)
    requires key in a && key.metric == metric && LabelsMatch(filter, key.labels)
    ensures Without(a, metric, filter).Keys == a.Keys && Without(a, metric, filter)[key] == multiset{}
  {
    hide LabelsMatch;
  }

  lemma {:induction false} BothAt(a: Bags, b: Bags, key: Series)
    requires a.Keys == b.Keys && key in a
    ensures Both(a, b).Keys == a.Keys && Both(a, b)[key] == a[key] + b[key]
  {
  }

  lemma {:induction false} NothingAbove(t: int)
    ensures Above(multiset{}, t) == multiset{}
  {
  }
}
