/** A database that serves a sequence of requests, against the plain map. */
module Session {
  import opened Words
  import opened Model
  import opened Points
  import opened Names
  import opened ChunkFormat
  import opened EngineState
  import opened EngineLemmas
  import opened EngineInvariant
  import opened EngineSteps
  import opened EngineMaintenance
  import opened EngineLimits
  import opened EngineRuns
  import opened EngineSound
  import opened ChunkQuery
  import opened QueryMerge
  import opened EngineQueries
  import opened EngineOrder
  import opened Aggregate
  import opened QueryWindow
  import opened DiskContent
  import opened DiskState
  import opened Requests
  import opened Database

  // ---- one request ----

  /** What each step may rely on. */
  lemma {:induction false} Ready(s: State, done: seq<Request>, next: Request, op: Op, universe: set<Series>)
    requires Bounded(s, done) && Proper(done, next, universe) && Makes(next, op) && |done| < NUMBERS - 2
    ensures AfterWatermark(s, op, universe)
    ensures op.PushOp? ==>
              op.rec.metric != [] && op.rec.points != [] && GoodRecord(op.rec, universe) && HasRoom(s, op.rec)
    ensures op.FlushOp? || op.CompactOp? || op.DropOp? ==> CanNumber(s)
    ensures op.DropOp? ==> OwnName(op.metric)
  {
    hide Bounded, HasRoom, CanNumber, AllAbove;
    ProperFits(s, done, next, op, universe);
  }

  /** In a run in time order a drop leaves no series of the metric in memory without its
      directory. */
  lemma {:induction false} DropLeaves(
    s: State, metric: Str, filter: Labels, s': State, dropped: bool, universe: set<Series>)
    requires Ordered(s, universe) && Clean(s) && Drop(s, metric, metric, filter, s', dropped)
    requires metric in s.index || metric in s.disk.chunks
    ensures metric in s'.disk.chunks || !InMemory(s'.mem, metric)
  {
    hide Ordered, Clean, Drop, Shape, Sound, InMemory;
    DropKeeps(s, metric, filter, s', dropped, universe);
    OrderedShape(s, universe);
    OrderedShape(s', universe);
    ShapeSound(s, universe);
    ShapeSound(s', universe);
    DropSoundExactly(s, metric, metric, filter, s', dropped, universe);
  }

  method DoDrop(db: Db, metric: Str, filter: Labels, ghost universe: set<Series>) returns (dropped: bool)
    requires db.Valid(universe) && Ordered(db.State(), universe) && Clean(db.State())
    requires CanNumber(db.State()) && OwnName(metric)
    modifies db, db.shards, db.index, db.wm
    ensures db.Valid(universe) && Drop(old(db.State()), metric, metric, filter, db.State(), dropped)
  {
    hide Ordered, Clean, Whole, Drop, CanNumber, InMemory, WalContents, Contents;
    ghost var s := db.State();
    OwnDirectory(metric);
    var r := db.DropMetric(metric, filter, universe);
    dropped := r.value;
    if metric in s.index || metric in s.disk.chunks {
      DropLeaves(s, metric, filter, db.State(), dropped, universe);
    }
  }

  /** A new object over the bytes that the old one has left. */
  method DoReopen(db: Db, ghost universe: set<Series>) returns (db': Db)
    requires db.Valid(universe)
    ensures fresh(db') && fresh(db'.shards) && fresh(db'.index) && fresh(db'.wm)
    ensures db'.Valid(universe) && Open(db.State().disk, db'.State())
  {
    hide Whole, Open, Openable, AllReplay, DiskOf;
    LeftOpenable(db.wm.segments, db.chunks, db.State(), universe);
    var r := OpenDb(db.wm.segments, db.chunks, universe);
    db' := r.value;
  }

  /** The database does one request. */
  method Do(db: Db, request: Request, ghost done: seq<Request>, ghost universe: set<Series>)
    returns (db': Db, ghost op: Op)
    requires db.Valid(universe) && Ordered(db.State(), universe) && Clean(db.State())
    requires Bounded(db.State(), done) && Proper(done, request, universe) && |done| < NUMBERS - 2
    modifies db, db.shards, db.index, db.wm
    ensures db' == db || (fresh(db') && fresh(db'.shards) && fresh(db'.index) && fresh(db'.wm))
    ensures db'.Valid(universe) && Makes(request, op)
    ensures AfterWatermark(old(db.State()), op, universe) && Step(old(db.State()), op, db'.State())
  {
    hide Ordered, Clean, Bounded, Proper, Whole, Open, Push, Flush, Compact, Drop, AfterWatermark, CanNumber, HasRoom,
      GoodRecord, DiskOf, OwnName;
    ghost var s := db.State();
    db' := db;
    match request {
      case PushRequest(rec) =>
        op := PushOp(rec);
        Ready(s, done, request, op, universe);
        var _, _ := db.PushBatch(rec.metric, rec.labels, rec.points, universe);
      case FlushRequest =>
        op := FlushOp;
        Ready(s, done, request, op, universe);
        db.ValidFlushes(universe);
        var _ := db.FlushToChunks(universe);
      case CompactRequest(threshold) =>
        op := CompactOp(threshold);
        Ready(s, done, request, op, universe);
        db.Compact(threshold, universe);
      case DropRequest(metric, filter) =>
        Ready(s, done, request, DropOp(metric, filter, false), universe);
        var dropped := DoDrop(db, metric, filter, universe);
        op := DropOp(metric, filter, dropped);
        Ready(s, done, request, op, universe);
      case ReopenRequest =>
        op := ReopenOp;
        Ready(s, done, request, op, universe);
        db' := DoReopen(db, universe);
    }
  }

  // ---- all requests ----

  /** An answer of the plain map: each matching series with points in range exactly once, with
      exactly those points, in time order. */
  ghost predicate PlainAnswer(
    results: seq<Record>, requests: seq<Request>, metric: Str, filter: Labels, from: int, to: int)
  {
    && (forall i, j :: 0 <= i < j < |results| ==> results[i].Key() != results[j].Key())
    && (forall rec :: rec in results ==>
          && rec.metric == metric && !Lacks(rec.labels, filter) && rec.points != []
          && Sorted(rec.points) && IsRange(rec.points, PlainMap(requests, rec.Key()), from, to))
    && AllAnswered(results, requests, metric, filter, from, to)
  }

  /** Every series of the metric that lacks no label of the filter and has a point in range is
      answered. */
  ghost predicate AllAnswered(
    results: seq<Record>, requests: seq<Request>, metric: Str, filter: Labels, from: int, to: int)
  {
    forall key: Series ::
      key.metric == metric && !Lacks(key.labels, filter) && SomeInTime(PlainMap(requests, key), from, to) ==>
        Mentions(results, key)
  }

  ghost predicate SomeInTime(points: multiset<Point>, from: int, to: int) {
    exists p :: p in points && (from <= 0 || from <= p.ts) && (to <= 0 || p.ts <= to)
  }

  /** The states so far are a run that the requests make, in time order. */
  ghost predicate Runs(states: seq<State>, ops: seq<Op>, done: seq<Request>, universe: set<Series>) {
    && IsRun(states, ops) && AllMake(done, ops) && Bounded(states[|ops|], done)
    && forall i :: 0 <= i < |ops| ==> AfterWatermark(states[i], ops[i], universe) && !ops[i].CrashOp?
  }

  lemma {:induction false} RunsStart(s: State, universe: set<Series>)
    requires Open(Disk(map[], map[]), s)
    ensures Runs([s], [], [], universe)
  {
    hide Open, Bounded;
    CreatedBounded(s);
  }

  lemma {:induction false} RunsOrdered(states: seq<State>, ops: seq<Op>, done: seq<Request>, universe: set<Series>)
    requires Usable(universe) && Runs(states, ops, done, universe)
    ensures |states| == |ops| + 1 && AllMake(done, ops) && Bounded(states[|ops|], done)
    ensures OrderedRun(states, ops, universe) && Ordered(states[|ops|], universe) && Clean(states[|ops|])
  {
    hide Usable, Bounded, AfterWatermark, Step, Created, Ordered, Clean, Limits, Visible, Sorted, OrderedRun;
    RunsClean(states, ops, universe);
    RunRefines(states, ops, universe);
  }

  lemma {:induction false} RunsMore(
    states: seq<State>, ops: seq<Op>, done: seq<Request>, universe: set<Series>, request: Request, op: Op, s: State)
    requires Runs(states, ops, done, universe) && Makes(request, op)
    requires Ordered(states[|ops|], universe)
    requires AfterWatermark(states[|ops|], op, universe) && Step(states[|ops|], op, s)
    ensures Runs(states + [s], ops + [op], done + [request], universe)
  {
    hide Bounded, AfterWatermark, Step, Created, Ordered;
    StepBounded(states[|ops|], op, s, done, request, universe);
  }

  lemma {:induction false} RunAnswers(
    states: seq<State>, ops: seq<Op>, requests: seq<Request>, universe: set<Series>, results: seq<Record>, metric: Str,
    filter: Labels, from: int, to: int)
    requires Usable(universe) && OrderedRun(states, ops, universe) && AllMake(requests, ops)
    requires Answer(results, metric, filter, VisibleContent(states[|ops|], from, to))
    ensures PlainAnswer(results, requests, metric, filter, from, to)
  {
    hide Usable, Step, Created, InOrder, Answer, IsRange, Sorted, LabelsMatch, Lacks, Expected, PlainMap,
      VisibleContent, AllAnswered;
    QueryRefines(states, ops, universe, results, metric, filter, from, to);
    forall rec | rec in results
      ensures && rec.metric == metric && !Lacks(rec.labels, filter) && rec.points != []
              && Sorted(rec.points) && IsRange(rec.points, PlainMap(requests, rec.Key()), from, to)
    {
      LacksExactly(filter, rec.labels);
      PlainIsExpected(requests, ops, rec.Key());
    }
    RunAnswersAll(states, ops, requests, universe, results, metric, filter, from, to);
  }

  lemma {:induction false} RunAnswersAll(
    states: seq<State>, ops: seq<Op>, requests: seq<Request>, universe: set<Series>, results: seq<Record>, metric: Str,
    filter: Labels, from: int, to: int)
    requires Usable(universe) && OrderedRun(states, ops, universe) && AllMake(requests, ops)
    requires Answer(results, metric, filter, VisibleContent(states[|ops|], from, to))
    ensures AllAnswered(results, requests, metric, filter, from, to)
  {
    hide Usable, Step, Created, InOrder, Answer, IsRange, Sorted, LabelsMatch, Lacks, Expected, VisibleContent,
      Mentions;
    QueryRefines(states, ops, universe, results, metric, filter, from, to);
    forall key: Series |
      key.metric == metric && !Lacks(key.labels, filter) && SomeInTime(PlainMap(requests, key), from, to)
      ensures Mentions(results, key)
    {
      LacksExactly(filter, key.labels);
      PlainIsExpected(requests, ops, key);
      var p :| p in PlainMap(requests, key) && (from <= 0 || from <= p.ts) && (to <= 0 || p.ts <= to);
      assert InRange(p, from, to) && LabelsMatch(filter, key.labels) && p in Expected(ops, key);
    }
  }

  /** The database after the requests, and the run that they make. */
  method Run(requests: seq<Request>, ghost universe: set<Series>)
    returns (db: Db, ghost states: seq<State>, ghost ops: seq<Op>)
    requires Usable(universe) && AllProper(requests, universe)
    ensures db.Valid(universe) && |states| == |ops| + 1 && states[|ops|] == db.State()
    ensures OrderedRun(states, ops, universe) && AllMake(requests, ops) && Bounded(db.State(), requests)
  {
    hide Ordered, Clean, Bounded, Proper, Whole, Open, Openable, AfterWatermark, Step, Runs, Usable, OrderedRun,
      AllReplay, DiskOf, AllMake;
    NothingOpenable(universe);
    var first := OpenDb(map[], map[], universe);
    db := first.value;
    states, ops := [db.State()], [];
    RunsStart(db.State(), universe);
    var i := 0;
    assert requests[..0] == [];
    while i < |requests|
      invariant 0 <= i <= |requests|
      invariant fresh(db) && fresh(db.shards) && fresh(db.index) && fresh(db.wm)
      invariant db.Valid(universe) && |states| == |ops| + 1 && states[|ops|] == db.State()
      invariant Runs(states, ops, requests[..i], universe)
    {
      RunsOrdered(states, ops, requests[..i], universe);
      ghost var op;
      db, op := Do(db, requests[i], requests[..i], universe);
      RunsMore(states, ops, requests[..i], universe, requests[i], op, db.State());
      states, ops := states + [db.State()], ops + [op];
      assert requests[..i + 1] == requests[..i] + [requests[i]];
      i := i + 1;
    }
    assert requests[..i] == requests;
    RunsOrdered(states, ops, requests, universe);
  }

  lemma {:induction false} QueryReady(s: State, requests: seq<Request>, metric: Str, universe: set<Series>)
    requires Usable(universe) && AllProper(requests, universe) && OwnName(metric) && Bounded(s, requests)
    ensures metric != [] && s.flushedUpTo < MAX_INT64 && NoCollision(Asked(universe, metric))
  {
    hide Proper, NoCollision, Storable, Mark, LatestPush, Load;
    OwnDirectory(metric);
    AskedOwn(universe, metric);
    MarkBefore(requests);
    LatestBelow(requests, universe);
  }

  /** No request is a compaction, the one operation that sorts what is on disk. */
  ghost predicate Unsorted(requests: seq<Request>) {
    forall i :: 0 <= i < |requests| ==> !requests[i].CompactRequest?
  }

  /** Without a compaction every series is answered in the order of insertion. */
  lemma {:induction false} RunOrders(
    states: seq<State>, ops: seq<Op>, requests: seq<Request>, universe: set<Series>, results: seq<Record>, metric: Str,
    filter: Labels, from: int, to: int)
    requires Usable(universe) && OrderedRun(states, ops, universe) && AllMake(requests, ops) && Unsorted(requests)
    requires Answer(results, metric, filter, VisibleContent(states[|ops|], from, to))
    ensures forall rec :: rec in results ==> PartInTime(InsertOrder(requests, rec.Key()), from, to, rec.points)
    ensures forall rec :: rec in results && Sorted(PushOrder(requests, rec.Key())) ==>
              PartInTime(PushOrder(requests, rec.Key()), from, to, rec.points)
  {
    hide Usable, Step, Created, InOrder, Sorted, LabelsMatch, Visible, Ordered, Limits, PartInTime, Filter, Expected;
    var s := states[|ops|];
    RunRefines(states, ops, universe);
    assert Unmerged(ops) by {
      assert forall i :: 0 <= i < |ops| ==> Makes(requests[i], ops[i]);
    }
    forall rec | rec in results
      ensures PartInTime(InsertOrder(requests, rec.Key()), from, to, rec.points)
      ensures Sorted(PushOrder(requests, rec.Key())) ==>
                PartInTime(PushOrder(requests, rec.Key()), from, to, rec.points)
    {
      var key := rec.Key();
      assert AnswerEntry(rec, metric, filter, VisibleContent(s, from, to));
      RunInserts(states, ops, requests, universe, key);
      FilterInTime(Visible(s, key), from, to);
      if Sorted(PushOrder(requests, key)) {
        InsertsInOrder(requests, key);
      }
    }
  }

  /** Refinement of the object: a database that starts empty and does any proper sequence of
      pushes, flushes, compactions, drops and reopenings then answers a query with exactly the
      points of the plain map in range, sorted, whatever it has in memory, in the log and in
      chunk files, read back from their bytes. Without a compaction, points of one time are in the
      order that insertion gives them, which is that of the pushes when these never step back. */
  method Serve(
    requests: seq<Request>, metric: Str, filter: Labels, from: int64, to: int64, ghost universe: set<Series>)
    returns (r: Result<seq<Record>>)
    requires Usable(universe) && AllProper(requests, universe) && OwnName(metric)
    ensures r.Ok? && PlainAnswer(r.value, requests, metric, filter, from, to)
    ensures Unsorted(requests) ==> forall rec :: rec in r.value ==>
              PartInTime(InsertOrder(requests, rec.Key()), from, to, rec.points)
    ensures Unsorted(requests) ==> forall rec :: rec in r.value && Sorted(PushOrder(requests, rec.Key())) ==>
              PartInTime(PushOrder(requests, rec.Key()), from, to, rec.points)
  {
    hide Bounded, Whole, Usable, OrderedRun, PlainAnswer, Answer, VisibleContent, DirContent, NoCollision, DiskOf,
      AllMake, Proper, Asked, SanitizeMetric, Unsorted, PartInTime, Sorted;
    var db, states, ops := Run(requests, universe);
    QueryReady(db.State(), requests, metric, universe);
    r := db.Query(metric, filter, from, to, universe);
    RunAnswers(states, ops, requests, universe, r.value, metric, filter, from, to);
    if Unsorted(requests) {
      RunOrders(states, ops, requests, universe, r.value, metric, filter, from, to);
    }
  }

  // ---- windows ----

  /** A windowed answer of the plain map: each matching series with points in range exactly once,
      with the group-by of exactly those points in time order. */
  ghost predicate PlainWindows(
    results: seq<Record>, requests: seq<Request>, metric: Str, filter: Labels, from: int64, to: int64, window: int64,
    agg: seq<uint64> -> uint64)
    requires window > 0
  {
    && (forall i, j :: 0 <= i < j < |results| ==> results[i].Key() != results[j].Key())
    && (forall rec :: rec in results ==>
          && rec.metric == metric && !Lacks(rec.labels, filter) && rec.points != []
          && PlainGroups(rec.points, PlainMap(requests, rec.Key()), from, to, window, agg))
    && AllAnswered(results, requests, metric, filter, from, to)
  }

  /** The points are the group-by of the points in range in time order; none is before the first
      window. */
  ghost predicate PlainGroups(
    groups: seq<Point>, all: multiset<Point>, from: int64, to: int64, window: int64, agg: seq<uint64> -> uint64)
    requires window > 0
  {
    exists ps :: ps != [] && Sorted(ps) && IsRange(ps, all, from, to) && GroupedBy(groups, ps, from, window, agg)
  }

  ghost predicate GroupedBy(
    groups: seq<Point>, ps: seq<Point>, from: int64, window: int64, agg: seq<uint64> -> uint64)
    requires window > 0 && ps != []
  {
    && WindowsFrom(groups, ps, from, window, agg)
    && forall p :: p in ps ==> exists i :: 0 <= i < |groups| && groups[i].ts <= p.ts < groups[i].ts + window
  }

  lemma {:induction false} WindowsGroup(
    groups: seq<Point>, ps: seq<Point>, from: int64, window: int64, agg: seq<uint64> -> uint64)
    requires window > 0 && ps != [] && Sorted(ps)
    requires
      var start := FirstBucket(BaseOf(ps, from), window);
      Windows(groups, ps, start, window, agg) && forall p :: p in ps ==> start <= p.ts
    ensures GroupedBy(groups, ps, from, window, agg)
  {
    hide FirstBucket, GroupBy, Sorted, WindowsFrom, BucketOf, AtWindows;
    var start := FirstBucket(BaseOf(ps, from), window);
    GroupsByBounds(groups, ps, from, window, agg);
    forall p | p in ps ensures exists i :: 0 <= i < |groups| && groups[i].ts <= p.ts < groups[i].ts + window {
      InItsWindow(groups, ps, start, window, agg, p);
    }
  }

  lemma {:induction false} InItsWindow(
    groups: seq<Point>, ps: seq<Point>, start: int, window: int64, agg: seq<uint64> -> uint64, p: Point)
    requires window > 0 && GroupBy(groups, ps, start, window, agg) && p in ps && start <= p.ts
    ensures exists i :: 0 <= i < |groups| && groups[i].ts <= p.ts < groups[i].ts + window
  {
    assert HasWindow(groups, BucketOf(p.ts, start, window));
    DivBounds(p.ts - start, window);
  }

  /** All pushed timestamps are above zero. */
  lemma {:induction false} PlainPositive(requests: seq<Request>, universe: set<Series>, key: Series)
    requires forall i :: 0 <= i < |requests| ==> Proper(requests[..i], requests[i], universe)
    ensures forall p :: p in PlainMap(requests, key) ==> p.ts > 0
    decreases |requests|
  {
    hide LabelsMatch, Mark, PushedTo, OwnName, LatestPush;
    if requests != [] {
      var n := |requests| - 1;
      forall i | 0 <= i < n ensures Proper(requests[..n][..i], requests[..n][i], universe) {
        assert requests[..n][..i] == requests[..i];
      }
      PlainPositive(requests[..n], universe, key);
      assert Proper(requests[..n], requests[n], universe);
    }
  }

  /** With positive timestamps no point in range is before the first window. */
  lemma {:induction false} NoneBefore(ps: seq<Point>, from: int64, to: int64, window: int64)
    requires ps != [] && window > 0 && Sorted(ps) && forall p :: p in ps ==> p.ts > 0 && InRange(p, from, to)
    ensures forall p :: p in ps ==> FirstBucket(BaseOf(ps, from), window) <= p.ts
  {
    hide FirstBucket, Sorted;
    FirstBucketBound(BaseOf(ps, from), window);
    SortedEnds(ps);
  }

  /** What a windowed query reads of a series is what the plain map has of it in range. */
  lemma {:induction false} PlainContent(
    s: State, requests: seq<Request>, universe: set<Series>, metric: Str, key: Series, from: int64, to: int64,
    window: int64)
    requires key.metric == metric && AllProper(requests, universe) && window > 0
    requires Sorted(Visible(s, key)) && multiset(Visible(s, key)) == PlainMap(requests, key)
    ensures
      var ps := DirContent(s, metric, from, to)(key);
      && Sorted(ps) && IsRange(ps, PlainMap(requests, key), from, to)
      && (ps != [] ==> forall p :: p in ps ==> FirstBucket(BaseOf(ps, from), window) <= p.ts)
      && forall p :: p in PlainMap(requests, key) && InRange(p, from, to) ==> p in ps
  {
    hide Filter, InRange, ColdPoints, HotPoints, FirstBucket, BaseOf, Sorted, Proper, PlainMap;
    var ps := DirContent(s, metric, from, to)(key);
    assert ps == Filter(Visible(s, key), from, to);
    FilterSorted(Visible(s, key), from, to);
    ContentIsRange(Visible(s, key), from, to);
    FilterMembers(Visible(s, key), from, to);
    PlainPositive(requests, universe, key);
    forall p | p in ps ensures InRange(p, from, to) && p.ts > 0 {
      assert p in multiset(ps);
    }
    if ps != [] {
      NoneBefore(ps, from, to, window);
    }
    forall p | p in PlainMap(requests, key) && InRange(p, from, to) ensures p in ps {
      assert p in multiset(ps);
    }
  }

  lemma {:induction false} RunWindows(
    s: State, requests: seq<Request>, universe: set<Series>, results: seq<Record>, metric: Str, filter: Labels,
    from: int64, to: int64, window: int64, agg: seq<uint64> -> uint64)
    requires AllProper(requests, universe) && window > 0
    requires forall key :: Sorted(Visible(s, key)) && multiset(Visible(s, key)) == PlainMap(requests, key)
    requires WindowAnswer(results, metric, filter, DirContent(s, metric, from, to), from, window, agg)
    ensures PlainWindows(results, requests, metric, filter, from, to, window, agg)
  {
    hide AllProper, Visible, DirContent, Sorted, LabelsMatch, Lacks, IsRange, FirstBucket, BaseOf, GroupBy, AtWindows,
      PlainMap;
    var content := DirContent(s, metric, from, to);
    forall labels: Labels ensures LabelsMatch(filter, labels) <==> !Lacks(labels, filter) {
      LacksExactly(filter, labels);
    }
    forall rec | rec in results
      ensures && rec.metric == metric && !Lacks(rec.labels, filter) && rec.points != []
              && PlainGroups(rec.points, PlainMap(requests, rec.Key()), from, to, window, agg)
    {
      assert WindowEntry(rec, metric, filter, content, from, window, agg);
      PlainContent(s, requests, universe, metric, rec.Key(), from, to, window);
      WindowsGroup(rec.points, content(rec.Key()), from, window, agg);
    }
    forall key: Series |
      key.metric == metric && !Lacks(key.labels, filter) && SomeInTime(PlainMap(requests, key), from, to)
      ensures Mentions(results, key)
    {
      var p :| p in PlainMap(requests, key) && (from <= 0 || from <= p.ts) && (to <= 0 || p.ts <= to);
      assert InRange(p, from, to) && LabelsMatch(filter, key.labels);
      PlainContent(s, requests, universe, metric, key, from, to, window);
      assert HasWindows(key, content, from, window);
    }
  }

  /** The run shows the plain map, in time order. */
  lemma {:induction false} RunShows(
    states: seq<State>, ops: seq<Op>, requests: seq<Request>, universe: set<Series>)
    requires Usable(universe) && OrderedRun(states, ops, universe) && AllMake(requests, ops)
    ensures forall key ::
              Sorted(Visible(states[|ops|], key)) && multiset(Visible(states[|ops|], key)) == PlainMap(requests, key)
  {
    hide Usable, Step, Created, InOrder, Sorted, Expected, PlainMap, Visible, Ordered, Limits;
    RunRefines(states, ops, universe);
    forall key ensures multiset(Visible(states[|ops|], key)) == PlainMap(requests, key) {
      PlainIsExpected(requests, ops, key);
    }
  }

  lemma {:induction false} RunFits(
    states: seq<State>, ops: seq<Op>, requests: seq<Request>, universe: set<Series>, metric: Str, filter: Labels,
    from: int64, to: int64, window: int)
    requires Usable(universe) && OrderedRun(states, ops, universe) && AllMake(requests, ops) && OwnName(metric)
    requires forall key: Series :: key.metric == metric && LabelsMatch(filter, key.labels) ==>
               WindowsFit(PlainMap(requests, key), from, to, window)
    ensures SanitizeMetric(metric) == metric
    ensures Aggregable(metric, filter, DirContent(states[|ops|], metric, from, to), from, window)
  {
    hide Usable, Step, Created, InOrder, Sorted, Expected, PlainMap, Filter, ColdPoints, HotPoints, LabelsMatch,
      WindowsFit, LastEndFits, SanitizeMetric;
    forall key ensures Expected(ops, key) == PlainMap(requests, key) {
      PlainIsExpected(requests, ops, key);
    }
    RunAggregable(states, ops, universe, metric, filter, from, to, window);
    var s := states[|ops|];
    forall key: Series | key.metric == metric && LabelsMatch(filter, key.labels)
      ensures LastEndFits(DirContent(s, metric, from, to)(key), from, window)
    {
      assert DirContent(s, metric, from, to)(key) == VisibleContent(s, from, to)(key);
    }
  }

  /** The same for a query with a window: each series is the group-by of the plain map's points in
      range, as long as the last window of each ends inside int64. */
  method ServeWindow(
    requests: seq<Request>, metric: Str, filter: Labels, from: int64, to: int64, window: int64,
    agg: seq<uint64> -> uint64, ghost universe: set<Series>)
    returns (r: Result<seq<Record>>)
    requires Usable(universe) && AllProper(requests, universe) && OwnName(metric)
    requires forall key: Series :: key.metric == metric && LabelsMatch(filter, key.labels) ==>
               WindowsFit(PlainMap(requests, key), from, to, window)
    ensures r.Ok?
    ensures window > 0 ==> PlainWindows(r.value, requests, metric, filter, from, to, window, agg)
    ensures window == 0 ==> PlainAnswer(r.value, requests, metric, filter, from, to)
    ensures window < 0 ==> r.value == []
  {
    hide Bounded, Whole, Usable, OrderedRun, PlainAnswer, PlainWindows, Answer, VisibleContent, DirContent, NoCollision,
      DiskOf, AllMake, Proper, Asked, SanitizeMetric, Aggregable, WindowAnswer, Sorted, Visible, OwnName, WindowsFit,
      LabelsMatch;
    var db, states, ops := Run(requests, universe);
    QueryReady(db.State(), requests, metric, universe);
    RunFits(states, ops, requests, universe, metric, filter, from, to, window);
    r := db.QueryWindow(metric, filter, from, to, window, agg, universe);
    RunShows(states, ops, requests, universe);
    if window > 0 {
      RunWindows(db.State(), requests, universe, r.value, metric, filter, from, to, window, agg);
    } else if window == 0 {
      OwnContent(db.State(), metric, filter, from, to, r.value);
      RunAnswers(states, ops, requests, universe, r.value, metric, filter, from, to);
    }
  }

  // ---- metrics ----

  /** The same for the list of metrics: exactly those of the plain map with a point, each once. */
  method ServeMetrics(requests: seq<Request>, ghost universe: set<Series>) returns (names: seq<Str>)
    requires Usable(universe) && AllProper(requests, universe)
    ensures forall i, j :: 0 <= i < j < |names| ==> names[i] != names[j]
    ensures forall m :: m in names <==> HasPoints(requests, m)
  {
    hide Bounded, Whole, Usable, OrderedRun, DiskOf, AllMake, Proper, HasPoints;
    var db, states, ops := Run(requests, universe);
    names := db.Metrics();
    forall m ensures m in db.State().index <==> HasPoints(requests, m) {
      RunLists(states, ops, requests, universe, m);
    }
  }

  /** Some series of the metric has a point in the plain map. */
  ghost predicate HasPoints(requests: seq<Request>, metric: Str) {
    exists key: Series :: key.metric == metric && PlainMap(requests, key) != multiset{}
  }

  lemma {:induction false} RunLists(
    states: seq<State>, ops: seq<Op>, requests: seq<Request>, universe: set<Series>, metric: Str)
    requires Usable(universe) && OrderedRun(states, ops, universe) && AllMake(requests, ops)
    ensures metric in states[|ops|].index <==> HasPoints(requests, metric)
  {
    hide Usable, Step, Created, InOrder, Expected, PlainMap;
    RunMetrics(states, ops, universe, metric);
    forall key ensures Expected(ops, key) == PlainMap(requests, key) {
      PlainIsExpected(requests, ops, key);
    }
  }
}
