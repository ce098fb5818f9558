/** Sequences of requests, and conditions on them alone under which every run of the engine that
    they make is in time order and stays within the limits. */
module Requests {
  import opened Words
  import opened Model
  import opened Points
  import opened Names
  import opened ChunkFormat
  import opened EngineState
  import opened EngineLemmas
  import opened EngineInvariant
  import opened EngineSteps
  import opened EngineMaintenance
  import opened EngineOpen
  import opened EngineLimits
  import opened EngineRuns
  import opened DiskContent

  datatype Request =
    | PushRequest(rec: Record)
    | FlushRequest
    | CompactRequest(threshold: int)
    | DropRequest(metric: Str, filter: Labels)
    | ReopenRequest

  // ---- the plain map ----

  /** The points of one series after the requests: pushed, and not dropped since. */
  ghost function PlainMap(requests: seq<Request>, key: Series): multiset<Point> {
    if requests == [] then multiset{}
    else
      var before := PlainMap(requests[..|requests| - 1], key);
      match requests[|requests| - 1]
      case PushRequest(rec) => if rec.Key() == key then before + multiset(rec.points) else before
      case DropRequest(metric, filter) =>
        if key.metric == metric && !Lacks(key.labels, filter) then multiset{} else before
      case _ => before
  }

  // ---- conditions on requests ----

  function Later(a: int, b: int): int {
    if a < b then b else a
  }

  function LatestOf(ps: seq<Point>): int {
    if ps == [] then 0 else Later(ps[0].ts, LatestOf(ps[1..]))
  }

  /** The latest timestamp pushed, or zero. */
  function LatestPush(requests: seq<Request>): int {
    if requests == [] then 0
    else
      var before := LatestPush(requests[..|requests| - 1]);
      var last := requests[|requests| - 1];
      if last.PushRequest? then Later(before, LatestOf(last.rec.points)) else before
  }

  /** The latest timestamp pushed before the last flush or drop, or zero. */
  function Mark(requests: seq<Request>): int {
    if requests == [] then 0
    else
      var before, last := requests[..|requests| - 1], requests[|requests| - 1];
      if last.FlushRequest? || last.DropRequest? then LatestPush(before) else Mark(before)
  }

  /** How many points were pushed to a series. */
  function PushedTo(requests: seq<Request>, key: Series): nat {
    if requests == [] then 0
    else
      var last := requests[|requests| - 1];
      PushedTo(requests[..|requests| - 1], key)
      + if last.PushRequest? && last.rec.Key() == key then |last.rec.points| else 0
  }

  /** A push after a flush or drop is later than all that was pushed before it, no series is
      pushed more points than a file can hold of it, and a drop names a metric by its directory. */
  ghost predicate Proper(before: seq<Request>, next: Request, universe: set<Series>) {
    match next
    case PushRequest(rec) =>
      && GoodRecord(rec, universe) && rec.metric != [] && AllAbove(rec.points, Mark(before))
      && (forall p :: p in rec.points ==> p.ts < MAX_INT64)
      && PushedTo(before, rec.Key()) + |rec.points| <= MAX_POINTS
    case DropRequest(metric, filter) => OwnName(metric)
    case _ => true
  }

  ghost predicate AllProper(requests: seq<Request>, universe: set<Series>) {
    && |requests| < NUMBERS - 2
    && forall i :: 0 <= i < |requests| ==> Proper(requests[..i], requests[i], universe)
  }

  /** The step that a request makes. */
  predicate Makes(request: Request, op: Op) {
    match request
    case PushRequest(rec) => op == PushOp(rec)
    case FlushRequest => op == FlushOp
    case CompactRequest(threshold) => op == CompactOp(threshold)
    case DropRequest(metric, filter) => op.DropOp? && op.metric == metric && op.filter == filter
    case ReopenRequest => op == ReopenOp
  }

  predicate AllMake(requests: seq<Request>, ops: seq<Op>) {
    |requests| == |ops| && forall i :: 0 <= i < |ops| ==> Makes(requests[i], ops[i])
  }

  lemma {:induction false} PlainIsExpected(requests: seq<Request>, ops: seq<Op>, key: Series)
    requires AllMake(requests, ops)
    ensures Expected(ops, key) == PlainMap(requests, key)
    decreases |ops|
  {
    hide LabelsMatch, Lacks;
    if ops != [] {
      var n := |ops| - 1;
      PlainIsExpected(requests[..n], ops[..n], key);
      if ops[n].DropOp? {
        LacksExactly(ops[n].filter, key.labels);
      }
      assert Makes(requests[n], ops[n]);
      assert Expected(ops, key) == Plain(Expected(ops[..n], key), ops[n], key);
    }
  }

  // ---- what the requests bound ----

  ghost predicate RecordsUpTo(recs: seq<Record>, t: int) {
    forall rec, p :: rec in recs && p in rec.points ==> p.ts <= t
  }

  /** The state after the requests `done` keeps to what they say. */
  ghost predicate Bounded(s: State, done: seq<Request>) {
    && s.flushedUpTo <= Mark(done) && RecordsUpTo(s.Segment(), LatestPush(done))
    && s.current <= |done| + 1 && NumbersUpTo(s.disk.chunks, |done|)
    && forall key :: Load(s, key) <= PushedTo(done, key)
  }

  lemma {:induction false} LatestOfAll(ps: seq<Point>)
    ensures forall p :: p in ps ==> p.ts <= LatestOf(ps)
    ensures LatestOf(ps) == 0 || exists p :: p in ps && p.ts == LatestOf(ps)
  {
    if ps != [] {
      LatestOfAll(ps[1..]);
      assert ps[0] in ps;
    }
  }

  lemma {:induction false} MarkBefore(done: seq<Request>)
    ensures 0 <= Mark(done) <= LatestPush(done)
    decreases |done|
  {
    if done != [] {
      var before := done[..|done| - 1];
      MarkBefore(before);
      LatestNotLess(before);
    }
  }

  lemma {:induction false} LatestNotLess(done: seq<Request>)
    ensures LatestPush(done) >= 0
    decreases |done|
  {
    if done != [] {
      LatestNotLess(done[..|done| - 1]);
    }
  }

  /** Points pushed below the largest timestamp leave the watermark below it. */
  lemma {:induction false} LatestBelow(done: seq<Request>, universe: set<Series>)
    requires forall i :: 0 <= i < |done| ==> Proper(done[..i], done[i], universe)
    ensures LatestPush(done) < MAX_INT64
    decreases |done|
  {
    hide GoodRecord, AllAbove, OwnName;
    if done != [] {
      var before, last := done[..|done| - 1], done[|done| - 1];
      forall i | 0 <= i < |before| ensures Proper(before[..i], before[i], universe) {
        assert before[..i] == done[..i];
      }
      LatestBelow(before, universe);
      assert Proper(done[..|done| - 1], last, universe);
      if last.PushRequest? {
        LatestOfAll(last.rec.points);
      }
    }
  }

  lemma {:induction false} Unfold(done: seq<Request>, next: Request)
    ensures
      var now := done + [next];
      && Mark(now) == (if next.FlushRequest? || next.DropRequest? then LatestPush(done) else Mark(done))
      && LatestPush(now)
         == (if next.PushRequest? then Later(LatestPush(done), LatestOf(next.rec.points)) else LatestPush(done))
      && forall key :: PushedTo(now, key) == PushedTo(done, key)
           + if next.PushRequest? && next.rec.Key() == key then |next.rec.points| else 0
  {
    assert (done + [next])[..|done|] == done;
  }

  /** A proper request makes a step that fits and is in time order. */
  lemma {:induction false} ProperFits(s: State, done: seq<Request>, next: Request, op: Op, universe: set<Series>)
    requires Bounded(s, done) && Proper(done, next, universe) && Makes(next, op) && |done| < NUMBERS - 2
    ensures AfterWatermark(s, op, universe)
  {
    hide GoodRecord, Load, Mark, LatestPush, PushedTo;
    if op.PushOp? {
      assert Load(s, op.rec.Key()) <= PushedTo(done, op.rec.Key());
    }
  }

  lemma {:induction false} PushBounded(s: State, rec: Record, done: seq<Request>)
    requires s.current in s.disk.wal && Bounded(s, done)
    ensures Bounded(Push(s, rec), done + [PushRequest(rec)])
  {
    hide ApplyRecord, IndexRecord, ColdPoints, PointsOf, Mark, LatestPush, PushedTo;
    Unfold(done, PushRequest(rec));
    LatestOfAll(rec.points);
    forall key ensures Load(Push(s, rec), key) <= PushedTo(done + [PushRequest(rec)], key) {
      PointsOfPush(s.Segment(), rec, key);
      assert Load(s, key) <= PushedTo(done, key);
    }
  }

  /** What a flush leaves is bounded by the latest push. */
  ghost predicate FlushedWithin(s: State, done: seq<Request>) {
    && s.flushedUpTo <= LatestPush(done) && RecordsUpTo(s.Segment(), LatestPush(done))
    && s.current <= |done| + 2 && NumbersUpTo(s.disk.chunks, |done| + 1)
    && forall key :: Load(s, key) <= PushedTo(done, key)
  }

  lemma {:induction false} FlushWithin(s: State, s': State, done: seq<Request>)
    requires s.current in s.disk.wal && Bounded(s, done) && Flush(s, s')
    ensures FlushedWithin(s', done)
  {
    hide Load, Mark, LatestPush, PushedTo, ChunksWritten;
    MarkBefore(done);
    forall key ensures Load(s', key) <= PushedTo(done, key) {
      FlushLoad(s, s', key);
    }
    if s.Segment() != [] {
      WrittenNumbers(s.disk.chunks, s.Segment(), s'.disk.chunks, |done|);
    }
  }

  lemma {:induction false} WithinBounded(s: State, done: seq<Request>, next: Request)
    requires FlushedWithin(s, done) && (next.FlushRequest? || next.DropRequest?)
    ensures Bounded(s, done + [next])
  {
    hide Load, Mark, LatestPush, PushedTo;
    Unfold(done, next);
  }

  lemma {:induction false} CompactBounded(s: State, threshold: int, s': State, done: seq<Request>)
    requires Bounded(s, done) && Compact(s, threshold, s')
    ensures Bounded(s', done + [CompactRequest(threshold)])
  {
    hide Load, Mark, LatestPush, PushedTo, CompactedDir;
    Unfold(done, CompactRequest(threshold));
    CompactedNumbers(s, threshold, s', |done|);
    forall key ensures Load(s', key) <= PushedTo(done, key) {
      CompactLoad(s, threshold, s', key);
    }
  }

  lemma {:induction false} DropBounded(
    s: State, metric: Str, filter: Labels, s': State, dropped: bool, done: seq<Request>)
    requires s.current in s.disk.wal && Bounded(s, done) && Drop(s, metric, metric, filter, s', dropped)
    ensures Bounded(s', done + [DropRequest(metric, filter)])
  {
    hide Load, Mark, LatestPush, PushedTo, Flush, AnyMatch, DropAfterFlush;
    MarkBefore(done);
    if s' != s {
      var mid :| Flush(s, mid) && DropAfterFlush(mid, metric, metric, filter, s')
        && (dropped <==> AnyMatch(mid, metric, metric, filter));
      FlushWithin(s, mid, done);
      DroppedWithin(mid, metric, filter, s', done);
    }
    WithinBounded(s', done, DropRequest(metric, filter));
  }

  lemma {:induction false} DroppedWithin(mid: State, metric: Str, filter: Labels, s': State, done: seq<Request>)
    requires FlushedWithin(mid, done) && DropAfterFlush(mid, metric, metric, filter, s')
    ensures FlushedWithin(s', done)
  {
    hide Load, LatestPush, PushedTo, KeptFile, Keep, LabelsMatch, DroppedIndex, EvictMatching;
    forall key ensures Load(s', key) <= PushedTo(done, key) {
      DropAfterFlushLoad(mid, metric, metric, filter, s', key);
    }
  }

  lemma {:induction false} ReopenBounded(s: State, s': State, done: seq<Request>)
    requires HeadersAtMost(s.disk.chunks, s.flushedUpTo) && s.flushedUpTo >= 0
    requires Bounded(s, done) && Open(s.disk, s') && s'.disk == s.disk && s'.current == s.current
    ensures Bounded(s', done + [ReopenRequest])
  {
    hide ColdPoints, PointsOf, Mark, LatestPush, PushedTo, AllRecords, ReplayMem, ReplayIndex;
    Unfold(done, ReopenRequest);
    forall key ensures Load(s', key) <= PushedTo(done, key) {
      assert Load(s, key) <= PushedTo(done, key);
    }
  }

  lemma {:induction false} StepBounded(
    s: State, op: Op, s': State, done: seq<Request>, next: Request, universe: set<Series>)
    requires Ordered(s, universe) && Bounded(s, done) && Makes(next, op) && Step(s, op, s')
    ensures Bounded(s', done + [next])
  {
    hide Bounded, Flush, Compact, Drop, Open, Push, GoodChunks, GoodMem, GoodIndex, HotIsSegment, Leftovers, MemAfter,
      OrderedDirs;
    match op
    case PushOp(rec) => PushBounded(s, rec, done);
    case FlushOp =>
      FlushWithin(s, s', done);
      WithinBounded(s', done, next);
    case CompactOp(threshold) => CompactBounded(s, threshold, s', done);
    case DropOp(metric, filter, dropped) => DropBounded(s, metric, filter, s', dropped, done);
    case ReopenOp =>
      ReopenSame(s, s', universe);
      ReopenBounded(s, s', done);
  }

  lemma {:induction false} ReopenSame(s: State, s': State, universe: set<Series>)
    requires Ordered(s, universe) && Open(s.disk, s')
    ensures s'.disk == s.disk && s'.current == s.current
  {
    hide Ordered, Open, Visible;
    ReopenKeeps(s, s', universe);
  }

  lemma {:induction false} CreatedBounded(s: State)
    requires Created(s)
    ensures Bounded(s, [])
  {
    hide AllRecords, ReplayMem, ReplayIndex;
    var none: map<nat, seq<Record>> := map[];
    assert none.Keys == {};
    forall key ensures Load(s, key) == 0 {
      ColdNone(key.labels);
      PointsOfNone(key);
    }
  }

  // ---- the conditions can be met ----

  /** A series that can be stored can be the one in use, and with any of its records that has
      positive timestamps every kind of request is proper in some place. */
  lemma {:induction false} ProperExample(rec: Record)
    requires Storable(rec.Key()) && rec.points != [] && |rec.points| <= 0xFFFF
    requires forall p :: p in rec.points ==> 0 < p.ts < MAX_INT64
    ensures Usable({rec.Key()})
    ensures AllProper([PushRequest(rec), PushRequest(rec), FlushRequest, CompactRequest(0), ReopenRequest,
                       DropRequest(rec.metric, rec.labels)], {rec.Key()})
  {
    hide Storable, OwnName, LatestPush;
    assert OwnName(rec.metric) && rec.metric != [] by { StorableName(rec.Key()); }
    var push := PushRequest(rec);
    var requests := [push, push, FlushRequest, CompactRequest(0), ReopenRequest, DropRequest(rec.metric, rec.labels)];
    assert |{rec.Key()}| == 1;
    var universe := {rec.Key()};
    assert [push][..0] == [];
    assert Mark([push]) == Mark([]) == 0 && PushedTo([push], rec.Key()) == |rec.points|;
    assert Proper([], push, universe) && Proper([push], push, universe);
    forall i | 0 <= i < |requests| ensures Proper(requests[..i], requests[i], universe) {
      if i == 0 {
        assert requests[..i] == [];
      } else if i == 1 {
        assert requests[..i] == [push];
      }
    }
  }

  lemma {:induction false} StorableName(key: Series)
    requires Storable(key)
    ensures OwnName(key.metric) && key.metric != []
  {
    hide SanitizeMetric;
    OwnDirectory(key.metric);
  }
}
