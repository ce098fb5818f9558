/** The order in which queries see the points of a series while no compaction has sorted them. */
module EngineOrder {
  import opened Words
  import opened Model
  import opened Points
  import opened EngineState
  import opened EngineLemmas
  import opened EngineInvariant
  import opened EngineSteps
  import opened EngineMaintenance
  import opened EngineOpen
  import opened EngineLimits
  import opened EngineRuns
  import opened Requests

  /** The points of one series, inserted push after push since it was last dropped. */
  ghost function InsertOrder(requests: seq<Request>, key: Series): seq<Point> {
    if requests == [] then []
    else
      var before := InsertOrder(requests[..|requests| - 1], key);
      match requests[|requests| - 1]
      case PushRequest(rec) => if rec.Key() == key then InsertAll(before, rec.points) else before
      case DropRequest(metric, filter) =>
        if key.metric == metric && !Lacks(key.labels, filter) then [] else before
      case _ => before
  }

  /** The points of one series, as they were pushed since it was last dropped. */
  ghost function PushOrder(requests: seq<Request>, key: Series): seq<Point> {
    if requests == [] then []
    else
      var before := PushOrder(requests[..|requests| - 1], key);
      match requests[|requests| - 1]
      case PushRequest(rec) => if rec.Key() == key then before + rec.points else before
      case DropRequest(metric, filter) =>
        if key.metric == metric && !Lacks(key.labels, filter) then [] else before
      case _ => before
  }

  /** Pushes that never step back in time are inserted in push order. */
  lemma {:induction false} InsertsInOrder(requests: seq<Request>, key: Series)
    requires Sorted(PushOrder(requests, key))
    ensures InsertOrder(requests, key) == PushOrder(requests, key)
    decreases |requests|
  {
    hide Sorted, InsertAll, Lacks;
    if requests != [] {
      var most, last := requests[..|requests| - 1], requests[|requests| - 1];
      var before := PushOrder(most, key);
      if last.PushRequest? && last.rec.Key() == key {
        SortedPrefix(before, last.rec.points);
        InsertsInOrder(most, key);
        InsertAllInOrder(before, last.rec.points);
      } else if !(last.DropRequest? && key.metric == last.metric && !Lacks(key.labels, last.filter)) {
        InsertsInOrder(most, key);
      }
    }
  }

  lemma {:induction false} SortedPrefix(a: seq<Point>, b: seq<Point>)
    requires Sorted(a + b)
    ensures Sorted(a)
  {
    forall i, j | 0 <= i < j < |a| ensures a[i].ts <= a[j].ts {
      assert (a + b)[i] == a[i] && (a + b)[j] == a[j];
    }
  }

  /** The plain map has the points of the push order. */
  lemma {:induction false} PushOrderIsPlain(requests: seq<Request>, key: Series)
    ensures multiset(PushOrder(requests, key)) == PlainMap(requests, key)
    decreases |requests|
  {
    hide Lacks;
    if requests != [] {
      PushOrderIsPlain(requests[..|requests| - 1], key);
    }
  }

  /** Nothing was merged or lost. */
  predicate Unmerged(ops: seq<Op>) {
    forall i :: 0 <= i < |ops| ==> !ops[i].CompactOp? && !ops[i].LoseOp?
  }

  lemma {:induction false} PushInserts(s: State, rec: Record, universe: set<Series>, key: Series)
    requires Ordered(s, universe) && GoodRecord(rec, universe) && AllAbove(rec.points, s.flushedUpTo)
    ensures Visible(Push(s, rec), key)
         == if rec.Key() == key then InsertAll(Visible(s, key), rec.points) else Visible(s, key)
  {
    hide Storable, Ordered, Push, Visible, AllAbove, InsertAll, GoodRecord;
    GoodKey(rec, universe);
    if key in universe {
      PushVisible(s, rec, universe, key);
      InsertNone(Visible(s, key));
    } else {
      PushKeeps(s, rec, universe);
      OrderedShapes(s, Push(s, rec), universe);
      VisibleKnown(s, universe, key);
      VisibleKnown(Push(s, rec), universe, key);
    }
  }

  /** What one step other than a compaction does to the sequence that queries see of a series. */
  lemma {:induction false} StepInserts(s: State, op: Op, s': State, universe: set<Series>, key: Series)
    requires Ordered(s, universe) && Step(s, op, s') && InOrder(s, op, universe) && !op.CompactOp? && !op.LoseOp?
    ensures Visible(s', key)
         == match op
            case PushOp(rec) => if rec.Key() == key then InsertAll(Visible(s, key), rec.points) else Visible(s, key)
            case DropOp(metric, filter, _) =>
              if key.metric == metric && !Lacks(key.labels, filter) then [] else Visible(s, key)
            case _ => Visible(s, key)
  {
    hide Storable, Ordered, Flush, Drop, Open, CrashInFlush, Visible, AllAbove, HasRoom, CanNumber, LabelsMatch, Lacks,
      InsertAll, Push, GoodRecord;
    match op
    case PushOp(rec) => PushInserts(s, rec, universe, key);
    case FlushOp => FlushInvisible(s, s', universe, key);
    case DropOp(metric, filter, dropped) =>
      DropVisible(s, metric, filter, s', dropped, universe, key);
      LacksExactly(filter, key.labels);
    case ReopenOp => ReopenKeeps(s, s', universe);
    case CrashOp => CrashKeeps(s, s', universe);
  }

  /** After any run in time order without a compaction, queries see the points of each series in
      the order in which they were inserted: flushes, reopenings and crashes change nothing. */
  lemma {:induction false} RunInserts(
    states: seq<State>, ops: seq<Op>, requests: seq<Request>, universe: set<Series>, key: Series)
    requires Usable(universe) && OrderedRun(states, ops, universe) && AllMake(requests, ops) && Unmerged(ops)
    ensures Visible(states[|ops|], key) == InsertOrder(requests, key)
    decreases |ops|
  {
    hide Usable, Ordered, Visible, Created, Step, InOrder, Limits, Sorted, InsertAll, Lacks;
    var n := |ops|;
    if n == 0 {
      CreatedEmpty(states[0], universe, key);
    } else {
      var before := ops[..n - 1];
      assert OrderedRun(states[..n], before, universe);
      RunInserts(states[..n], before, requests[..n - 1], universe, key);
      RunRefines(states[..n], before, universe);
      StepInserts(states[n - 1], ops[n - 1], states[n], universe, key);
      assert Makes(requests[n - 1], ops[n - 1]);
    }
  }
}
