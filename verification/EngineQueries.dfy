/** What queries return after a run, against the plain map; and what a late push changes. */
module EngineQueries {
  import opened Words
  import opened Model
  import opened Points
  import opened EngineState
  import opened EngineLemmas
  import opened EngineInvariant
  import opened EngineSteps
  import opened EngineMaintenance
  import opened EngineRuns
  import opened ChunkQuery
  import opened QueryMerge
  import opened QueryWindow
  import opened Aggregate
  import SeriesKey

  /** The points of a multiset from `from` on, if that is above zero, and up to `to`, if that is
      above zero. */
  ghost predicate IsRange(ps: seq<Point>, all: multiset<Point>, from: int, to: int) {
    forall p: Point ::
      multiset(ps)[p] == if (from <= 0 || from <= p.ts) && (to <= 0 || p.ts <= to) then all[p] else 0
  }

  /** Whatever run in time order came before, a query answer holds each matching series of the
      plain map with points in range exactly once, with exactly those points, sorted. */
  lemma {:induction false} QueryRefines(
    states: seq<State>, ops: seq<Op>, universe: set<Series>, results: seq<Record>, metric: Str, filter: Labels,
    from: int, to: int)
    requires Usable(universe) && OrderedRun(states, ops, universe)
    requires Answer(results, metric, filter, VisibleContent(states[|ops|], from, to))
    ensures forall i, j :: 0 <= i < j < |results| ==> results[i].Key() != results[j].Key()
    ensures forall rec :: rec in results ==>
              && rec.metric == metric && LabelsMatch(filter, rec.labels) && rec.points != []
              && Sorted(rec.points) && IsRange(rec.points, Expected(ops, rec.Key()), from, to)
    ensures forall key: Series, p: Point ::
              key.metric == metric && LabelsMatch(filter, key.labels) && p in Expected(ops, key)
              && InRange(p, from, to) ==>
                Mentions(results, key)
  {
    hide Storable, Visible, Filter, InRange, LabelsMatch, NoCollision, Step, InOrder, Sorted, Ordered, Expected,
      IsRange;
    var s := states[|ops|];
    RunRefines(states, ops, universe);
    forall key ensures IsRange(Filter(Visible(s, key), from, to), Expected(ops, key), from, to)
    {
      ContentIsRange(Visible(s, key), from, to);
    }
    forall rec | rec in results ensures Sorted(rec.points) && IsRange(rec.points, Expected(ops, rec.Key()), from, to) {
      assert AnswerEntry(rec, metric, filter, VisibleContent(s, from, to));
      FilterSorted(Visible(s, rec.Key()), from, to);
    }
    forall key: Series, p: Point | key.metric == metric && LabelsMatch(filter, key.labels)
      && p in Expected(ops, key) && InRange(p, from, to)
      ensures Mentions(results, key)
    {
      InContent(Visible(s, key), Expected(ops, key), from, to, p);
    }
  }

  lemma {:induction false} ContentIsRange(ps: seq<Point>, from: int, to: int)
    ensures IsRange(Filter(ps, from, to), multiset(ps), from, to)
  {
    hide Filter;
    FilterMembers(ps, from, to);
  }

  lemma {:induction false} InContent(ps: seq<Point>, all: multiset<Point>, from: int, to: int, p: Point)
    requires multiset(ps) == all && p in all && InRange(p, from, to)
    ensures Filter(ps, from, to) != []
  {
    hide Filter, InRange;
    FilterMembers(ps, from, to);
    assert p in multiset(Filter(ps, from, to));
  }

  /** The last window over the points in range ends inside int64: its base is the lower bound of
      the query, or the earliest point. */
  ghost predicate WindowsFit(points: multiset<Point>, from: int64, to: int64, window: int) {
    forall first, last :: IsFirst(first, points, from, to) && IsLast(last, points, from, to) ==>
      EndFits(if from == 0 then first.ts else from, last.ts, window)
  }

  ghost predicate IsFirst(first: Point, points: multiset<Point>, from: int, to: int) {
    first in points && InRange(first, from, to) && forall p :: p in points && InRange(p, from, to) ==> first.ts <= p.ts
  }

  ghost predicate IsLast(last: Point, points: multiset<Point>, from: int, to: int) {
    last in points && InRange(last, from, to) && forall p :: p in points && InRange(p, from, to) ==> p.ts <= last.ts
  }

  lemma {:induction false} SortedEnds(ps: seq<Point>)
    requires Sorted(ps) && ps != []
    ensures forall p :: p in ps ==> ps[0].ts <= p.ts <= ps[|ps| - 1].ts
  {
  }

  lemma {:induction false} EndsOfRange(ps: seq<Point>, from: int64, to: int64, window: int)
    requires Sorted(ps) && WindowsFit(multiset(ps), from, to, window)
    ensures Sorted(Filter(ps, from, to)) && LastEndFits(Filter(ps, from, to), from, window)
  {
    hide Filter, InRange, EndFits, Sorted;
    var content := Filter(ps, from, to);
    FilterSorted(ps, from, to);
    FilterMembers(ps, from, to);
    if content != [] {
      var first, last := content[0], content[|content| - 1];
      assert first in multiset(content) && last in multiset(content);
      SortedEnds(content);
      forall p | p in multiset(ps) && InRange(p, from, to) ensures first.ts <= p.ts <= last.ts {
        assert p in multiset(content);
      }
      assert IsFirst(first, multiset(ps), from, to) && IsLast(last, multiset(ps), from, to);
    }
  }

  /** After a run in time order the content that windows are computed from is in time order, and
      the loop over the windows ends as it should when the last one ends inside int64. */
  lemma {:induction false} RunAggregable(
    states: seq<State>, ops: seq<Op>, universe: set<Series>, metric: Str, filter: Labels, from: int64, to: int64,
    window: int)
    requires Usable(universe) && OrderedRun(states, ops, universe)
    requires forall key: Series :: key.metric == metric && LabelsMatch(filter, key.labels) ==>
               WindowsFit(Expected(ops, key), from, to, window)
    ensures Aggregable(metric, filter, VisibleContent(states[|ops|], from, to), from, window)
    ensures forall key: Series :: Sorted(VisibleContent(states[|ops|], from, to)(key))
  {
    hide Storable, Visible, Filter, LabelsMatch, NoCollision, Step, InOrder, Sorted, Ordered, Expected, WindowsFit,
      LastEndFits;
    var s := states[|ops|];
    var content := VisibleContent(s, from, to);
    RunRefines(states, ops, universe);
    forall key: Series ensures Sorted(content(key)) {
      FilterSorted(Visible(s, key), from, to);
    }
    forall key: Series | key.metric == metric && LabelsMatch(filter, key.labels)
      ensures LastEndFits(content(key), from, window)
    {
      EndsOfRange(Visible(s, key), from, to, window);
    }
  }

  /** After a run in time order the listed metrics are exactly those with a point in the plain map. */
  lemma {:induction false} RunMetrics(states: seq<State>, ops: seq<Op>, universe: set<Series>, metric: Str)
    requires Usable(universe) && OrderedRun(states, ops, universe)
    ensures metric in states[|ops|].index
       <==> exists key: Series :: key.metric == metric && Expected(ops, key) != multiset{}
  {
    hide Storable, Visible, NoCollision, Step, InOrder, Sorted, Ordered, Expected;
    var s := states[|ops|];
    RunRefines(states, ops, universe);
    MetricsExact(s, universe, metric);
    forall key ensures Visible(s, key) != [] <==> Expected(ops, key) != multiset{} {
      NotEmpty(Visible(s, key));
    }
  }

  lemma {:induction false} NotEmpty(ps: seq<Point>)
    ensures ps != [] <==> multiset(ps) != multiset{}
  {
    if ps != [] {
      assert ps[0] in multiset(ps);
    }
  }

  // ---- compaction and range queries ----

  lemma {:induction false} SameRange(ps: seq<Point>, qs: seq<Point>, from: int, to: int)
    requires multiset(ps) == multiset(qs)
    ensures multiset(Filter(ps, from, to)) == multiset(Filter(qs, from, to))
  {
    hide Filter, InRange;
    FilterMembers(ps, from, to);
    FilterMembers(qs, from, to);
    forall p: Point ensures multiset(Filter(ps, from, to))[p] == multiset(Filter(qs, from, to))[p] {}
  }

  /** A compaction changes no range query, and at every moment of it, with the new file in place
      and some old ones removed, a range query of the files still reads at least the same points. */
  lemma {:induction false} CompactRange(
    s: State, threshold: int, s': State, key: Series, removed: set<nat>, from: int, to: int)
    requires Compact(s, threshold, s')
    ensures multiset(Filter(Visible(s, key), from, to)) == multiset(Filter(Visible(s', key), from, to))
    ensures key.metric in s.disk.chunks && s'.disk.chunks[key.metric] != s.disk.chunks[key.metric]
            && removed <= s.disk.chunks[key.metric].Keys ==>
              var files := s.disk.chunks[key.metric];
              var n := NextNumber(files);
              && n in s'.disk.chunks[key.metric]
              && var now := (files - removed)[n := s'.disk.chunks[key.metric][n]];
                 forall p: Point :: multiset(Filter(ColdPoints(files, key.labels), from, to))[p]
                                 <= multiset(Filter(ColdPoints(now, key.labels), from, to))[p]
  {
    hide Filter, Visible, ColdPoints, NextNumber, MergedFile;
    CompactVisible(s, threshold, s', key);
    SameRange(Visible(s, key), Visible(s', key), from, to);
    if key.metric in s.disk.chunks && s'.disk.chunks[key.metric] != s.disk.chunks[key.metric]
       && removed <= s.disk.chunks[key.metric].Keys {
      var files, n := s.disk.chunks[key.metric], NextNumber(s.disk.chunks[key.metric]);
      assert CompactedDir(files, threshold, s'.disk.chunks[key.metric]);
      var g := s'.disk.chunks[key.metric][n];
      CompactNeverLoses(files, g, removed, key.labels);
      MoreInRange(ColdPoints(files, key.labels), ColdPoints((files - removed)[n := g], key.labels), from, to);
    }
  }

  lemma {:induction false} MoreInRange(ps: seq<Point>, qs: seq<Point>, from: int, to: int)
    requires multiset(ps) <= multiset(qs)
    ensures forall p: Point :: multiset(Filter(ps, from, to))[p] <= multiset(Filter(qs, from, to))[p]
  {
    hide Filter, InRange;
    FilterMembers(ps, from, to);
    FilterMembers(qs, from, to);
  }

  // ---- late points ----

  /** A push shows in full at once exactly when all its points are after the watermark: a late
      point stays hidden, until the next flush. */
  lemma {:induction false} PushShowsExactly(s: State, rec: Record, universe: set<Series>)
    requires Shape(s, universe) && GoodRecord(rec, universe)
    ensures multiset(Visible(Push(s, rec), rec.Key())) == multiset(Visible(s, rec.Key())) + multiset(rec.points)
       <==> AllAbove(rec.points, s.flushedUpTo)
  {
    hide Storable, SeriesKey.Hash, ColdPoints, MemPoints, InsertAll, After, GoodIndex, GoodChunks, HotPoints,
      ApplyRecord, IndexRecord, NoCollision, AllAbove, Sorted, GoodMem, GoodRecord;
    var key, t, s' := rec.Key(), s.flushedUpTo, Push(s, rec);
    GoodKey(rec, universe);
    PushShape(s, rec, universe);
    HotIsAfter(s, universe, key);
    HotIsAfter(s', universe, key);
    ApplyPoints(s.mem, rec, universe, key);
    MemSorted(s.mem, universe, key);
    LateInsert(MemPoints(s.mem, key), rec.points, t);
    SameCold(s, rec);
    var cold := multiset(ColdPoints(s.Dir(key.metric), key.labels));
    var hot, hot' := multiset(HotPoints(s, key)), multiset(HotPoints(s', key));
    assert multiset(Visible(s, key)) == cold + hot;
    assert multiset(Visible(s', key)) == cold + hot';
    Cancel(cold, hot', hot + multiset(rec.points));
    assert cold + (hot + multiset(rec.points)) == cold + hot + multiset(rec.points);
  }

  lemma {:induction false} Cancel(c: multiset<Point>, a: multiset<Point>, b: multiset<Point>)
    ensures c + a == c + b <==> a == b
  {
    if c + a == c + b {
      forall p: Point ensures a[p] == b[p] {
        assert (c + a)[p] == (c + b)[p];
      }
    }
  }

  lemma {:induction false} SameCold(s: State, rec: Record)
    ensures Push(s, rec).disk.chunks == s.disk.chunks && Push(s, rec).mem == ApplyRecord(s.mem, rec)
  {
  }

  /** Inserting points adds all of them after a time exactly when all are after it. */
  lemma {:induction false} LateInsert(ps: seq<Point>, more: seq<Point>, t: int)
    requires Sorted(ps)
    ensures multiset(After(InsertAll(ps, more), t)) == multiset(After(ps, t)) + multiset(more) <==> AllAbove(more, t)
  {
    hide InsertAll, After, Sorted;
    InsertAllKeepsOrder(ps, more);
    AfterCounts(ps, t);
    AfterCounts(InsertAll(ps, more), t);
    var both, sum := multiset(After(InsertAll(ps, more), t)), multiset(After(ps, t)) + multiset(more);
    if AllAbove(more, t) {
      forall p: Point ensures both[p] == sum[p] {
        if p.ts <= t {
          assert p !in more;
        }
      }
      assert both == sum;
    }
    if both == sum {
      forall p | p in more ensures p.ts > t {
        assert p in multiset(more) && p in sum && p in both;
      }
    }
  }
}
