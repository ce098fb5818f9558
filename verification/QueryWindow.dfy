/** Queries with a window: every series of the raw answer grouped into windows. */
module QueryWindow {
  import opened Words
  import opened Model
  import opened Points
  import opened EngineState
  import opened ChunkQuery
  import opened Aggregate

  /** The last window of the content of each series ends inside int64. */
  ghost predicate Aggregable(
    metric: Str, filter: Labels, content: Series -> seq<Point>, from: int64, window: int)
  {
    forall key: Series :: key.metric == metric && LabelsMatch(filter, key.labels) ==>
      LastEndFits(content(key), from, window)
  }

  /** The result of one series: at most one point for each window, and for content in time order
      exactly its content grouped into windows. */
  ghost predicate WindowEntry(
    rec: Record, metric: Str, filter: Labels, content: Series -> seq<Point>, from: int64, window: int,
    agg: seq<uint64> -> uint64)
    requires window > 0
  {
    var ps := content(rec.Key());
    && rec.metric == metric && LabelsMatch(filter, rec.labels) && rec.points != [] && ps != []
    && Windows(rec.points, ps, FirstBucket(BaseOf(ps, from), window), window, agg)
  }

  ghost predicate Windows(r: seq<Point>, ps: seq<Point>, start: int, win: int, agg: seq<uint64> -> uint64)
    requires win > 0 && ps != []
  {
    AtWindows(r, start, win, ps[|ps| - 1].ts + 1) && (Sorted(ps) ==> GroupBy(r, ps, start, win, agg))
  }

  /** The content of the series is in time order and some point lies in a window. */
  ghost predicate HasWindows(key: Series, content: Series -> seq<Point>, from: int64, window: int)
    requires window > 0
  {
    var ps := content(key);
    ps != [] && Sorted(ps) && exists p :: p in ps && p.ts >= FirstBucket(BaseOf(ps, from), window)
  }

  /** A windowed answer: each matching series with a point in some window exactly once. */
  ghost predicate WindowAnswer(
    results: seq<Record>, metric: Str, filter: Labels, content: Series -> seq<Point>, from: int64, window: int,
    agg: seq<uint64> -> uint64)
    requires window > 0
  {
    && (forall i, j :: 0 <= i < j < |results| ==> results[i].Key() != results[j].Key())
    && (forall rec :: rec in results ==> WindowEntry(rec, metric, filter, content, from, window, agg))
    && (forall key: Series ::
          key.metric == metric && LabelsMatch(filter, key.labels) && HasWindows(key, content, from, window) ==>
            Mentions(results, key))
  }

  /** The records of the raw answer up to i are grouped. */
  ghost predicate WindowsOf(
    results: seq<Record>, raw: seq<Record>, i: nat, metric: Str, filter: Labels, content: Series -> seq<Point>,
    from: int64, window: int, agg: seq<uint64> -> uint64)
    requires window > 0 && i <= |raw|
  {
    && (forall j, k :: 0 <= j < k < |results| ==> results[j].Key() != results[k].Key())
    && (forall rec :: rec in results ==>
          WindowEntry(rec, metric, filter, content, from, window, agg) && Mentions(raw[..i], rec.Key()))
    && (forall rec :: rec in raw[..i] && HasWindows(rec.Key(), content, from, window) ==> Mentions(results, rec.Key()))
  }

  lemma {:induction false} WindowsStep(
    results: seq<Record>, raw: seq<Record>, i: nat, points: seq<Point>, metric: Str, filter: Labels,
    content: Series -> seq<Point>, from: int64, window: int, agg: seq<uint64> -> uint64)
    requires window > 0 && i < |raw| && AnswerEntry(raw[i], metric, filter, content)
    requires forall q :: q in raw[..i] ==> q.Key() != raw[i].Key()
    requires WindowsOf(results, raw, i, metric, filter, content, from, window, agg)
    requires raw[i].points != []
    requires Windows(points, raw[i].points, FirstBucket(BaseOf(raw[i].points, from), window), window, agg)
    ensures
      var more := if points == [] then results else results + [raw[i].(points := points)];
      WindowsOf(more, raw, i + 1, metric, filter, content, from, window, agg)
  {
    hide LabelsMatch, Windows, FirstBucket, BaseOf, WindowEntry, HasWindows, AnswerEntry;
    var rec := raw[i];
    OneGrouped(rec, points, metric, filter, content, from, window, agg);
    assert raw[..i + 1] == raw[..i] + [rec];
    forall r | r in results ensures r.Key() != rec.Key() && Mentions(raw[..i], r.Key()) {
      var q :| q in raw[..i] && q.Key() == r.Key();
    }
    MentionsMore(raw[..i], rec);
    MentionsMore(results, rec.(points := points));
    hide Mentions;
  }

  lemma {:induction false} MentionsMore(recs: seq<Record>, rec: Record)
    ensures forall key: Series :: Mentions(recs + [rec], key) <==> Mentions(recs, key) || rec.Key() == key
  {
    forall key: Series ensures Mentions(recs + [rec], key) <==> Mentions(recs, key) || rec.Key() == key {
      if Mentions(recs, key) {
        var r :| r in recs && r.Key() == key;
        assert r in recs + [rec];
      }
      assert rec in recs + [rec];
    }
  }

  /** One record of the raw answer: grouped, or without a window. */
  lemma {:induction false} OneGrouped(
    rec: Record, points: seq<Point>, metric: Str, filter: Labels, content: Series -> seq<Point>, from: int64,
    window: int, agg: seq<uint64> -> uint64)
    requires window > 0 && AnswerEntry(rec, metric, filter, content)
    requires rec.points != [] && Windows(points, rec.points, FirstBucket(BaseOf(rec.points, from), window), window, agg)
    ensures points != [] ==> WindowEntry(rec.(points := points), metric, filter, content, from, window, agg)
    ensures points == [] ==> !HasWindows(rec.Key(), content, from, window)
  {
    hide LabelsMatch, Windows, FirstBucket, BaseOf;
    EmptyGroups(points, rec.points, FirstBucket(BaseOf(rec.points, from), window), window, agg);
  }

  /** Without groups no point lies in a window. */
  lemma {:induction false} EmptyGroups(r: seq<Point>, ps: seq<Point>, start: int, win: int, agg: seq<uint64> -> uint64)
    requires win > 0 && ps != [] && Windows(r, ps, start, win, agg)
    ensures r == [] && Sorted(ps) ==> forall p :: p in ps ==> p.ts < start
  {
    hide Bucket, BucketOf, Sorted;
  }

  /** The second half of Query: aggregate each series, and leave out those without windows. */
  method GroupAll(
    raw: seq<Record>, ghost metric: Str, ghost filter: Labels, ghost content: Series -> seq<Point>, from: int64,
    window: int64, agg: seq<uint64> -> uint64)
    returns (results: seq<Record>)
    requires Answer(raw, metric, filter, content) && Aggregable(metric, filter, content, from, window)
    ensures window > 0 ==> WindowAnswer(results, metric, filter, content, from, window, agg)
    ensures window <= 0 ==> results == []
  {
    hide LabelsMatch, Windows, FirstBucket, BaseOf, WindowsOf, Sorted, Answer, AnswerEntry, WindowEntry, HasWindows,
      Aggregable, WindowAnswer, LastEndFits;
    results := [];
    if window > 0 {
      NoWindows(raw, metric, filter, content, from, window, agg);
    }
    var i := 0;
    while i < |raw|
      invariant 0 <= i <= |raw|
      invariant window > 0 ==> WindowsOf(results, raw, i, metric, filter, content, from, window, agg)
      invariant window <= 0 ==> results == []
    {
      RawSeries(raw, i, metric, filter, content, from, window);
      var points := AggregatePoints(raw[i].points, from, window, agg);
      if window > 0 {
        assert Windows(points, raw[i].points, FirstBucket(BaseOf(raw[i].points, from), window), window, agg) by {
          WindowsMade(points, raw[i].points, from, window, agg);
        }
        WindowsStep(results, raw, i, points, metric, filter, content, from, window, agg);
      }
      if |points| != 0 {
        results := results + [raw[i].(points := points)];
      }
      i := i + 1;
    }
    if window > 0 {
      AllWindows(results, raw, metric, filter, content, from, window, agg);
    }
  }

  lemma {:induction false} WindowsMade(r: seq<Point>, ps: seq<Point>, from: int64, win: int, agg: seq<uint64> -> uint64)
    requires win > 0 && ps != []
    requires
      var start := FirstBucket(BaseOf(ps, from), win);
      AtWindows(r, start, win, ps[|ps| - 1].ts + 1) && (Sorted(ps) ==> GroupBy(r, ps, start, win, agg))
    ensures Windows(r, ps, FirstBucket(BaseOf(ps, from), win), win, agg)
  {
    hide FirstBucket, BaseOf, AtWindows, GroupBy, Sorted;
  }

  lemma {:induction false} NoWindows(
    raw: seq<Record>, metric: Str, filter: Labels, content: Series -> seq<Point>, from: int64, window: int,
    agg: seq<uint64> -> uint64)
    requires window > 0
    ensures WindowsOf([], raw, 0, metric, filter, content, from, window, agg)
  {
  }

  lemma {:induction false} RawSeries(
    raw: seq<Record>, i: nat, metric: Str, filter: Labels, content: Series -> seq<Point>, from: int64, window: int)
    requires i < |raw| && Answer(raw, metric, filter, content) && Aggregable(metric, filter, content, from, window)
    ensures AnswerEntry(raw[i], metric, filter, content)
    ensures forall q :: q in raw[..i] ==> q.Key() != raw[i].Key()
    ensures raw[i].points != [] && LastEndFits(raw[i].points, from, window)
  {
    hide LabelsMatch, LastEndFits;
    assert raw[i] in raw && AnswerEntry(raw[i], metric, filter, content);
  }

  lemma {:induction false} AllWindows(
    results: seq<Record>, raw: seq<Record>, metric: Str, filter: Labels, content: Series -> seq<Point>, from: int64,
    window: int, agg: seq<uint64> -> uint64)
    requires window > 0 && Answer(raw, metric, filter, content)
    requires WindowsOf(results, raw, |raw|, metric, filter, content, from, window, agg)
    ensures WindowAnswer(results, metric, filter, content, from, window, agg)
  {
    hide LabelsMatch, Windows, FirstBucket, BaseOf, WindowEntry;
    assert raw[..|raw|] == raw;
    forall key: Series |
      key.metric == metric && LabelsMatch(filter, key.labels) && HasWindows(key, content, from, window)
      ensures Mentions(results, key)
    {
      assert content(key) != [];
      var rec :| rec in raw && rec.Key() == key;
      assert Mentions(results, rec.Key());
    }
  }
}
