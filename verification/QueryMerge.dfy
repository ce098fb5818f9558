/** Merging what the chunk files and the memory answer to one query. */
module QueryMerge {
  import opened Words
  import opened Model
  import opened Points
  import opened EngineState
  import opened EngineLemmas
  import opened EngineInvariant
  import opened EngineSound
  import opened Names
  import opened ChunkQuery
  import SeriesKey

  /** The points in range that memory holds after the watermark. */
  ghost function HotContent(s: State, from: int, to: int): Series -> seq<Point> {
    (key: Series) => Filter(HotPoints(s, key), from, to)
  }

  /** The points in range that queries see: the whole answer. */
  ghost function VisibleContent(s: State, from: int, to: int): Series -> seq<Point> {
    (key: Series) => Filter(Visible(s, key), from, to)
  }

  ghost predicate FromKeys(results: seq<Record>, universe: set<Series>) {
    forall rec :: rec in results ==> rec.Key() in universe
  }

  /** A cold record followed by the hot points of the same id. */
  ghost function Joined(rec: Record, byId: map<uint64, Record>): Record {
    var id := SeriesKey.Hash(rec.Key());
    if id in byId then rec.(points := rec.points + byId[id].points) else rec
  }

  method IndexHot(hot: seq<Record>) returns (byId: map<uint64, Record>)
    ensures forall id :: id in byId ==> byId[id] in hot && SeriesKey.Hash(byId[id].Key()) == id
    ensures forall rec :: rec in hot ==> SeriesKey.Hash(rec.Key()) in byId
  {
    hide SeriesKey.Hash;
    byId := map[];
    var i := 0;
    while i < |hot|
      invariant 0 <= i <= |hot|
      invariant forall id :: id in byId ==> byId[id] in hot && SeriesKey.Hash(byId[id].Key()) == id
      invariant forall rec :: rec in hot[..i] ==> SeriesKey.Hash(rec.Key()) in byId
    {
      var id := SeriesKey.HashSeries(hot[i].metric, hot[i].labels);
      byId := byId[id := hot[i]];
      assert hot[..i + 1] == hot[..i] + [hot[i]];
      i := i + 1;
    }
    assert hot[..i] == hot;
  }

  method JoinCold(cold: seq<Record>, byId: map<uint64, Record>) returns (result: seq<Record>, used: set<uint64>)
    ensures |result| == |cold| && forall i :: 0 <= i < |cold| ==> result[i] == Joined(cold[i], byId)
    ensures forall id :: id in used ==> id in byId && exists rec :: rec in cold && SeriesKey.Hash(rec.Key()) == id
    ensures forall rec :: rec in cold && SeriesKey.Hash(rec.Key()) in byId ==> SeriesKey.Hash(rec.Key()) in used
  {
    hide SeriesKey.Hash;
    result, used := [], {};
    while |result| < |cold|
      invariant |result| <= |cold| && forall i :: 0 <= i < |result| ==> result[i] == Joined(cold[i], byId)
      invariant forall id :: id in used ==> id in byId && exists rec :: rec in cold && SeriesKey.Hash(rec.Key()) == id
      invariant forall rec :: rec in cold[..|result|] && SeriesKey.Hash(rec.Key()) in byId ==>
                  SeriesKey.Hash(rec.Key()) in used
    {
      var c := cold[|result|];
      assert cold[..|result| + 1] == cold[..|result|] + [c];
      var id := SeriesKey.HashSeries(c.metric, c.labels);
      if id in byId {
        result := result + [c.(points := c.points + byId[id].points)];
        used := used + {id};
      } else {
        result := result + [c];
      }
    }
    assert cold[..|result|] == cold;
  }

  method UnusedHot(hot: seq<Record>, used: set<uint64>) returns (rest: seq<Record>)
    requires forall i, j :: 0 <= i < j < |hot| ==> hot[i].Key() != hot[j].Key()
    ensures forall rec :: rec in rest <==> rec in hot && SeriesKey.Hash(rec.Key()) !in used
    ensures forall i, j :: 0 <= i < j < |rest| ==> rest[i].Key() != rest[j].Key()
  {
    hide SeriesKey.Hash;
    rest := [];
    var i := 0;
    while i < |hot|
      invariant 0 <= i <= |hot|
      invariant forall rec :: rec in rest <==> rec in hot[..i] && SeriesKey.Hash(rec.Key()) !in used
      invariant forall j, k :: 0 <= j < k < |rest| ==> rest[j].Key() != rest[k].Key()
    {
      assert hot[..i + 1] == hot[..i] + [hot[i]];
      var id := SeriesKey.HashSeries(hot[i].metric, hot[i].labels);
      if id !in used {
        forall j | 0 <= j < |rest| ensures rest[j].Key() != hot[i].Key() {
          assert rest[j] in hot[..i];
        }
        rest := rest + [hot[i]];
      }
      i := i + 1;
    }
    assert hot[..i] == hot;
  }

  ghost function Both(c: Series -> seq<Point>, h: Series -> seq<Point>): Series -> seq<Point> {
    (key: Series) => c(key) + h(key)
  }

  /** A cold record joined with its hot points has exactly the content of both. */
  lemma {:induction false} JoinedContent(
    rec: Record, hot: seq<Record>, byId: map<uint64, Record>, metric: Str, filter: Labels,
    c: Series -> seq<Point>, h: Series -> seq<Point>, universe: set<Series>)
    requires NoCollision(universe) && rec.Key() in universe && FromKeys(hot, universe)
    requires AnswerEntry(rec, metric, filter, c) && Answer(hot, metric, filter, h)
    requires forall id :: id in byId ==> byId[id] in hot && SeriesKey.Hash(byId[id].Key()) == id
    requires forall r :: r in hot ==> SeriesKey.Hash(r.Key()) in byId
    ensures AnswerEntry(Joined(rec, byId), metric, filter, Both(c, h)) && Joined(rec, byId).Key() == rec.Key()
  {
    hide SeriesKey.Hash, LabelsMatch;
    var id := SeriesKey.Hash(rec.Key());
    if id in byId {
      assert byId[id].Key() == rec.Key();
      assert AnswerEntry(byId[id], metric, filter, h);
    } else {
      assert !Mentions(hot, rec.Key());
    }
  }

  /** A hot record that no cold record used belongs to a series without cold content. */
  lemma {:induction false} UnusedContent(
    rec: Record, cold: seq<Record>, byId: map<uint64, Record>, used: set<uint64>, metric: Str, filter: Labels,
    c: Series -> seq<Point>, h: Series -> seq<Point>)
    requires Answer(cold, metric, filter, c) && AnswerEntry(rec, metric, filter, h)
    requires SeriesKey.Hash(rec.Key()) in byId && SeriesKey.Hash(rec.Key()) !in used
    requires forall r :: r in cold && SeriesKey.Hash(r.Key()) in byId ==> SeriesKey.Hash(r.Key()) in used
    ensures AnswerEntry(rec, metric, filter, Both(c, h)) && !Mentions(cold, rec.Key())
  {
    hide SeriesKey.Hash, LabelsMatch;
    assert !Mentions(cold, rec.Key());
    assert c(rec.Key()) == [];
  }

  lemma {:induction false} MergedAnswer(
    cold: seq<Record>, hot: seq<Record>, joined: seq<Record>, rest: seq<Record>, metric: Str, filter: Labels,
    c: Series -> seq<Point>, h: Series -> seq<Point>, content: Series -> seq<Point>)
    requires Answer(cold, metric, filter, c) && Answer(hot, metric, filter, h) && content == Both(c, h)
    requires |joined| == |cold|
    requires forall i :: 0 <= i < |cold| ==>
               joined[i].Key() == cold[i].Key() && AnswerEntry(joined[i], metric, filter, content)
    requires forall rec :: rec in rest ==> AnswerEntry(rec, metric, filter, content) && !Mentions(cold, rec.Key())
    requires forall i, j :: 0 <= i < j < |rest| ==> rest[i].Key() != rest[j].Key()
    requires forall rec :: rec in hot ==> rec in rest || Mentions(cold, rec.Key())
    ensures Answer(joined + rest, metric, filter, content)
  {
    hide LabelsMatch, AnswerEntry;
    var all := joined + rest;
    forall i, j | 0 <= i < j < |all| ensures all[i].Key() != all[j].Key() {
      if i < |cold| <= j {
        assert all[j] in rest && cold[i] in cold;
      }
    }
    forall rec | rec in all ensures AnswerEntry(rec, metric, filter, content) {
      var i :| 0 <= i < |all| && all[i] == rec;
      if i >= |cold| {
        assert rec in rest;
      }
    }
    forall key: Series | key.metric == metric && LabelsMatch(filter, key.labels) && content(key) != []
      ensures Mentions(all, key)
    {
      if Mentions(cold, key) {
        var rec :| rec in cold && rec.Key() == key;
        var i :| 0 <= i < |cold| && cold[i] == rec;
        assert all[i] in all && all[i].Key() == key;
      } else {
        assert c(key) == [] && h(key) != [];
        var rec :| rec in hot && rec.Key() == key;
        assert rec in all;
      }
    }
  }

  /** mergeQueryResults: cold points come before hot ones, and no series is given twice. */
  method MergeResults(
    cold: seq<Record>, hot: seq<Record>, ghost metric: Str, ghost filter: Labels,
    ghost c: Series -> seq<Point>, ghost h: Series -> seq<Point>, ghost universe: set<Series>)
    returns (result: seq<Record>)
    requires NoCollision(universe) && FromKeys(cold, universe) && FromKeys(hot, universe)
    requires Answer(cold, metric, filter, c) && Answer(hot, metric, filter, h)
    ensures Answer(result, metric, filter, Both(c, h))
  {
    hide SeriesKey.Hash, LabelsMatch, NoCollision, AnswerEntry, Joined;
    var byId := IndexHot(hot);
    var joined, used := JoinCold(cold, byId);
    forall i | 0 <= i < |cold|
      ensures joined[i].Key() == cold[i].Key() && AnswerEntry(joined[i], metric, filter, Both(c, h))
    {
      assert cold[i] in cold;
      JoinedContent(cold[i], hot, byId, metric, filter, c, h, universe);
    }
    var rest := UnusedHot(hot, used);
    forall rec | rec in rest ensures AnswerEntry(rec, metric, filter, Both(c, h)) && !Mentions(cold, rec.Key()) {
      UnusedContent(rec, cold, byId, used, metric, filter, c, h);
    }
    forall rec | rec in hot ensures rec in rest || Mentions(cold, rec.Key()) {
      if SeriesKey.Hash(rec.Key()) in used {
        var r :| r in cold && SeriesKey.Hash(r.Key()) == SeriesKey.Hash(rec.Key());
        SameSeries(r.Key(), rec.Key(), universe);
      }
    }
    result := joined + rest;
    MergedAnswer(cold, hot, joined, rest, metric, filter, c, h, Both(c, h));
  }

  lemma {:induction false} SameSeries(a: Series, b: Series, universe: set<Series>)
    requires NoCollision(universe) && a in universe && b in universe && SeriesKey.Hash(a) == SeriesKey.Hash(b)
    ensures a == b
  {
  }

  /** Two contents that agree on the metric have the same answers. */
  lemma {:induction false} SameAnswer(
    results: seq<Record>, metric: Str, filter: Labels, a: Series -> seq<Point>, b: Series -> seq<Point>)
    requires Answer(results, metric, filter, a)
    requires forall key: Series :: key.metric == metric && LabelsMatch(filter, key.labels) ==> a(key) == b(key)
    ensures Answer(results, metric, filter, b)
  {
    hide LabelsMatch;
    forall rec | rec in results ensures AnswerEntry(rec, metric, filter, b) {
      assert AnswerEntry(rec, metric, filter, a);
    }
  }

  /** An empty answer means that there is no content. */
  lemma {:induction false} NoAnswer(
    results: seq<Record>, metric: Str, filter: Labels, c: Series -> seq<Point>, key: Series)
    requires Answer(results, metric, filter, c) && results == []
    requires key.metric == metric && LabelsMatch(filter, key.labels)
    ensures c(key) == []
  {
    assert !Mentions(results, key);
  }

  lemma {:induction false} ColdKeys(
    cold: seq<Record>, files: Files, metric: Str, filter: Labels, from: int, to: int, universe: set<Series>)
    requires Answer(cold, metric, filter, ColdContent(files, from, to)) && SoundFiles(files, metric, universe)
    ensures FromKeys(cold, universe)
  {
    hide ColdPoints, GoodFile, LabelsMatch, Filter;
    forall rec | rec in cold ensures rec.Key() in universe {
      assert AnswerEntry(rec, metric, filter, ColdContent(files, from, to));
      var ps := ColdPoints(files, rec.labels);
      FilterMembers(ps, from, to);
      assert rec.points[0] in multiset(Filter(ps, from, to));
      assert rec.points[0] in multiset(ps);
      ColdInHeader(files, metric, universe, rec.labels, rec.points[0]);
    }
  }

  /** The points in range that queries read of a series: those of a directory, then those of
      memory after the watermark. */
  ghost function DirContent(s: State, dir: Str, from: int, to: int): Series -> seq<Point> {
    (key: Series) => Filter(ColdPoints(s.Dir(dir), key.labels) + HotPoints(s, key), from, to)
  }

  /** For a metric that names its own directory this is all that is visible. */
  lemma {:induction false} OwnContent(s: State, metric: Str, filter: Labels, from: int, to: int, results: seq<Record>)
    requires Answer(results, metric, filter, DirContent(s, metric, from, to))
    ensures Answer(results, metric, filter, VisibleContent(s, from, to))
  {
    hide ColdPoints, HotPoints, Filter, LabelsMatch, Answer;
    SameAnswer(results, metric, filter, DirContent(s, metric, from, to), VisibleContent(s, from, to));
  }

  /** Cold content followed by hot content is all that a query reads, in range. */
  lemma {:induction false} BothRead(s: State, dir: Str, from: int, to: int, key: Series)
    ensures Both(ColdContent(s.Dir(dir), from, to), HotContent(s, from, to))(key) == DirContent(s, dir, from, to)(key)
  {
    hide ColdPoints, HotPoints, Filter;
    FilterConcat(ColdPoints(s.Dir(dir), key.labels), HotPoints(s, key), from, to);
  }

  /** The three ways the query combines its two answers all give what is to be read. */
  method Combine(
    cold: seq<Record>, hot: seq<Record>, ghost s: State, ghost metric: Str, ghost filter: Labels, ghost from: int,
    ghost to: int, ghost universe: set<Series>)
    returns (raw: seq<Record>)
    requires NoCollision(universe) && FromKeys(cold, universe) && FromKeys(hot, universe)
    requires Answer(cold, metric, filter, ColdContent(s.Dir(SanitizeMetric(metric)), from, to))
    requires Answer(hot, metric, filter, HotContent(s, from, to))
    ensures Answer(raw, metric, filter, DirContent(s, SanitizeMetric(metric), from, to))
    ensures OwnName(metric) ==> Answer(raw, metric, filter, VisibleContent(s, from, to))
  {
    hide NoCollision, FromKeys, Answer, LabelsMatch, ColdContent, HotContent, DirContent, VisibleContent,
      SanitizeMetric;
    ghost var dir := SanitizeMetric(metric);
    ghost var c, h := ColdContent(s.Dir(dir), from, to), HotContent(s, from, to);
    forall key: Series | key.metric == metric && LabelsMatch(filter, key.labels)
      ensures Both(c, h)(key) == DirContent(s, dir, from, to)(key)
      ensures |cold| == 0 ==> h(key) == DirContent(s, dir, from, to)(key)
      ensures |hot| == 0 ==> c(key) == DirContent(s, dir, from, to)(key)
    {
      BothRead(s, dir, from, to, key);
      if |cold| == 0 {
        NoAnswer(cold, metric, filter, c, key);
      }
      if |hot| == 0 {
        NoAnswer(hot, metric, filter, h, key);
      }
    }
    if |cold| == 0 {
      raw := hot;
      SameAnswer(raw, metric, filter, h, DirContent(s, dir, from, to));
    } else if |hot| == 0 {
      raw := cold;
      SameAnswer(raw, metric, filter, c, DirContent(s, dir, from, to));
    } else {
      raw := MergeResults(cold, hot, metric, filter, c, h, universe);
      SameAnswer(raw, metric, filter, Both(c, h), DirContent(s, dir, from, to));
    }
    if OwnName(metric) {
      OwnContent(s, metric, filter, from, to, raw);
    }
  }
}
