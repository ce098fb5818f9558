/** Reading the chunk files of one metric: label filter, time range and header pruning. */
module ChunkQuery {
  import opened Words
  import opened Model
  import opened Points
  import opened EngineState
  import opened EngineLemmas
  import opened EngineInvariant
  import opened ChunkFormat
  import opened Chunk
  import opened Names
  import opened Binary
  import opened Crc
  import opened DiskContent
  import opened ChunkStore
  import SeriesKey

  /** The series gathered so far: every matching one with a point in range once, under its id,
      with exactly its points in range. */
  ghost predicate Gathered(
    m: map<uint64, Record>, metric: Str, filter: Labels, from: int, to: int, done: seq<SeriesData>)
  {
    && (forall id :: id in m ==> GatheredEntry(id, m[id], metric, filter, from, to, done))
    && (forall d :: d in done && LabelsMatch(filter, d.labels) && Filter(FilePoints(done, d.labels), from, to) != [] ==>
          SeriesKey.Hash(Series(metric, d.labels)) in m)
  }

  ghost predicate GatheredEntry(
    id: uint64, rec: Record, metric: Str, filter: Labels, from: int, to: int, done: seq<SeriesData>)
  {
    && SeriesKey.Hash(rec.Key()) == id && rec.metric == metric && LabelsMatch(filter, rec.labels)
    && (exists d :: d in done && d.labels == rec.labels)
    && rec.points != [] && rec.points == Filter(FilePoints(done, rec.labels), from, to)
  }

  ghost predicate SeriesFrom(done: seq<SeriesData>, metric: Str, universe: set<Series>) {
    forall d :: d in done ==> Series(metric, d.labels) in universe
  }

  /** A series that is filtered out, or has no point in range, changes nothing. */
  lemma {:induction false} GatherSkip(
    m: map<uint64, Record>, metric: Str, filter: Labels, from: int, to: int, done: seq<SeriesData>, d: SeriesData)
    requires Gathered(m, metric, filter, from, to, done)
    requires !LabelsMatch(filter, d.labels) || Filter(d.points, from, to) == []
    ensures Gathered(m, metric, filter, from, to, done + [d])
  {
    hide LabelsMatch, FilePoints, Filter, SeriesKey.Hash;
    forall labels | LabelsMatch(filter, labels)
      ensures Filter(FilePoints(done + [d], labels), from, to) == Filter(FilePoints(done, labels), from, to)
    {
      FilePointsPush(done, d, labels);
      FilterConcat(FilePoints(done, labels), Own(d, labels), from, to);
      FilterNone([], from, to);
    }
    forall id | id in m ensures GatheredEntry(id, m[id], metric, filter, from, to, done + [d]) {
      var e :| e in done && e.labels == m[id].labels;
      assert e in done + [d];
    }
    forall e | e in done + [d] && LabelsMatch(filter, e.labels)
               && Filter(FilePoints(done + [d], e.labels), from, to) != []
      ensures SeriesKey.Hash(Series(metric, e.labels)) in m
    {
      if e !in done {
        FilePointsSome(done, d.labels, from, to);
      }
    }
  }

  lemma {:induction false} FilePointsSome(done: seq<SeriesData>, labels: Labels, from: int, to: int)
    requires Filter(FilePoints(done, labels), from, to) != []
    ensures exists e :: e in done && e.labels == labels
  {
    hide Filter;
    if FilePoints(done, labels) == [] {
      FilterNone([], from, to);
    } else {
      FilePointsMember(done, labels, FilePoints(done, labels)[0]);
    }
  }

  /** The entry of a series after its points in range are appended. */
  function GatherEntry(m: map<uint64, Record>, id: uint64, metric: Str, labels: Labels, points: seq<Point>): Record {
    if id in m then m[id].(points := m[id].points + points) else Record(metric, labels, points)
  }

  lemma {:induction false} GatherAdd(
    m: map<uint64, Record>, metric: Str, filter: Labels, from: int, to: int, done: seq<SeriesData>, d: SeriesData,
    universe: set<Series>)
    requires NoCollision(universe) && SeriesFrom(done + [d], metric, universe)
    requires Gathered(m, metric, filter, from, to, done)
    requires LabelsMatch(filter, d.labels) && Filter(d.points, from, to) != []
    ensures
      var id := SeriesKey.Hash(Series(metric, d.labels));
      var m' := m[id := GatherEntry(m, id, metric, d.labels, Filter(d.points, from, to))];
      Gathered(m', metric, filter, from, to, done + [d])
  {
    hide LabelsMatch, FilePoints, Filter, SeriesKey.Hash;
    var key := Series(metric, d.labels);
    var id := SeriesKey.Hash(key);
    var points := Filter(d.points, from, to);
    var m' := m[id := GatherEntry(m, id, metric, d.labels, points)];
    assert d in done + [d];
    forall labels
      ensures Filter(FilePoints(done + [d], labels), from, to)
           == Filter(FilePoints(done, labels), from, to) + (if d.labels == labels then points else [])
    {
      FilePointsPush(done, d, labels);
      FilterConcat(FilePoints(done, labels), Own(d, labels), from, to);
      FilterNone([], from, to);
    }
    if id in m {
      SameKey(done, m[id].labels, metric, universe);
      assert m[id].Key() == key;
    } else {
      if Filter(FilePoints(done, d.labels), from, to) != [] {
        FilePointsSome(done, d.labels, from, to);
      }
      assert Filter(FilePoints(done, d.labels), from, to) == [];
    }
    forall i | i in m' ensures GatheredEntry(i, m'[i], metric, filter, from, to, done + [d]) {
      if i != id {
        var e :| e in done && e.labels == m[i].labels;
        assert e in done + [d];
        assert m[i].labels != d.labels;
      }
    }
    forall e | e in done + [d] && LabelsMatch(filter, e.labels)
               && Filter(FilePoints(done + [d], e.labels), from, to) != []
      ensures SeriesKey.Hash(Series(metric, e.labels)) in m'
    {
      if e.labels != d.labels {
        assert e in done;
      }
    }
  }

  lemma {:induction false} SameKey(done: seq<SeriesData>, labels: Labels, metric: Str, universe: set<Series>)
    requires SeriesFrom(done, metric, universe) && exists e :: e in done && e.labels == labels
    ensures Series(metric, labels) in universe
  {
  }

  /** Appends the points in range of the matching series of one file. */
  method GatherFile(
    m: map<uint64, Record>, metric: Str, filter: Labels, from: int64, to: int64, series: seq<SeriesData>,
    ghost done: seq<SeriesData>, ghost universe: set<Series>)
    returns (m': map<uint64, Record>)
    requires NoCollision(universe) && SeriesFrom(done + series, metric, universe)
    requires forall d :: d in series ==> Sorted(d.points)
    requires Gathered(m, metric, filter, from, to, done)
    ensures Gathered(m', metric, filter, from, to, done + series)
  {
    hide LabelsMatch, Gathered, NoCollision, Filter, Sorted;
    m' := m;
    var i := 0;
    assert done + series[..0] == done;
    while i < |series|
      invariant 0 <= i <= |series|
      invariant Gathered(m', metric, filter, from, to, done + series[..i])
    {
      var d := series[i];
      ghost var before := done + series[..i];
      assert done + series[..i + 1] == before + [d];
      assert SeriesFrom(before + [d], metric, universe) by {
        forall e | e in before + [d] ensures e in done + series {}
      }
      var matches := MatchLabels(filter, d.labels);
      if matches {
        var points := FilterPoints(d.points, from, to);
        if |points| > 0 {
          GatherAdd(m', metric, filter, from, to, before, d, universe);
          var id := SeriesKey.HashSeries(metric, d.labels);
          m' := m'[id := GatherEntry(m', id, metric, d.labels, points)];
        } else {
          GatherSkip(m', metric, filter, from, to, before, d);
        }
      } else {
        GatherSkip(m', metric, filter, from, to, before, d);
      }
      i := i + 1;
    }
    assert done + series[..|series|] == done + series;
  }

  /** labelsMatch: every label of the filter has its value; an absent label reads as "". */
  method MatchLabels(filter: Labels, actual: Labels) returns (r: bool)
    ensures r <==> LabelsMatch(filter, actual)
    ensures r <==> forall k :: k in filter ==>
                     (k in actual && actual[k] == filter[k]) || (k !in actual && filter[k] == [])
  {
    var left := filter.Keys;
    while left != {}
      invariant left <= filter.Keys
      invariant forall k :: k in filter && k !in left ==> (if k in actual then actual[k] else []) == filter[k]
      decreases left
    {
      var k :| k in left;
      if (if k in actual then actual[k] else []) != filter[k] {
        return false;
      }
      left := left - {k};
    }
    r := true;
  }

  // ---- query ----

  /** A file whose header range does not meet the query holds no point in range. */
  lemma {:induction false} PrunedFile(f: ChunkFile, from: int, to: int, metric: Str, universe: set<Series>)
    requires GoodFile(f, metric, universe)
    requires (from > 0 && f.maxTS < from) || (to > 0 && f.minTS > to)
    ensures forall d :: d in f.series ==> Filter(d.points, from, to) == []
  {
    hide Filter, Distinct;
    forall d | d in f.series ensures Filter(d.points, from, to) == [] {
      FilterNone(d.points, from, to);
    }
  }

  lemma {:induction false} SkipFile(
    m: map<uint64, Record>, metric: Str, filter: Labels, from: int, to: int, done: seq<SeriesData>,
    series: seq<SeriesData>)
    requires Gathered(m, metric, filter, from, to, done)
    requires forall d :: d in series ==> Filter(d.points, from, to) == []
    ensures Gathered(m, metric, filter, from, to, done + series)
    decreases series
  {
    hide Gathered, Filter;
    if series == [] {
      assert done + series == done;
    } else {
      assert series[0] in series;
      GatherSkip(m, metric, filter, from, to, done, series[0]);
      SkipFile(m, metric, filter, from, to, done + [series[0]], series[1..]);
      assert done + [series[0]] + series[1..] == done + series;
    }
  }

  lemma {:induction false} GoodSorted(f: ChunkFile, metric: Str, universe: set<Series>)
    requires GoodFile(f, metric, universe)
    ensures forall d :: d in f.series ==> Sorted(d.points)
  {
  }

  // ---- one file ----

  /** The files that can be read have good content. */
  ghost predicate GoodBytes(files: ByteFiles, metric: Str, universe: set<Series>) {
    forall n :: n in files && Readable(files[n]) ==> GoodFile(Content(files[n]), metric, universe)
  }

  /** The header range is wholly outside the query. */
  predicate Outside(minTS: int64, maxTS: int64, from: int, to: int) {
    (from > 0 && maxTS < from) || (to > 0 && minTS > to)
  }

  /** A file that makes a query fail: its header can be read and meets the query, its body
      cannot be read. */
  ghost predicate Blocks(data: seq<byte>, from: int, to: int) {
    && RangeBytes(data).Ok? && !Outside(RangeBytes(data).value.0, RangeBytes(data).value.1, from, to)
    && ReadBytes(data).Err?
  }

  lemma {:induction false} SkipBytes(
    m: map<uint64, Record>, metric: Str, filter: Labels, from: int, to: int, data: seq<byte>, done: seq<SeriesData>,
    universe: set<Series>)
    requires Readable(data) ==> GoodFile(Content(data), metric, universe)
    requires RangeBytes(data).Ok? ==> Outside(RangeBytes(data).value.0, RangeBytes(data).value.1, from, to)
    requires Gathered(m, metric, filter, from, to, done)
    ensures Gathered(m, metric, filter, from, to, done + Content(data).series)
  {
    hide Gathered, GoodFile, ReadBytes, RangeBytes, Filter;
    if Readable(data) {
      PrunedFile(Content(data), from, to, metric, universe);
    }
    SkipFile(m, metric, filter, from, to, done, Content(data).series);
  }

  /** One file of a query: skipped when its header cannot be read or its range is outside the
      query; otherwise its body must be readable. */
  method GatherPruned(
    m: map<uint64, Record>, metric: Str, filter: Labels, from: int64, to: int64, data: seq<byte>,
    ghost done: seq<SeriesData>, ghost universe: set<Series>)
    returns (r: Result<map<uint64, Record>>)
    requires NoCollision(universe) && (Readable(data) ==> GoodFile(Content(data), metric, universe))
    requires SeriesFrom(done + Content(data).series, metric, universe)
    requires Gathered(m, metric, filter, from, to, done)
    ensures r.Err? <==> Blocks(data, from, to)
    ensures r.Ok? ==> Gathered(r.value, metric, filter, from, to, done + Content(data).series)
  {
    hide Gathered, NoCollision, Filter, GoodFile, SeriesFrom, ReadBytes, RangeBytes, FromLE, Checksum;
    var range := ChunkTimeRange(data);
    if range.Err? {
      SkipBytes(m, metric, filter, from, to, data, done, universe);
      return Ok(m);
    }
    if from > 0 && range.value.1 < from {
      SkipBytes(m, metric, filter, from, to, data, done, universe);
      return Ok(m);
    }
    if to > 0 && range.value.0 > to {
      SkipBytes(m, metric, filter, from, to, data, done, universe);
      return Ok(m);
    }
    var series :- ReadFile(data);
    assert series == Content(data).series;
    GoodSorted(Content(data), metric, universe);
    var m' := GatherFile(m, metric, filter, from, to, series, done, universe);
    r := Ok(m');
  }

  lemma {:induction false} SeriesInFrom(files: ByteFiles, order: seq<nat>, metric: Str, universe: set<Series>)
    requires GoodBytes(files, metric, universe)
    ensures SeriesFrom(SeriesIn(Contents(files), order), metric, universe)
    decreases order
  {
    hide RangeIs, Distinct, GoodSeries, ReadBytes, RangeBytes;
    if order != [] {
      SeriesInFrom(files, order[..|order| - 1], metric, universe);
    }
  }

  lemma {:induction false} SeriesInStep(files: Files, order: seq<nat>, i: nat)
    requires i < |order| && order[i] in files
    ensures SeriesIn(files, order[..i + 1]) == SeriesIn(files, order[..i]) + files[order[i]].series
  {
    assert order[..i + 1][..i] == order[..i];
  }

  /** Reads the files in name order, skipping those whose header range is outside the query. */
  method GatherFiles(
    files: ByteFiles, metric: Str, filter: Labels, from: int64, to: int64, ghost universe: set<Series>)
    returns (r: Result<map<uint64, Record>>)
    requires NoCollision(universe) && GoodBytes(files, metric, universe) && forall n :: n in files ==> n < NUMBERS
    ensures r.Err? <==> exists n :: n in files && Blocks(files[n], from, to)
    ensures r.Ok? ==>
              Gathered(r.value, metric, filter, from, to, SeriesIn(Contents(files), Ascending(files.Keys)))
  {
    hide Gathered, NoCollision, Ascending, GoodFile, SeriesFrom, SeriesIn, Content, Readable, Blocks, InNameOrder;
    var order := ListNumbers(files.Keys);
    ghost var contents := Contents(files);
    var m: map<uint64, Record> := map[];
    NothingGathered(metric, filter, from, to);
    assert order[..0] == [];
    var i := 0;
    while i < |order|
      invariant 0 <= i <= |order|
      invariant Gathered(m, metric, filter, from, to, SeriesIn(contents, order[..i]))
      invariant forall j :: 0 <= j < i ==> !Blocks(files[order[j]], from, to)
    {
      var n := order[i];
      assert n in order;
      SeriesInStep(contents, order, i);
      SeriesInFrom(files, order[..i + 1], metric, universe);
      m :- GatherPruned(m, metric, filter, from, to, files[n], SeriesIn(contents, order[..i]), universe);
      i := i + 1;
    }
    assert order[..|order|] == order;
    forall n | n in files ensures !Blocks(files[n], from, to) {
      assert n in order;
    }
    r := Ok(m);
  }

  lemma {:induction false} NothingGathered(metric: Str, filter: Labels, from: int, to: int)
    ensures Gathered(map[], metric, filter, from, to, [])
    ensures forall files :: Gathered(map[], metric, filter, from, to, SeriesIn(files, []))
  {
  }

  // ---- answers ----

  /** A query result: each matching series of the metric with some content exactly once, with
      exactly that content. */
  ghost predicate Answer(results: seq<Record>, metric: Str, filter: Labels, content: Series -> seq<Point>) {
    && (forall i, j :: 0 <= i < j < |results| ==> results[i].Key() != results[j].Key())
    && (forall rec :: rec in results ==> AnswerEntry(rec, metric, filter, content))
    && (forall key: Series :: key.metric == metric && LabelsMatch(filter, key.labels) && content(key) != [] ==>
          Mentions(results, key))
  }

  ghost predicate AnswerEntry(rec: Record, metric: Str, filter: Labels, content: Series -> seq<Point>) {
    rec.metric == metric && LabelsMatch(filter, rec.labels) && rec.points != [] && rec.points == content(rec.Key())
  }

  /** The series of the metric that lack no label of the filter, and no others. */
  ghost predicate Selects(results: seq<Record>, metric: Str, filter: Labels, content: Series -> seq<Point>) {
    && (forall rec :: rec in results ==> rec.metric == metric && !Lacks(rec.labels, filter))
    && (forall key: Series :: key.metric == metric && !Lacks(key.labels, filter) && content(key) != [] ==>
          exists rec :: rec in results && rec.Key() == key && rec.points == content(key))
  }

  lemma {:induction false} AnswerSelects(
    results: seq<Record>, metric: Str, filter: Labels, content: Series -> seq<Point>)
    requires Answer(results, metric, filter, content)
    ensures Selects(results, metric, filter, content)
  {
    hide LabelsMatch, Lacks;
    forall labels: Labels ensures LabelsMatch(filter, labels) <==> !Lacks(labels, filter) {
      LacksExactly(filter, labels);
    }
    forall rec | rec in results ensures rec.metric == metric && !Lacks(rec.labels, filter) {
      assert AnswerEntry(rec, metric, filter, content);
    }
    forall key: Series | key.metric == metric && !Lacks(key.labels, filter) && content(key) != []
      ensures exists rec :: rec in results && rec.Key() == key && rec.points == content(key)
    {
      assert LabelsMatch(filter, key.labels) && Mentions(results, key);
      var rec :| rec in results && rec.Key() == key;
      assert AnswerEntry(rec, metric, filter, content);
    }
  }

  /** The points in range that the files hold of a series. */
  ghost function ColdContent(files: Files, from: int, to: int): Series -> seq<Point> {
    (key: Series) => Filter(ColdPoints(files, key.labels), from, to)
  }

  /** The map with each entry of one series, as a list in some order. */
  method Values(m: map<uint64, Record>) returns (results: seq<Record>)
    requires forall id :: id in m ==> SeriesKey.Hash(m[id].Key()) == id
    ensures forall i, j :: 0 <= i < j < |results| ==> results[i].Key() != results[j].Key()
    ensures forall rec :: rec in results ==> exists id :: id in m && m[id] == rec
    ensures forall id :: id in m ==> m[id] in results
  {
    hide SeriesKey.Hash;
    results := [];
    var left := m.Keys;
    while left != {}
      invariant left <= m.Keys
      invariant forall rec :: rec in results ==> exists id :: id in m && id !in left && m[id] == rec
      invariant forall id :: id in m && id !in left ==> m[id] in results
      invariant forall i, j :: 0 <= i < j < |results| ==> results[i].Key() != results[j].Key()
      decreases left
    {
      var id :| id in left;
      forall i | 0 <= i < |results| ensures results[i].Key() != m[id].Key() {
        assert results[i] in results;
      }
      results := results + [m[id]];
      left := left - {id};
    }
  }

  /** What is gathered from all files of a directory answers the query on cold points. */
  lemma {:induction false} GatheredAnswer(
    m: map<uint64, Record>, files: ByteFiles, metric: Str, filter: Labels, from: int, to: int, results: seq<Record>,
    universe: set<Series>)
    requires NoCollision(universe) && GoodBytes(files, metric, universe)
    requires Gathered(m, metric, filter, from, to, SeriesIn(Contents(files), Ascending(files.Keys)))
    requires forall i, j :: 0 <= i < j < |results| ==> results[i].Key() != results[j].Key()
    requires forall rec :: rec in results ==> exists id :: id in m && m[id] == rec
    requires forall id :: id in m ==> m[id] in results
    ensures Answer(results, metric, filter, ColdContent(Contents(files), from, to))
  {
    hide LabelsMatch, FilePoints, Filter, SeriesKey.Hash, GoodBytes, SeriesIn, Ascending, Contents;
    var order := Ascending(files.Keys);
    var done := SeriesIn(Contents(files), order);
    var content := ColdContent(Contents(files), from, to);
    SeriesInFrom(files, order, metric, universe);
    forall labels ensures FilePoints(done, labels) == ColdPoints(Contents(files), labels) {
      SeriesInPoints(Contents(files), order, labels);
    }
    forall rec | rec in results ensures AnswerEntry(rec, metric, filter, content) {
      var id :| id in m && m[id] == rec;
      assert GatheredEntry(id, rec, metric, filter, from, to, done);
    }
    forall key: Series | key.metric == metric && LabelsMatch(filter, key.labels) && content(key) != []
      ensures Mentions(results, key)
    {
      FilePointsSome(done, key.labels, from, to);
      var id := SeriesKey.Hash(key);
      assert key == Series(metric, key.labels);
      assert id in m && GatheredEntry(id, m[id], metric, filter, from, to, done);
      SameKey(done, m[id].labels, metric, universe);
      SameKey(done, key.labels, metric, universe);
      assert m[id] in results && m[id].Key() == key;
    }
  }

  /** QueryChunks: every matching series of the directory with a point in range, in no
      particular order, exactly as decoding every file and testing every point would give it; an
      error exactly when a file that meets the query by its header has an unreadable body. */
  method QueryChunks(
    chunks: map<Str, ByteFiles>, metric: Str, filter: Labels, from: int64, to: int64, ghost universe: set<Series>)
    returns (r: Result<seq<Record>>)
    requires NoCollision(universe) && GoodBytes(ByteDir(chunks, SanitizeMetric(metric)), metric, universe)
    requires forall n :: n in ByteDir(chunks, SanitizeMetric(metric)) ==> n < NUMBERS
    ensures
      var files := ByteDir(chunks, SanitizeMetric(metric));
      && (r.Err? <==> exists n :: n in files && Blocks(files[n], from, to))
      && (r.Ok? ==> Answer(r.value, metric, filter, ColdContent(Contents(files), from, to)))
      && (r.Ok? ==> Selects(r.value, metric, filter, ColdContent(Contents(files), from, to)))
  {
    hide Gathered, NoCollision, Ascending, GoodBytes, SeriesIn, Answer, Selects, SanitizeMetric, Contents, Blocks;
    var files := ByteDir(chunks, SanitizeMetric(metric));
    var m :- GatherFiles(files, metric, filter, from, to, universe);
    GatheredIds(m, metric, filter, from, to, SeriesIn(Contents(files), Ascending(files.Keys)));
    var results := Values(m);
    GatheredAnswer(m, files, metric, filter, from, to, results, universe);
    AnswerSelects(results, metric, filter, ColdContent(Contents(files), from, to));
    r := Ok(results);
  }

  lemma {:induction false} GatheredIds(
    m: map<uint64, Record>, metric: Str, filter: Labels, from: int, to: int, done: seq<SeriesData>)
    requires Gathered(m, metric, filter, from, to, done)
    ensures forall id :: id in m ==> SeriesKey.Hash(m[id].Key()) == id
  {
  }

  // ---- asking for a metric by another name ----

  /** The series in use, and those of the directory that a query for the metric reads, under the
      name asked for. */
  ghost function Asked(universe: set<Series>, metric: Str): set<Series> {
    universe + (set key: Series | key in universe && key.metric == SanitizeMetric(metric) :: Series(metric, key.labels))
  }

  lemma {:induction false} AskedOwn(universe: set<Series>, metric: Str)
    requires SanitizeMetric(metric) == metric
    ensures Asked(universe, metric) == universe
  {
    assert forall key: Series :: key.metric == metric ==> Series(metric, key.labels) == key;
  }

  lemma {:induction false} AskedFile(f: ChunkFile, metric: Str, universe: set<Series>)
    requires GoodFile(f, SanitizeMetric(metric), universe)
    ensures GoodFile(f, metric, Asked(universe, metric))
  {
    hide SanitizeMetric, RangeIs, Distinct, GoodSeries;
    var dir := SanitizeMetric(metric);
    forall d | d in f.series ensures GoodSeries(d) && Series(metric, d.labels) in Asked(universe, metric) {
      var key := Series(dir, d.labels);
      assert key in universe && key.metric == dir;
    }
  }
}
