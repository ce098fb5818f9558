/** Writing the files of one metric: the next file, the merge of all files, and the rewrite
    without dropped series. */
module ChunkRewrite {
  import opened Words
  import opened Model
  import opened Points
  import opened EngineState
  import opened EngineLemmas
  import opened EngineInvariant
  import opened EngineMaintenance
  import opened EngineLimits
  import opened EngineEffects
  import opened Names
  import opened Binary
  import opened Crc
  import Layouts
  import opened ChunkFormat
  import opened Chunk
  import opened DiskContent
  import opened ChunkStore
  import opened ChunkQuery

  /** The directory with the next file written for a list of series. */
  ghost function WithFile(files: ByteFiles, series: seq<Record>): ByteFiles {
    if NonEmpty(series) == [] then files else files[Latest(files.Keys) + 1 := FileBytes(NonEmpty(series))]
  }

  /** Writer.Write: the bytes of the series become the file with the next number; without points,
      no file. */
  method WriteFile(files: ByteFiles, series: seq<Record>) returns (files': ByteFiles)
    ensures files' == WithFile(files, series)
  {
    hide NonEmpty, FileBytes, Latest, Layouts.FileLayout;
    var n := NextChunkNum(files.Keys);
    var written, data := WriteChunkFile(series);
    files' := if written then files[n := data] else files;
  }

  /** A list that a file can hold becomes a new last file that reads back as its content. */
  lemma {:induction false} Wrote(files: ByteFiles, series: seq<Record>, metric: Str, universe: set<Series>)
    requires Usable(universe) && Storing(series, metric, universe) && forall n :: n in files ==> n < NUMBERS
    ensures NonEmpty(series) == series
    ensures
      var n := NextNumber(Contents(files));
      && WithFile(files, series) == files[n := FileBytes(series)]
      && Contents(WithFile(files, series)) == Contents(files)[n := ContentOf(series)]
    ensures AllReadable(files) ==> AllReadable(WithFile(files, series))
  {
    hide Usable, Contents, Readable, Content, FileBytes, AllFit, NonEmpty, ContentOf;
    LatestIsLargest(files.Keys);
    StoringFits(series, metric, universe);
    WrittenContent(series);
    ContentsPut(files, Latest(files.Keys) + 1, FileBytes(series));
  }

  /** No series of the directory has more points than a file can hold. */
  ghost predicate RoomIn(files: Files) {
    forall labels :: |ColdPoints(files, labels)| <= MAX_POINTS
  }

  // ---- gathering without bounds ----

  /** Appends all points of all series of one file. */
  method GatherWhole(
    m: map<uint64, Record>, metric: Str, series: seq<SeriesData>, ghost done: seq<SeriesData>,
    ghost universe: set<Series>)
    returns (m': map<uint64, Record>)
    requires NoCollision(universe) && SeriesFrom(done + series, metric, universe)
    requires forall d :: d in series ==> d.points != []
    requires Gathered(m, metric, map[], 0, 0, done)
    ensures Gathered(m', metric, map[], 0, 0, done + series)
  {
    hide Gathered, NoCollision, Filter;
    m' := m;
    var i := 0;
    assert done + series[..0] == done;
    while i < |series|
      invariant 0 <= i <= |series|
      invariant Gathered(m', metric, map[], 0, 0, done + series[..i])
    {
      var d := series[i];
      ghost var before := done + series[..i];
      assert done + series[..i + 1] == before + [d];
      assert SeriesFrom(before + [d], metric, universe) by {
        forall e | e in before + [d] ensures e in done + series {}
      }
      FilterAll(d.points, 0, 0);
      assert LabelsMatch(map[], d.labels);
      GatherAdd(m', metric, map[], 0, 0, before, d, universe);
      var id := SeriesKey.HashSeries(metric, d.labels);
      m' := m'[id := GatherEntry(m', id, metric, d.labels, d.points)];
      i := i + 1;
    }
    assert done + series[..|series|] == done + series;
  }

  lemma {:induction false} SeriesNotEmpty(f: ChunkFile, metric: Str, universe: set<Series>)
    requires GoodFile(f, metric, universe)
    ensures forall d :: d in f.series ==> d.points != []
  {
    hide Distinct, RangeIs;
  }

  /** Reads all files in name order; one that cannot be read is an error. */
  method GatherAll(files: ByteFiles, metric: Str, ghost universe: set<Series>)
    returns (r: Result<map<uint64, Record>>)
    requires NoCollision(universe) && GoodBytes(files, metric, universe) && forall n :: n in files ==> n < NUMBERS
    ensures r.Ok? <==> AllReadable(files)
    ensures r.Ok? ==> Gathered(r.value, metric, map[], 0, 0, SeriesIn(Contents(files), Ascending(files.Keys)))
  {
    hide Gathered, NoCollision, Ascending, GoodFile, SeriesFrom, SeriesIn, ReadBytes, RangeBytes, InNameOrder, FromLE,
      Checksum;
    var order := ListNumbers(files.Keys);
    ghost var contents := Contents(files);
    var m: map<uint64, Record> := map[];
    NothingGathered(metric, map[], 0, 0);
    assert order[..0] == [];
    var i := 0;
    while i < |order|
      invariant 0 <= i <= |order|
      invariant Gathered(m, metric, map[], 0, 0, SeriesIn(contents, order[..i]))
      invariant forall j :: 0 <= j < i ==> Readable(files[order[j]])
    {
      var n := order[i];
      assert n in order;
      SeriesInStep(contents, order, i);
      SeriesInFrom(files, order[..i + 1], metric, universe);
      BodyHasHeader(files[n]);
      var series :- ReadFile(files[n]);
      SeriesNotEmpty(Content(files[n]), metric, universe);
      m := GatherWhole(m, metric, series, SeriesIn(contents, order[..i]), universe);
      i := i + 1;
    }
    assert order[..|order|] == order;
    forall n | n in files ensures Readable(files[n]) {
      assert n in order;
    }
    r := Ok(m);
  }

  // ---- compaction ----

  /** sort.Slice by timestamp: the same points in time order. */
  method SortPoints(points: seq<Point>) returns (sorted: seq<Point>)
    ensures Sorted(sorted) && multiset(sorted) == multiset(points)
  {
    hide Insert, Sorted;
    sorted := [];
    NoneSorted();
    var i := 0;
    while i < |points|
      invariant 0 <= i <= |points|
      invariant Sorted(sorted) && multiset(sorted) == multiset(points[..i])
    {
      InsertKeepsOrder(sorted, points[i]);
      sorted := InsertPointSorted(sorted, points[i]);
      assert points[..i + 1] == points[..i] + [points[i]];
      i := i + 1;
    }
    assert points[..i] == points;
  }

  ghost predicate SortedCopy(rec: Record, was: Record) {
    rec.Key() == was.Key() && Sorted(rec.points) && multiset(rec.points) == multiset(was.points)
  }

  ghost predicate SortedCopies(series: seq<Record>, results: seq<Record>) {
    |series| == |results| && forall i :: 0 <= i < |series| ==> SortedCopy(series[i], results[i])
  }

  method SortAll(results: seq<Record>) returns (series: seq<Record>)
    ensures SortedCopies(series, results)
  {
    hide Sorted;
    series := [];
    while |series| < |results|
      invariant |series| <= |results|
      invariant forall i :: 0 <= i < |series| ==> SortedCopy(series[i], results[i])
    {
      var rec := results[|series|];
      var points := SortPoints(rec.points);
      series := series + [rec.(points := points)];
    }
  }

  lemma {:induction false} EverythingGathered(rec: Record, metric: Str, files: Files)
    requires AnswerEntry(rec, metric, map[], ColdContent(files, 0, 0))
    ensures rec.points == ColdPoints(files, rec.labels)
  {
    hide Filter, Ascending, PointsIn;
    FilterAll(ColdPoints(files, rec.labels), 0, 0);
  }

  lemma {:induction false} SortedEntries(series: seq<Record>, results: seq<Record>, metric: Str, files: Files)
    requires Answer(results, metric, map[], ColdContent(files, 0, 0)) && SortedCopies(series, results)
    ensures DistinctKeys(series) && forall s :: s in series ==> s.metric == metric && s.points != []
    ensures forall s :: s in series ==> Sorted(s.points) && multiset(s.points) == multiset(ColdPoints(files, s.labels))
  {
    hide Filter, ColdPoints, Sorted, LabelsMatch, ColdContent;
    forall s | s in series
      ensures s.metric == metric && s.points != [] && Sorted(s.points)
      ensures multiset(s.points) == multiset(ColdPoints(files, s.labels))
    {
      var i :| 0 <= i < |series| && series[i] == s;
      var was := results[i];
      assert SortedCopy(s, was) && was in results;
      EverythingGathered(was, metric, files);
      assert was.points[0] in multiset(was.points);
      assert was.points[0] in multiset(s.points);
    }
    forall i, j | 0 <= i < j < |series| ensures series[i].Key() != series[j].Key() {
      assert SortedCopy(series[i], results[i]) && SortedCopy(series[j], results[j]);
    }
  }

  lemma {:induction false} SortedCovers(
    series: seq<Record>, results: seq<Record>, metric: Str, files: Files, labels: Labels)
    requires Answer(results, metric, map[], ColdContent(files, 0, 0)) && SortedCopies(series, results)
    requires ColdPoints(files, labels) != []
    ensures exists s :: s in series && s.labels == labels
  {
    hide Filter, ColdPoints, Sorted;
    var key := Series(metric, labels);
    FilterAll(ColdPoints(files, labels), 0, 0);
    assert ColdContent(files, 0, 0)(key) != [];
    assert LabelsMatch(map[], key.labels);
    var rec :| rec in results && rec.Key() == key;
    var i :| 0 <= i < |results| && results[i] == rec;
    assert SortedCopy(series[i], results[i]);
    assert series[i] in series;
  }

  lemma {:induction false} MergedContent(series: seq<Record>, results: seq<Record>, metric: Str, files: Files)
    requires Answer(results, metric, map[], ColdContent(files, 0, 0)) && SortedCopies(series, results)
    requires results != []
    ensures NonEmpty(series) == series && MergedFile(ContentOf(series), files)
  {
    hide Answer, SortedCopies, ColdPoints, Sorted, MinTS, MaxTS, Distinct, RangeIs, ColdContent;
    SortedEntries(series, results, metric, files);
    AllNonEmpty(series);
    SameLength(series, results);
    ContentGood(series, metric);
    DataMembers(series);
    var g := ContentOf(series);
    forall d | d in g.series
      ensures d.points != [] && Sorted(d.points) && multiset(d.points) == multiset(ColdPoints(files, d.labels))
    {
      var i :| 0 <= i < |g.series| && g.series[i] == d;
      assert series[i] in series;
    }
    forall labels | ColdPoints(files, labels) != [] ensures exists d :: d in g.series && d.labels == labels {
      SortedCovers(series, results, metric, files, labels);
      var s :| s in series && s.labels == labels;
      var i :| 0 <= i < |series| && series[i] == s;
      assert g.series[i] in g.series;
    }
  }

  lemma {:induction false} SameLength(series: seq<Record>, results: seq<Record>)
    requires SortedCopies(series, results)
    ensures |series| == |results|
  {
  }

  lemma {:induction false} SomethingGathered(results: seq<Record>, metric: Str, files: Files, universe: set<Series>)
    requires Answer(results, metric, map[], ColdContent(files, 0, 0)) && GoodDir(files, metric, universe)
    ensures results != []
  {
    hide Filter, ColdPoints, Sorted, RangeIs;
    var n :| n in files;
    assert GoodFile(files[n], metric, universe);
    var d := files[n].series[0];
    assert d in files[n].series && GoodSeries(d);
    HeldInDir(files, n, d, d.points[0]);
    var key := Series(metric, d.labels);
    FilterAll(ColdPoints(files, d.labels), 0, 0);
    assert ColdContent(files, 0, 0)(key) != [];
    assert LabelsMatch(map[], key.labels);
  }

  lemma {:induction false} NothingThere(results: seq<Record>, metric: Str)
    requires Answer(results, metric, map[], ColdContent(map[], 0, 0))
    ensures results == []
  {
    hide PointsIn, Ascending;
    if results != [] {
      var rec := results[0];
      assert rec in results;
      ColdNone(rec.labels);
      FilterNone([], 0, 0);
      assert false;
    }
  }

  lemma {:induction false} MergedStoring(
    series: seq<Record>, results: seq<Record>, metric: Str, files: Files, universe: set<Series>)
    requires Answer(results, metric, map[], ColdContent(files, 0, 0)) && SortedCopies(series, results) && results != []
    requires RoomIn(files) && forall rec :: rec in results ==> rec.Key() in universe
    ensures Storing(series, metric, universe)
  {
    hide Answer, ColdPoints, Sorted, ColdContent;
    SortedEntries(series, results, metric, files);
    forall s | s in series ensures |s.points| <= MAX_POINTS && s.Key() in universe {
      var i :| 0 <= i < |series| && series[i] == s;
      assert SortedCopy(s, results[i]) && results[i] in results;
      SameSize(s.points, ColdPoints(files, s.labels));
    }
  }

  /** What a compaction of one directory may rely on. */
  ghost predicate Mergeable(files: ByteFiles, metric: Str, universe: set<Series>) {
    GoodBytes(files, metric, universe) && RoomIn(Contents(files)) && forall n :: n in files ==> n < NUMBERS
  }

  ghost predicate ReplacedBy(files: Files, files': Files) {
    var n := NextNumber(files);
    n in files' && files' == map[n := files'[n]] && MergedFile(files'[n], files)
  }

  ghost predicate CompactedBytes(files: ByteFiles, threshold: int, files': ByteFiles) {
    CompactedDir(Contents(files), threshold, Contents(files')) && (AllReadable(files) ==> AllReadable(files'))
  }

  /** The file written next to those that are then removed is the merge of them all. */
  lemma {:induction false} Replaced(
    files: ByteFiles, metric: Str, universe: set<Series>, results: seq<Record>, series: seq<Record>, files': ByteFiles)
    requires Usable(universe) && Mergeable(files, metric, universe) && AllReadable(files)
    requires forall rec :: rec in results ==> rec.Key() in universe
    requires Answer(results, metric, map[], ColdContent(Contents(files), 0, 0)) && SortedCopies(series, results)
    requires files' == WithFile(files, series) - files.Keys
    ensures files == map[] ==> files' == files
    ensures files != map[] ==> ReplacedBy(Contents(files), Contents(files')) && AllReadable(files')
    ensures files != map[] ==> |files'| == 1 && forall n, k :: n in files' && k in files ==> k < n
  {
    hide Usable, Answer, GoodFile, MergedFile, ColdContent, NextNumber, Readable, Content, FileBytes, NonEmpty,
      ContentOf, SortedCopies, RoomIn, Storing;
    SameLength(series, results);
    var before := Contents(files);
    if files == map[] {
      assert before == map[];
      NothingThere(results, metric);
      AllNonEmpty(series);
    } else {
      assert files.Keys != {};
      SomethingGathered(results, metric, before, universe);
      MergedContent(series, results, metric, before);
      MergedStoring(series, results, metric, before, universe);
      Wrote(files, series, metric, universe);
      NextNumberIsNew(before);
      var n := NextNumber(before);
      NumbersBefore(before);
      ContentsLess(files[n := FileBytes(series)], files.Keys);
      assert n !in files;
      assert files' == map[n := FileBytes(series)];
    }
  }

  lemma {:induction false} NumbersBefore(files: Files)
    ensures forall k :: k in files ==> k < NextNumber(files)
  {
  }

  method RemoveFiles(files: ByteFiles, numbers: set<nat>) returns (files': ByteFiles)
    ensures files' == files - numbers
  {
    files' := files;
    var left := numbers;
    while left != {}
      invariant left <= numbers
      invariant forall n :: n in files' <==> n in files && (n in left || n !in numbers)
      invariant forall n :: n in files' ==> files'[n] == files[n]
      decreases left
    {
      var n :| n in left;
      files' := files' - {n};
      left := left - {n};
    }
  }

  lemma {:induction false} GatheredKeys(
    m: map<uint64, Record>, files: ByteFiles, metric: Str, results: seq<Record>, universe: set<Series>)
    requires GoodBytes(files, metric, universe)
    requires Gathered(m, metric, map[], 0, 0, SeriesIn(Contents(files), Ascending(files.Keys)))
    requires forall rec :: rec in results ==> exists id :: id in m && m[id] == rec
    ensures forall rec :: rec in results ==> rec.Key() in universe
  {
    hide SeriesIn, Ascending, GoodBytes, Contents, Filter, FilePoints, SeriesKey.Hash;
    var done := SeriesIn(Contents(files), Ascending(files.Keys));
    SeriesInFrom(files, Ascending(files.Keys), metric, universe);
    forall rec | rec in results ensures rec.Key() in universe {
      var id :| id in m && m[id] == rec;
      assert GatheredEntry(id, rec, metric, map[], 0, 0, done);
      SameKey(done, rec.labels, metric, universe);
    }
  }

  /** compactMetric: with more than `threshold` files, gather every series without bounds, sort
      it, write one new file, and only then remove the files that were read. It fails, and
      changes nothing, exactly when one of these cannot be read. */
  method CompactMetric(files: ByteFiles, metric: Str, threshold: int, ghost universe: set<Series>)
    returns (r: Result<ByteFiles>)
    requires Usable(universe) && Mergeable(files, metric, universe)
    ensures r.Err? <==> |files| > threshold && !AllReadable(files)
    ensures r.Ok? ==> CompactedBytes(files, threshold, r.value)
    ensures r.Ok? && (|files| <= threshold || files == map[]) ==> r.value == files
    ensures r.Ok? && |files| > threshold && files != map[] ==>
              |r.value| == 1 && forall n, k :: n in r.value && k in files ==> k < n
  {
    hide Answer, GoodFile, MergedFile, ColdContent, NoCollision, Storable, NextNumber, SortedCopies, Gathered, Readable,
      Content, FileBytes, NonEmpty, RoomIn, Ascending, SeriesIn, WithFile;
    if |files| <= threshold {
      return Ok(files);
    }
    var m :- GatherAll(files, metric, universe);
    GatheredIds(m, metric, map[], 0, 0, SeriesIn(Contents(files), Ascending(files.Keys)));
    var results := Values(m);
    GatheredAnswer(m, files, metric, map[], 0, 0, results, universe);
    GatheredKeys(m, files, metric, results, universe);
    var series := SortAll(results);
    var files' := WriteFile(files, series);
    files' := RemoveFiles(files', files.Keys);
    Replaced(files, metric, universe, results, series, files');
    assert files == map[] <==> Contents(files) == map[];
    r := Ok(files');
  }

  /** Compact: every directory with more than `threshold` files is left with one; the first that
      cannot be read ends it. */
  method CompactDirs(chunks: map<Str, ByteFiles>, threshold: int, ghost universe: set<Series>)
    returns (chunks': map<Str, ByteFiles>, r: Result<()>)
    requires Usable(universe) && forall m :: m in chunks ==> Mergeable(chunks[m], m, universe)
    ensures chunks'.Keys == chunks.Keys
    ensures forall m :: m in chunks ==> chunks'[m] == chunks[m] || CompactedBytes(chunks[m], threshold, chunks'[m])
    ensures r.Ok? ==> forall m :: m in chunks ==> CompactedBytes(chunks[m], threshold, chunks'[m])
    ensures r.Ok? ==> forall m :: m in chunks ==>
              if |chunks[m]| > threshold && chunks[m] != map[] then |chunks'[m]| == 1 else chunks'[m] == chunks[m]
    ensures r.Err? ==> exists m :: m in chunks && |chunks[m]| > threshold && !AllReadable(chunks[m])
  {
    hide Mergeable, CompactedBytes, Usable, AllReadable;
    chunks' := chunks;
    var left := chunks.Keys;
    while left != {}
      invariant left <= chunks.Keys && chunks'.Keys == chunks.Keys
      invariant forall m :: m in left ==> chunks'[m] == chunks[m]
      invariant forall m :: m in chunks && m !in left ==> CompactedBytes(chunks[m], threshold, chunks'[m])
      invariant forall m :: m in chunks && m !in left ==>
                  if |chunks[m]| > threshold && chunks[m] != map[] then |chunks'[m]| == 1 else chunks'[m] == chunks[m]
      decreases left
    {
      var m :| m in left;
      var compacted := CompactMetric(chunks[m], m, threshold, universe);
      if compacted.Err? {
        return chunks', Err(compacted.error);
      }
      chunks' := chunks'[m := compacted.value];
      left := left - {m};
    }
    r := Ok(());
  }

  // ---- drop ----

  function KeptOne(d: SeriesData, filter: Labels): seq<SeriesData> {
    if LabelsMatch(filter, d.labels) then [] else [d]
  }

  lemma {:induction false} KeepCons(d: SeriesData, series: seq<SeriesData>, filter: Labels)
    ensures Keep([d] + series, filter) == KeptOne(d, filter) + Keep(series, filter)
  {
    hide LabelsMatch;
    assert ([d] + series)[1..] == series;
  }

  lemma {:induction false} KeepConcat(a: seq<SeriesData>, b: seq<SeriesData>, filter: Labels)
    ensures Keep(a + b, filter) == Keep(a, filter) + Keep(b, filter)
  {
    hide KeptOne, Keep;
    if a == [] {
      NothingKept(filter);
      assert a + b == b;
    } else {
      KeepConcat(a[1..], b, filter);
      KeepCons(a[0], a[1..] + b, filter);
      KeepCons(a[0], a[1..], filter);
      assert a == [a[0]] + a[1..] && a + b == [a[0]] + (a[1..] + b);
    }
  }

  lemma {:induction false} KeepPush(a: seq<SeriesData>, d: SeriesData, filter: Labels)
    ensures Keep(a + [d], filter) == Keep(a, filter) + KeptOne(d, filter)
  {
    hide LabelsMatch;
    KeepConcat(a, [d], filter);
    assert [d][1..] == [];
  }

  lemma {:induction false} DataPush(series: seq<Record>, s: Record)
    ensures AllData(series + [s]) == AllData(series) + [DataOf(s)]
  {
    if series != [] {
      DataPush(series[1..], s);
      assert (series + [s])[1..] == series[1..] + [s];
    }
  }

  /** A file loses series exactly when one matches. */
  lemma {:induction false} KeepShrinks(series: seq<SeriesData>, filter: Labels)
    ensures |Keep(series, filter)| <= |series|
    ensures (exists d :: d in series && LabelsMatch(filter, d.labels)) <==> Keep(series, filter) != series
  {
    hide LabelsMatch;
    if series != [] {
      KeepShrinks(series[1..], filter);
      if LabelsMatch(filter, series[0].labels) {
        assert series[0] in series;
        assert |Keep(series, filter)| < |series|;
      } else {
        assert Keep(series, filter)[1..] == Keep(series[1..], filter);
      }
    }
  }

  /** The records to write back, and whether any series of the file matches the filter. */
  method KeepSeries(series: seq<SeriesData>, metric: Str, filter: Labels) returns (keep: seq<Record>, removed: bool)
    requires forall d :: d in series ==> d.points != []
    ensures AllData(keep) == Keep(series, filter)
    ensures forall s :: s in keep ==> s.points != [] && s.metric == metric
    ensures removed <==> exists d :: d in series && LabelsMatch(filter, d.labels)
  {
    hide LabelsMatch, AllData, Keep;
    keep, removed := [], false;
    NothingKept(filter);
    var i := 0;
    while i < |series|
      invariant 0 <= i <= |series|
      invariant AllData(keep) == Keep(series[..i], filter)
      invariant forall s :: s in keep ==> s.points != [] && s.metric == metric
      invariant removed <==> exists d :: d in series[..i] && LabelsMatch(filter, d.labels)
    {
      var d := series[i];
      assert series[..i + 1] == series[..i] + [d];
      KeepPush(series[..i], d, filter);
      var matches := MatchLabels(filter, d.labels);
      if matches {
        removed := true;
      } else {
        DataPush(keep, Record(metric, d.labels, d.points));
        keep := keep + [Record(metric, d.labels, d.points)];
      }
      i := i + 1;
    }
    assert series[..i] == series;
  }

  lemma {:induction false} NothingKept(filter: Labels)
    ensures AllData([]) == Keep([], filter) == []
  {
  }

  /** Some series of the file matches the filter. */
  ghost predicate Loses(f: ChunkFile, filter: Labels) {
    exists d :: d in f.series && LabelsMatch(filter, d.labels)
  }

  ghost predicate AnyLoses(files: Files, filter: Labels) {
    exists n :: n in files && Loses(files[n], filter)
  }

  /** One file after a drop: absent when no series is kept, otherwise with those kept. */
  ghost predicate FileDropped(f: ChunkFile, filter: Labels, files': Files, n: nat) {
    && (n in files' <==> Keep(f.series, filter) != [])
    && (n in files' ==> KeptFile(f, filter, files'[n]))
  }

  /** One file of a drop: removed when nothing is left, rewritten when something is gone. */
  method DropFromFile(files: ByteFiles, n: nat, metric: Str, filter: Labels, ghost universe: set<Series>)
    returns (files': ByteFiles, r: Result<bool>)
    requires Usable(universe) && n in files && (Readable(files[n]) ==> StoredFile(Content(files[n]), metric, universe))
    ensures r.Ok? <==> Readable(files[n])
    ensures r.Err? ==> files' == files
    ensures files' == files - {n} || (n in files' && files' == files[n := files'[n]])
    ensures r.Ok? ==>
              && FileDropped(Content(files[n]), filter, Contents(files'), n)
              && (n in files' ==> Readable(files'[n]))
              && (r.value <==> Loses(Content(files[n]), filter))
  {
    hide LabelsMatch, ContentOf, RangeIs, Keep, Distinct, ReadBytes, RangeBytes, FileBytes, Usable, NonEmpty, Storing,
      FromLE, Checksum, Layouts.FileLayout;
    BodyHasHeader(files[n]);
    var series := ReadFile(files[n]);
    if series.Err? {
      return files, Err(series.error);
    }
    ghost var f := Content(files[n]);
    var keep, removed := KeepSeries(series.value, metric, filter);
    KeepShrinks(f.series, filter);
    DataMembers(keep);
    if !removed {
      return files, Ok(removed);
    }
    if |keep| == 0 {
      files' := files - {n};
    } else {
      KeptStoring(f, keep, filter, metric, universe);
      RewrittenFile(f, keep, filter);
      StoringFits(keep, metric, universe);
      WrittenContent(keep);
      var written, data := WriteChunkFile(keep);
      ContentsPut(files, n, data);
      files' := files[n := data];
    }
    r := Ok(removed);
  }

  lemma {:induction false} KeepFrom(series: seq<SeriesData>, filter: Labels)
    requires Distinct(series)
    ensures Distinct(Keep(series, filter)) && forall d :: d in Keep(series, filter) ==> d in series
  {
    hide LabelsMatch;
    if series != [] {
      var rest := series[1..];
      assert Distinct(rest);
      KeepFrom(rest, filter);
      forall d | d in rest ensures d.labels != series[0].labels {
        var i :| 0 <= i < |rest| && rest[i] == d;
        assert series[i + 1] == d;
      }
    }
  }

  /** What is kept of a file that the format can hold can be held again. */
  lemma {:induction false} KeptStoring(
    f: ChunkFile, keep: seq<Record>, filter: Labels, metric: Str, universe: set<Series>)
    requires StoredFile(f, metric, universe) && AllData(keep) == Keep(f.series, filter) && keep != []
    requires forall s :: s in keep ==> s.metric == metric
    ensures Storing(keep, metric, universe)
  {
    hide RangeIs, Keep, Distinct;
    KeepFrom(f.series, filter);
    DataMembers(keep);
    forall s | s in keep
      ensures s.points != [] && |s.points| <= MAX_POINTS && s.Key() in universe
    {
      var i :| 0 <= i < |keep| && keep[i] == s;
      assert AllData(keep)[i] in Keep(f.series, filter);
      assert s.Key() == Series(metric, AllData(keep)[i].labels);
    }
    forall i, j | 0 <= i < j < |keep| ensures keep[i].Key() != keep[j].Key() {
      ApartIn(Keep(f.series, filter), i, j);
    }
  }

  lemma {:induction false} ApartIn(series: seq<SeriesData>, i: nat, j: nat)
    requires Distinct(series) && i < j < |series|
    ensures series[i].labels != series[j].labels
  {
  }

  /** The file written back holds the series that are kept, under their own time range. */
  lemma {:induction false} RewrittenFile(f: ChunkFile, keep: seq<Record>, filter: Labels)
    requires keep != [] && AllData(keep) == Keep(f.series, filter) && AllData(keep) != f.series
    requires forall s :: s in keep ==> s.points != []
    ensures KeptFile(f, filter, ContentOf(keep))
  {
    hide LabelsMatch, MinTS, MaxTS, RangeIs, Keep;
    AllNonEmpty(keep);
    assert keep[0] in keep;
    ContentRange(keep);
  }

  /** What a drop may rely on. */
  ghost predicate StoredBytes(files: ByteFiles, metric: Str, universe: set<Series>) {
    forall n :: n in files && Readable(files[n]) ==> StoredFile(Content(files[n]), metric, universe)
  }

  /** DropSeriesFromChunks on the files of one directory; the first that cannot be read ends it. */
  method DropSeries(files: ByteFiles, metric: Str, filter: Labels, ghost universe: set<Series>)
    returns (files': ByteFiles, r: Result<bool>)
    requires Usable(universe) && StoredBytes(files, metric, universe)
    ensures r.Ok? <==> AllReadable(files)
    ensures r.Ok? ==>
              && DroppedFiles(Contents(files), filter, Contents(files')) && AllReadable(files')
              && (r.value <==> AnyLoses(Contents(files), filter))
    ensures r.Ok? ==> LackingLeft(Contents(files), filter, Contents(files'))
  {
    hide Loses, StoredFile, FileDropped, Usable, Readable, Content, LackingLeft;
    files' := files;
    var dropped := false;
    var left := files.Keys;
    while left != {}
      invariant left <= files.Keys
      invariant forall n :: n in files' ==> n in files
      invariant forall n :: n in left ==> n in files' && files'[n] == files[n]
      invariant forall n :: n in files && n !in left ==>
                  Readable(files[n]) && FileDropped(Content(files[n]), filter, Contents(files'), n)
      invariant forall n :: n in files' && n !in left ==> Readable(files'[n])
      invariant dropped <==> exists n :: n in files && n !in left && Loses(Content(files[n]), filter)
      decreases left
    {
      var n :| n in left;
      ghost var before := files';
      files', r := DropFromFile(files', n, metric, filter, universe);
      if r.Err? {
        return;
      }
      forall k | k in files && k !in left ensures FileDropped(Content(files[k]), filter, Contents(files'), k) {
        SameFile(Content(files[k]), filter, Contents(before), Contents(files'), k);
      }
      left := left - {n};
      dropped := dropped || r.value;
    }
    EachDropped(Contents(files), filter, Contents(files'));
    DroppedExactly(Contents(files), filter, Contents(files'));
    r := Ok(dropped);
  }

  /** DropSeriesFromChunks: the directory goes when no file is left in it. */
  method DropSeriesFromChunks(chunks: map<Str, ByteFiles>, dir: Str, filter: Labels, ghost universe: set<Series>)
    returns (chunks': map<Str, ByteFiles>, r: Result<bool>)
    requires Usable(universe) && StoredBytes(ByteDir(chunks, dir), dir, universe)
    ensures r.Ok? <==> AllReadable(ByteDir(chunks, dir))
    ensures r.Ok? ==>
              && DroppedDir(ChunkContents(chunks), dir, filter, ChunkContents(chunks'))
              && (r.value <==> AnyLoses(Contents(ByteDir(chunks, dir)), filter))
    ensures r.Ok? && (forall m :: m in chunks ==> AllReadable(chunks[m])) ==>
              forall m :: m in chunks' ==> AllReadable(chunks'[m])
  {
    hide DroppedFiles, DroppedDir, AnyLoses, Usable, Contents, ChunkContents, AllReadable, StoredBytes;
    NoFiles(chunks, dir, filter);
    if dir !in chunks {
      return chunks, Ok(false);
    }
    var files;
    files, r := DropSeries(chunks[dir], dir, filter, universe);
    chunks' := if files == map[] then chunks - {dir} else chunks[dir := files];
    if r.Ok? {
      DirDropped(chunks, dir, filter, files);
    }
  }

  /** The directory with its files, or without it when none is left. */
  lemma {:induction false} DirDropped(chunks: map<Str, ByteFiles>, dir: Str, filter: Labels, files: ByteFiles)
    requires dir in chunks && DroppedFiles(Contents(chunks[dir]), filter, Contents(files))
    ensures
      var chunks' := if files == map[] then chunks - {dir} else chunks[dir := files];
      DroppedDir(ChunkContents(chunks), dir, filter, ChunkContents(chunks'))
  {
    hide ChunkContents, Contents, DroppedDir;
    assert Contents(files) == map[] <==> files == map[] by {
      assert files == map[] <==> files.Keys == {};
      assert Contents(files) == map[] <==> Contents(files).Keys == {};
    }
    ChunksLess(chunks, dir);
    ChunksPut(chunks, dir, files);
    ContentsDir(chunks, dir);
    DirLeft(ChunkContents(chunks), dir, filter, Contents(files));
  }

  lemma {:induction false} DirLeft(chunks: map<Str, Files>, dir: Str, filter: Labels, files: Files)
    requires dir in chunks && DroppedFiles(chunks[dir], filter, files)
    ensures DroppedDir(chunks, dir, filter, if files == map[] then chunks - {dir} else chunks[dir := files])
  {
    hide DroppedFiles;
  }

  lemma {:induction false} NoFiles(chunks: map<Str, ByteFiles>, dir: Str, filter: Labels)
    ensures dir !in chunks ==>
              && AllReadable(ByteDir(chunks, dir)) && !AnyLoses(Contents(ByteDir(chunks, dir)), filter)
              && DroppedDir(ChunkContents(chunks), dir, filter, ChunkContents(chunks))
  {
    hide DroppedFiles;
  }

  lemma {:induction false} SameFile(f: ChunkFile, filter: Labels, files: Files, files': Files, n: nat)
    requires FileDropped(f, filter, files, n)
    requires (n in files' <==> n in files) && (n in files ==> files'[n] == files[n])
    ensures FileDropped(f, filter, files', n)
  {
    hide Keep, KeptFile;
  }

  lemma {:induction false} EachDropped(files: Files, filter: Labels, files': Files)
    requires forall n :: n in files' ==> n in files
    requires forall n :: n in files ==> FileDropped(files[n], filter, files', n)
    ensures DroppedFiles(files, filter, files')
  {
    hide Keep, KeptFile;
  }
}
