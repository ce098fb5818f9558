/** The bytes of files and segments, and the content that the engine works with. */
module DiskContent {
  import opened Words
  import opened Model
  import opened Points
  import opened ChunkFormat
  import opened WalFormat
  import opened EngineState
  import opened EngineLemmas
  import opened EngineInvariant
  import opened SeriesKey

  // ---- the content of a written file ----

  /** The content of the file written for a list of series; what its bytes decode to. */
  function ContentOf(series: seq<Record>): ChunkFile {
    var nonEmpty := NonEmpty(series);
    ChunkFile(MinTS(nonEmpty, MAX_INT64), MaxTS(nonEmpty, MIN_INT64), AllData(nonEmpty))
  }

  /** The bytes on disk and the content used here agree, by the format's round trip. */
  lemma {:induction false} ContentOnDisk(series: seq<Record>)
    requires AllFit(NonEmpty(series)) && |NonEmpty(series)| < 0x1_0000_0000
    ensures ReadBytes(FileBytes(NonEmpty(series))) == Ok(ContentOf(series).series)
    ensures RangeBytes(FileBytes(NonEmpty(series))) == Ok((ContentOf(series).minTS, ContentOf(series).maxTS))
  {
    hide FileBytes, ReadBytes, RangeBytes, AllFit;
    FileRoundTrip(NonEmpty(series));
    RangeRoundTrip(NonEmpty(series));
  }

  lemma {:induction false} DataMembers(series: seq<Record>)
    ensures |AllData(series)| == |series|
    ensures forall i :: 0 <= i < |series| ==> AllData(series)[i] == DataOf(series[i])
  {
    if series != [] {
      DataMembers(series[1..]);
    }
  }

  lemma {:induction false} AllNonEmpty(series: seq<Record>)
    requires forall s :: s in series ==> s.points != []
    ensures NonEmpty(series) == series
  {
    if series != [] {
      assert series[0] in series;
      AllNonEmpty(series[1..]);
    }
  }

  ghost predicate DistinctKeys(series: seq<Record>) {
    forall i, j :: 0 <= i < j < |series| ==> series[i].Key() != series[j].Key()
  }

  lemma {:induction false} ContentGood(series: seq<Record>, metric: Str)
    requires series != [] && DistinctKeys(series)
    requires forall s :: s in series ==> s.points != [] && s.metric == metric
    ensures
      var f := ContentOf(series);
      && f.series == AllData(series) && Distinct(f.series) && RangeIs(f.series, f.minTS, f.maxTS)
  {
    hide MinTS, MaxTS;
    AllNonEmpty(series);
    DataMembers(series);
    var f := ContentOf(series);
    forall i, j | 0 <= i < j < |series| ensures f.series[i].labels != f.series[j].labels {
      assert series[i] in series && series[j] in series;
    }
    ContentRange(series);
  }

  lemma {:induction false} ContentRange(series: seq<Record>)
    requires series != [] && series[0].points != []
    ensures RangeIs(AllData(series), MinTS(series, MAX_INT64), MaxTS(series, MIN_INT64))
  {
    hide MinTS, MaxTS;
    var data := AllData(series);
    DataMembers(series);
    MinExact(series, MAX_INT64);
    MaxExact(series, MIN_INT64);
    forall d, p | d in data && p in d.points
      ensures MinTS(series, MAX_INT64) <= p.ts <= MaxTS(series, MIN_INT64)
    {
      var i :| 0 <= i < |data| && data[i] == d;
      assert series[i] in series;
    }
    var p := series[0].points[0];
    assert series[0] in series && p in series[0].points;
    assert Holds(series, p.ts);
    HoldsInData(series, MinTS(series, MAX_INT64));
    HoldsInData(series, MaxTS(series, MIN_INT64));
  }

  lemma {:induction false} HoldsInData(series: seq<Record>, ts: int64)
    requires Holds(series, ts)
    ensures exists d, p :: d in AllData(series) && p in d.points && p.ts == ts
  {
    DataMembers(series);
    var s, p :| s in series && p in s.points && p.ts == ts;
    var i :| 0 <= i < |series| && series[i] == s;
    assert AllData(series)[i] in AllData(series) && p in AllData(series)[i].points;
  }

  // ---- what bytes stand for ----

  /** The numbered files of one directory, as bytes. */
  type ByteFiles = map<nat, seq<byte>>

  ghost predicate Readable(data: seq<byte>) {
    ReadBytes(data).Ok? && RangeBytes(data).Ok?
  }

  /** What a chunk file decodes to; nothing when it cannot be read. */
  ghost function Content(data: seq<byte>): ChunkFile {
    if Readable(data) then
      var (minTS, maxTS) := RangeBytes(data).value;
      ChunkFile(minTS, maxTS, ReadBytes(data).value)
    else ChunkFile(0, 0, [])
  }

  /** A file whose body can be read has a header that can be read. */
  lemma {:induction false} BodyHasHeader(data: seq<byte>)
    ensures Readable(data) <==> ReadBytes(data).Ok?
  {
    hide TakeAllSeries;
  }

  ghost function Contents(files: ByteFiles): (r: Files)
    ensures r.Keys == files.Keys && |r| == |files|
  {
    map n | n in files :: Content(files[n])
  }

  ghost predicate AllReadable(files: ByteFiles) {
    forall n :: n in files ==> Readable(files[n])
  }

  ghost function ChunkContents(chunks: map<Str, ByteFiles>): (r: map<Str, Files>)
    ensures r.Keys == chunks.Keys
  {
    map m | m in chunks :: Contents(chunks[m])
  }

  function ByteDir(chunks: map<Str, ByteFiles>, dir: Str): ByteFiles {
    if dir in chunks then chunks[dir] else map[]
  }

  /** What a segment replays to; nothing when it cannot be replayed. */
  ghost function RecordsIn(data: seq<byte>): seq<Record> {
    if ReplayBytes(data).Ok? then ReplayBytes(data).value else []
  }

  ghost function WalContents(segments: map<nat, seq<byte>>): (r: map<nat, seq<Record>>)
    ensures r.Keys == segments.Keys
  {
    map n | n in segments :: RecordsIn(segments[n])
  }

  ghost predicate AllReplay(segments: map<nat, seq<byte>>) {
    forall n :: n in segments ==> ReplayBytes(segments[n]).Ok?
  }

  lemma {:induction false} SegmentsPut(segments: map<nat, seq<byte>>, n: nat, data: seq<byte>)
    ensures WalContents(segments[n := data]) == WalContents(segments)[n := RecordsIn(data)]
    ensures AllReplay(segments) && ReplayBytes(data).Ok? ==> AllReplay(segments[n := data])
  {
    hide RecordsIn, ReplayBytes;
  }

  lemma {:induction false} SegmentsLess(segments: map<nat, seq<byte>>, n: nat)
    ensures WalContents(segments - {n}) == WalContents(segments) - {n}
    ensures AllReplay(segments) ==> AllReplay(segments - {n})
  {
    hide RecordsIn, ReplayBytes;
  }

  /** The empty segment replays to nothing. */
  lemma {:induction false} EmptySegmentReplays()
    ensures ReplayBytes([]) == Ok([]) && RecordsIn([]) == []
  {
  }

  lemma {:induction false} ContentsPut(files: ByteFiles, n: nat, data: seq<byte>)
    ensures Contents(files[n := data]) == Contents(files)[n := Content(data)]
    ensures AllReadable(files) && Readable(data) ==> AllReadable(files[n := data])
  {
    hide Content, Readable;
  }

  lemma {:induction false} ContentsLess(files: ByteFiles, gone: set<nat>)
    ensures Contents(files - gone) == Contents(files) - gone
    ensures AllReadable(files) ==> AllReadable(files - gone)
  {
    hide Content, Readable;
  }

  lemma {:induction false} ContentsDir(chunks: map<Str, ByteFiles>, dir: Str)
    ensures DirOf(ChunkContents(chunks), dir) == Contents(ByteDir(chunks, dir))
    ensures (forall m :: m in chunks ==> AllReadable(chunks[m])) ==> AllReadable(ByteDir(chunks, dir))
  {
    hide Content, Readable;
  }

  lemma {:induction false} ChunksPut(chunks: map<Str, ByteFiles>, dir: Str, files: ByteFiles)
    ensures ChunkContents(chunks[dir := files]) == ChunkContents(chunks)[dir := Contents(files)]
  {
    hide Contents;
  }

  lemma {:induction false} ChunksLess(chunks: map<Str, ByteFiles>, dir: Str)
    ensures ChunkContents(chunks - {dir}) == ChunkContents(chunks) - {dir}
  {
    hide Contents;
  }

  // ---- every file of the engine has bytes that read back as it ----

  /** A series never has more points in one file: so many always compress into 32 bits. */
  const MAX_POINTS: nat := 0x800_0000

  /** A file that the format can hold: its series are in use and none is too long. */
  ghost predicate StoredFile(f: ChunkFile, metric: Str, universe: set<Series>) {
    && f.series != [] && Distinct(f.series) && RangeIs(f.series, f.minTS, f.maxTS)
    && forall d :: d in f.series ==>
         d.points != [] && |d.points| <= MAX_POINTS && Series(metric, d.labels) in universe
  }

  /** The list of series that is written to make a file. */
  ghost function RecordsOf(series: seq<SeriesData>, metric: Str): (r: seq<Record>)
    ensures |r| == |series|
    ensures forall i :: 0 <= i < |r| ==> r[i] == Record(metric, series[i].labels, series[i].points)
  {
    seq(|series|, i requires 0 <= i < |series| => Record(metric, series[i].labels, series[i].points))
  }

  lemma {:induction false} DataOfRecords(series: seq<SeriesData>, metric: Str)
    ensures AllData(RecordsOf(series, metric)) == series
  {
    var recs := RecordsOf(series, metric);
    DataMembers(recs);
    assert forall i :: 0 <= i < |series| ==> AllData(recs)[i] == series[i];
  }

  /** A time range that is attained and holds every point is the only one. */
  lemma {:induction false} RangeUnique(series: seq<SeriesData>, a: int64, b: int64, c: int64, d: int64)
    requires RangeIs(series, a, b) && RangeIs(series, c, d)
    ensures a == c && b == d
  {
  }

  lemma {:induction false} DistinctCount(series: seq<SeriesData>, metric: Str, universe: set<Series>)
    requires Distinct(series) && forall d :: d in series ==> Series(metric, d.labels) in universe
    ensures |series| <= |universe|
    decreases |series|
  {
    if series != [] {
      var n := |series| - 1;
      var key := Series(metric, series[n].labels);
      assert series[n] in series;
      forall d | d in series[..n] ensures Series(metric, d.labels) in universe - {key} {
        assert d in series;
      }
      DistinctCount(series[..n], metric, universe - {key});
    }
  }

  lemma {:induction false} StoredFits(f: ChunkFile, metric: Str, universe: set<Series>)
    requires Usable(universe) && StoredFile(f, metric, universe)
    ensures
      var recs := RecordsOf(f.series, metric);
      && AllFit(recs) && |recs| < 0x1_0000_0000 && NonEmpty(recs) == recs && ContentOf(recs) == f
  {
    hide NoCollision, MinTS, MaxTS, BlockBytes, RangeIs, Distinct;
    var recs := RecordsOf(f.series, metric);
    forall i | 0 <= i < |recs| ensures Fits(recs[i]) {
      assert f.series[i] in f.series;
      assert Storable(Series(metric, f.series[i].labels));
    }
    forall s | s in recs ensures s.points != [] {
      var i :| 0 <= i < |recs| && recs[i] == s;
      assert f.series[i] in f.series;
    }
    AllNonEmpty(recs);
    DataOfRecords(f.series, metric);
    DistinctCount(f.series, metric, universe);
    assert recs[0] in recs;
    ContentRange(recs);
    RangeUnique(f.series, f.minTS, f.maxTS, MinTS(recs, MAX_INT64), MaxTS(recs, MIN_INT64));
  }

  /** Every file that the format can hold has bytes, and these read back as exactly its content. */
  lemma {:induction false} FileReadsBack(f: ChunkFile, metric: Str, universe: set<Series>)
    requires Usable(universe) && StoredFile(f, metric, universe)
    ensures Readable(FileBytes(RecordsOf(f.series, metric)))
    ensures Content(FileBytes(RecordsOf(f.series, metric))) == f
  {
    hide FileBytes, ReadBytes, RangeBytes, Usable, StoredFile, ContentOf, AllFit, NonEmpty;
    StoredFits(f, metric, universe);
    WrittenContent(RecordsOf(f.series, metric));
  }

  /** The bytes written for a list of series stand for its content. */
  lemma {:induction false} WrittenContent(series: seq<Record>)
    requires AllFit(NonEmpty(series)) && |NonEmpty(series)| < 0x1_0000_0000
    ensures Readable(FileBytes(NonEmpty(series))) && Content(FileBytes(NonEmpty(series))) == ContentOf(series)
  {
    hide FileBytes, ReadBytes, RangeBytes, AllFit, NonEmpty, MinTS, MaxTS;
    ContentOnDisk(series);
  }

  /** A list of series of one metric that a file can hold. */
  ghost predicate Storing(series: seq<Record>, metric: Str, universe: set<Series>) {
    && series != [] && DistinctKeys(series)
    && forall s :: s in series ==>
         s.metric == metric && s.points != [] && |s.points| <= MAX_POINTS && s.Key() in universe
  }

  lemma {:induction false} StoringFits(series: seq<Record>, metric: Str, universe: set<Series>)
    requires Usable(universe) && Storing(series, metric, universe)
    ensures AllFit(series) && |series| < 0x1_0000_0000 && NonEmpty(series) == series
  {
    hide NoCollision, Storable, ContentOf, RangeIs, Distinct;
    var f := ContentOf(series);
    ContentGood(series, metric);
    DataMembers(series);
    forall d | d in f.series
      ensures d.points != [] && |d.points| <= MAX_POINTS && Series(metric, d.labels) in universe
    {
      var i :| 0 <= i < |f.series| && f.series[i] == d;
      assert series[i] in series && series[i].Key() == Series(metric, d.labels);
    }
    StoredFits(f, metric, universe);
    forall i | 0 <= i < |series| ensures RecordsOf(f.series, metric)[i] == series[i] {
      assert series[i] in series;
    }
    assert RecordsOf(f.series, metric) == series;
  }
}
