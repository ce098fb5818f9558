/** The storage engine as a state machine: what is on disk, what is in memory, and what each
    step does to them. Files and segments are held as the content their formats decode to. */
module EngineState {
  import opened Words
  import opened Model
  import opened Points
  import SeriesKey

  // ---- state ----

  /** A chunk file: the time range in its header and its series. */
  datatype ChunkFile = ChunkFile(minTS: int64, maxTS: int64, series: seq<SeriesData>)

  /** The numbered chunk files of one metric directory. */
  type Files = map<nat, ChunkFile>

  /** Segments and chunk directories; the last segment is the one being written. */
  datatype Disk = Disk(wal: map<nat, seq<Record>>, chunks: map<Str, Files>)

  datatype State = State(
    disk: Disk,
    current: nat,
    mem: map<uint64, Record>,
    index: map<Str, set<uint64>>,
    flushedUpTo: int64)
  {
    /** The records of the open segment. */
    function Segment(): seq<Record> {
      if current in disk.wal then disk.wal[current] else []
    }

    function Dir(metric: Str): Files {
      DirOf(disk.chunks, metric)
    }
  }

  function DirOf(chunks: map<Str, Files>, metric: Str): Files {
    if metric in chunks then chunks[metric] else map[]
  }

  /** The points a list of records holds of one series, in record order. */
  function PointsOf(recs: seq<Record>, key: Series): seq<Point> {
    if recs == [] then []
    else (if recs[0].Key() == key then recs[0].points else []) + PointsOf(recs[1..], key)
  }

  /** The points a chunk file holds of one series. */
  function FilePoints(series: seq<SeriesData>, labels: Labels): seq<Point> {
    if series == [] then []
    else (if series[0].labels == labels then series[0].points else []) + FilePoints(series[1..], labels)
  }

  /** Numbers in ascending order: the order file names sort in. */
  ghost function Ascending(numbers: set<nat>): (s: seq<nat>)
    ensures forall n :: n in s <==> n in numbers
    ensures forall i, j :: 0 <= i < j < |s| ==> s[i] < s[j]
  {
    if numbers == {} then []
    else
      var n := Largest(numbers);
      Ascending(numbers - {n}) + [n]
  }

  ghost function Largest(numbers: set<nat>): (n: nat)
    requires numbers != {}
    ensures n in numbers && forall m :: m in numbers ==> m <= n
  {
    var n :| n in numbers;
    if numbers == {n} then n
    else
      assert forall k :: k in numbers ==> k == n || k in numbers - {n};
      var m := Largest(numbers - {n});
      if n < m then m else n
  }

  /** The points the files of one directory hold of one series, file after file. */
  ghost function PointsIn(files: Files, order: seq<nat>, labels: Labels): seq<Point> {
    if order == [] then []
    else PointsIn(files, order[..|order| - 1], labels)
         + (var n := order[|order| - 1]; if n in files then FilePoints(files[n].series, labels) else [])
  }

  ghost function ColdPoints(files: Files, labels: Labels): seq<Point> {
    PointsIn(files, Ascending(files.Keys), labels)
  }

  /** The points in memory of one series. */
  ghost function MemPoints(mem: map<uint64, Record>, key: Series): seq<Point> {
    var id := SeriesKey.Hash(key);
    if id in mem && mem[id].Key() == key then mem[id].points else []
  }

  /** The points in memory that queries see: those after the watermark. */
  ghost function HotPoints(s: State, key: Series): seq<Point> {
    var ps := MemPoints(s.mem, key);
    if s.flushedUpTo > 0 then After(ps, s.flushedUpTo) else ps
  }

  /** The points of one series that queries see: chunk files first, then memory. */
  ghost function Visible(s: State, key: Series): seq<Point> {
    ColdPoints(s.Dir(key.metric), key.labels) + HotPoints(s, key)
  }

  // ---- push ----

  ghost function ApplyRecord(mem: map<uint64, Record>, rec: Record): map<uint64, Record> {
    var id := SeriesKey.Hash(rec.Key());
    var was := if id in mem then mem[id] else rec.(points := []);
    mem[id := was.(points := InsertAll(was.points, rec.points))]
  }

  function IndexAdd(index: map<Str, set<uint64>>, metric: Str, id: uint64): map<Str, set<uint64>> {
    index[metric := (if metric in index then index[metric] else {}) + {id}]
  }

  /** A series is added to the index when it appears in memory. */
  ghost function IndexRecord(
    index: map<Str, set<uint64>>, mem: map<uint64, Record>, rec: Record): map<Str, set<uint64>> {
    var id := SeriesKey.Hash(rec.Key());
    if id in mem then index else IndexAdd(index, rec.metric, id)
  }

  /** Removing ids from a metric removes the metric when none is left. */
  function IndexRemove(index: map<Str, set<uint64>>, metric: Str, ids: set<uint64>): map<Str, set<uint64>> {
    if metric !in index || ids == {} then index
    else if index[metric] - ids == {} then index - {metric}
    else index[metric := index[metric] - ids]
  }

  /** WAL first, then memory. */
  ghost function Push(s: State, rec: Record): State {
    s.(disk := s.disk.(wal := s.disk.wal[s.current := s.Segment() + [rec]]),
       mem := ApplyRecord(s.mem, rec),
       index := IndexRecord(s.index, s.mem, rec))
  }

  // ---- flush ----

  /** The header range of a file is attained and holds all its points. */
  ghost predicate RangeIs(series: seq<SeriesData>, minTS: int64, maxTS: int64) {
    && (forall d, p :: d in series && p in d.points ==> minTS <= p.ts <= maxTS)
    && (exists d, p :: d in series && p in d.points && p.ts == minTS)
    && (exists d, p :: d in series && p in d.points && p.ts == maxTS)
  }

  ghost predicate Distinct(series: seq<SeriesData>) {
    forall i, j :: 0 <= i < j < |series| ==> series[i].labels != series[j].labels
  }

  /** Some record of the list belongs to the series. */
  ghost predicate Mentions(recs: seq<Record>, key: Series) {
    exists rec :: rec in recs && rec.Key() == key
  }

  /** The file a flush writes for one metric: each of its series once, in any order, with the
      points of the segment inserted one by one. */
  ghost predicate FlushFile(f: ChunkFile, recs: seq<Record>, metric: Str) {
    && Distinct(f.series)
    && RangeIs(f.series, f.minTS, f.maxTS)
    && (forall d :: d in f.series ==>
          var key := Series(metric, d.labels);
          Mentions(recs, key) && d.points == InsertAll([], PointsOf(recs, key)))
    && (forall rec :: rec in recs && rec.metric == metric ==> exists d :: d in f.series && d.labels == rec.labels)
  }

  /** The number of the next file. */
  ghost function NextNumber(files: Files): nat {
    if files.Keys == {} then 1 else Largest(files.Keys) + 1
  }

  ghost predicate HasMetric(recs: seq<Record>, metric: Str) {
    exists rec :: rec in recs && rec.metric == metric
  }

  /** One new file in the directory of each metric of the segment. */
  ghost predicate ChunksWritten(chunks: map<Str, Files>, recs: seq<Record>, chunks': map<Str, Files>) {
    && (forall m :: m in chunks' <==> m in chunks || HasMetric(recs, m))
    && (forall m :: m in chunks && !HasMetric(recs, m) ==> chunks'[m] == chunks[m])
    && (forall m :: m in chunks' && HasMetric(recs, m) ==> AddedFile(DirOf(chunks, m), recs, m, chunks'[m]))
  }

  ghost predicate AddedFile(files: Files, recs: seq<Record>, metric: Str, files': Files) {
    var n := NextNumber(files);
    n in files' && files' == files[n := files'[n]] && FlushFile(files'[n], recs, metric)
  }

  /** The latest timestamp of a list of records, or zero. */
  ghost predicate IsMaxTS(recs: seq<Record>, t: int64) {
    && t >= 0
    && (forall rec, p :: rec in recs && p in rec.points ==> p.ts <= t)
    && (t == 0 || exists rec, p :: rec in recs && p in rec.points && p.ts == t)
  }

  /** Memory without the points up to a time, and without the series that leaves empty. */
  function Evict(mem: map<uint64, Record>, upTo: int64): map<uint64, Record> {
    map id | id in mem && (mem[id].points == [] || After(mem[id].points, upTo) != []) ::
      mem[id].(points := After(mem[id].points, upTo))
  }

  /** The sealed segment is gone and the next one is open. */
  function Rotated(wal: map<nat, seq<Record>>, sealed: nat): map<nat, seq<Record>> {
    (wal - {sealed})[sealed + 1 := []]
  }

  /** Rotate, write the sealed records to chunk files, remove the segment, move the watermark
      and evict what it covers. */
  ghost predicate Flush(s: State, s': State) {
    var recs := s.Segment();
    && s'.disk.wal == Rotated(s.disk.wal, s.current)
    && s'.current == s.current + 1
    && s'.index == s.index
    && if recs == [] then
         s'.disk.chunks == s.disk.chunks && s'.mem == s.mem && s'.flushedUpTo == s.flushedUpTo
       else
         && ChunksWritten(s.disk.chunks, recs, s'.disk.chunks)
         && exists t: int64 :: IsMaxTS(recs, t) && Watermark(s, t, s')
  }

  ghost predicate Watermark(s: State, t: int64, s': State) {
    if t > 0 then s'.flushedUpTo == t && s'.mem == Evict(s.mem, t)
    else s'.flushedUpTo == s.flushedUpTo && s'.mem == s.mem
  }

  // ---- compaction ----

  /** The file that replaces all files of a directory: each series once, its points gathered
      and sorted by time. Equal timestamps may come in any order: the sort is not stable. */
  ghost predicate MergedFile(g: ChunkFile, files: Files) {
    && Distinct(g.series)
    && RangeIs(g.series, g.minTS, g.maxTS)
    && (forall d :: d in g.series ==>
          d.points != [] && Sorted(d.points) && multiset(d.points) == multiset(ColdPoints(files, d.labels)))
    && (forall labels :: ColdPoints(files, labels) != [] ==> exists d :: d in g.series && d.labels == labels)
  }

  /** A directory with more than `threshold` files is left with one. */
  ghost predicate CompactedDir(files: Files, threshold: int, files': Files) {
    if |files| <= threshold || files == map[] then files' == files
    else
      var n := NextNumber(files);
      n in files' && files' == map[n := files'[n]] && MergedFile(files'[n], files)
  }

  ghost predicate Compact(s: State, threshold: int, s': State) {
    && s' == s.(disk := s.disk.(chunks := s'.disk.chunks))
    && s'.disk.chunks.Keys == s.disk.chunks.Keys
    && forall m :: m in s.disk.chunks ==> CompactedDir(s.disk.chunks[m], threshold, s'.disk.chunks[m])
  }

  // ---- drop ----

  /** The series that a drop keeps. */
  function Keep(series: seq<SeriesData>, filter: Labels): seq<SeriesData> {
    if series == [] then []
    else (if LabelsMatch(filter, series[0].labels) then [] else [series[0]]) + Keep(series[1..], filter)
  }

  ghost predicate KeptFile(f: ChunkFile, filter: Labels, f': ChunkFile) {
    && f'.series == Keep(f.series, filter)
    && if f'.series == f.series then f' == f else RangeIs(f'.series, f'.minTS, f'.maxTS)
  }

  /** Files left without series are removed, the others that lose some are rewritten. */
  ghost predicate DroppedFiles(files: Files, filter: Labels, files': Files) {
    && (forall n :: n in files' <==> n in files && Keep(files[n].series, filter) != [])
    && (forall n :: n in files' ==> KeptFile(files[n], filter, files'[n]))
  }

  /** An empty directory is removed. */
  ghost predicate DroppedDir(chunks: map<Str, Files>, metric: Str, filter: Labels, chunks': map<Str, Files>) {
    && (forall m :: m in chunks' && m != metric ==> m in chunks && chunks'[m] == chunks[m])
    && (forall m :: m in chunks && m != metric ==> m in chunks')
    && (metric in chunks' ==> metric in chunks && chunks'[metric] != map[]
                              && DroppedFiles(chunks[metric], filter, chunks'[metric]))
    && (metric in chunks && metric !in chunks' ==> DroppedFiles(chunks[metric], filter, map[]))
  }

  /** The series in memory that a drop removes. */
  predicate Matches(rec: Record, metric: Str, filter: Labels) {
    rec.metric == metric && LabelsMatch(filter, rec.labels)
  }

  function EvictMatching(mem: map<uint64, Record>, metric: Str, filter: Labels): map<uint64, Record> {
    map id | id in mem && !Matches(mem[id], metric, filter) :: mem[id]
  }

  /** The index after a drop: without the ids evicted from memory, and without the metric when
      its directory is gone. */
  function DroppedIndex(mid: State, metric: Str, filter: Labels, dirLeft: bool): map<Str, set<uint64>> {
    var gone := set id | id in mid.mem && Matches(mid.mem[id], metric, filter);
    var index := IndexRemove(mid.index, metric, gone);
    if dirLeft then index else index - {metric}
  }

  /** Remove the matching series from the files of a directory and from memory. The directory is
      that of the metric, which bears its name when the metric names its own directory. */
  ghost predicate DropAfterFlush(mid: State, dir: Str, metric: Str, filter: Labels, s': State) {
    && DroppedDir(mid.disk.chunks, dir, filter, s'.disk.chunks)
    && s'.disk.wal == mid.disk.wal && s'.current == mid.current && s'.flushedUpTo == mid.flushedUpTo
    && s'.mem == EvictMatching(mid.mem, metric, filter)
    && s'.index == DroppedIndex(mid, metric, filter, dir in s'.disk.chunks)
  }

  /** Some stored series matches, in the directory or in memory. */
  ghost predicate AnyMatch(s: State, dir: Str, metric: Str, filter: Labels) {
    || (exists n, d :: n in s.Dir(dir) && d in s.Dir(dir)[n].series && LabelsMatch(filter, d.labels))
    || (exists id :: id in s.mem && Matches(s.mem[id], metric, filter))
  }

  /** A drop of an unknown metric does nothing; otherwise it flushes first. */
  ghost predicate Drop(s: State, dir: Str, metric: Str, filter: Labels, s': State, dropped: bool) {
    if metric !in s.index && dir !in s.disk.chunks then s' == s && !dropped
    else
      exists mid :: Flush(s, mid) && DropAfterFlush(mid, dir, metric, filter, s')
        && (dropped <==> AnyMatch(mid, dir, metric, filter))
  }

  // ---- open ----

  /** The records of all segments, in segment order. */
  ghost function AllRecords(wal: map<nat, seq<Record>>, order: seq<nat>): seq<Record> {
    if order == [] then []
    else AllRecords(wal, order[..|order| - 1])
         + (var n := order[|order| - 1]; if n in wal then wal[n] else [])
  }

  ghost function ReplayMem(recs: seq<Record>): map<uint64, Record> {
    if recs == [] then map[] else ApplyRecord(ReplayMem(recs[..|recs| - 1]), recs[|recs| - 1])
  }

  ghost function ReplayIndex(dirs: set<Str>, recs: seq<Record>): map<Str, set<uint64>> {
    if recs == [] then map m | m in dirs :: {}
    else
      var most := recs[..|recs| - 1];
      IndexRecord(ReplayIndex(dirs, most), ReplayMem(most), recs[|recs| - 1])
  }

  /** The latest maximum in the chunk headers, or zero. */
  ghost predicate IsMaxChunkTS(chunks: map<Str, Files>, t: int64) {
    && t >= 0
    && (forall m, n :: m in chunks && n in chunks[m] ==> chunks[m][n].maxTS <= t)
    && (t == 0 || exists m, n :: m in chunks && n in chunks[m] && chunks[m][n].maxTS == t)
  }

  /** The watermark comes from the chunk headers, memory and index from the segments, and the
      last segment is reopened for appending. */
  ghost predicate Open(disk: Disk, s: State) {
    var recs := AllRecords(disk.wal, Ascending(disk.wal.Keys));
    && s.disk.chunks == disk.chunks
    && s.mem == ReplayMem(recs)
    && s.index == ReplayIndex(disk.chunks.Keys, recs)
    && IsMaxChunkTS(disk.chunks, s.flushedUpTo)
    && if disk.wal.Keys == {} then s.current == 1 && s.disk.wal == map[1 := []]
       else s.current == Largest(disk.wal.Keys) && s.disk.wal == disk.wal
  }

  /** A crash after the last chunk file of a flush is written and before the sealed segment is
      removed, followed by an open. */
  ghost predicate CrashInFlush(s: State, s': State) {
    && s.Segment() != []
    && exists chunks' :: ChunksWritten(s.disk.chunks, s.Segment(), chunks')
         && Open(Disk(s.disk.wal[s.current + 1 := []], chunks'), s')
  }

  /** A crash that loses the last records of the open segment, which had not reached its file,
      followed by reopening. */
  ghost predicate LoseTail(s: State, lost: seq<Record>, s': State) {
    exists kept :: s.Segment() == kept + lost && Open(Disk(s.disk.wal[s.current := kept], s.disk.chunks), s')
  }

  // ---- retention ----

  function FreshFiles(files: Files, cutoff: int64): Files {
    map n | n in files && files[n].maxTS >= cutoff :: files[n]
  }

  function FreshMem(mem: map<uint64, Record>, cutoff: int64): map<uint64, Record> {
    map id | id in mem && After(mem[id].points, cutoff - 1) != [] ::
      mem[id].(points := After(mem[id].points, cutoff - 1))
  }

  predicate LosesId(mem: map<uint64, Record>, gone: set<uint64>, metric: Str)
    requires gone <= mem.Keys
  {
    exists id :: id in gone && mem[id].metric == metric
  }

  function IdsLeft(ids: set<uint64>, mem: map<uint64, Record>, gone: set<uint64>, metric: Str): set<uint64>
    requires gone <= mem.Keys
  {
    set id | id in ids && !(id in gone && mem[id].metric == metric)
  }

  /** The index without some ids under the metrics of their series; a metric goes when it
      loses its last id. */
  function Purged(index: map<Str, set<uint64>>, mem: map<uint64, Record>, gone: set<uint64>): map<Str, set<uint64>>
    requires gone <= mem.Keys
  {
    map m | m in index && (!LosesId(mem, gone, m) || IdsLeft(index[m], mem, gone, m) != {}) ::
      IdsLeft(index[m], mem, gone, m)
  }

  /** The index without the series that retention removes from memory. */
  function FreshIndex(s: State, cutoff: int64): map<Str, set<uint64>> {
    Purged(s.index, s.mem, s.mem.Keys - FreshMem(s.mem, cutoff).Keys)
  }

  /** Files wholly before the cutoff are deleted, points in memory before it are trimmed. */
  ghost predicate Retain(s: State, cutoff: int64, s': State) {
    && s'.disk.chunks == (map m | m in s.disk.chunks :: FreshFiles(s.disk.chunks[m], cutoff))
    && s'.disk.wal == s.disk.wal && s'.current == s.current && s'.flushedUpTo == s.flushedUpTo
    && s'.mem == FreshMem(s.mem, cutoff)
    && s'.index == FreshIndex(s, cutoff)
  }
}
