/** What every operation keeps from whatever state: well-formed files, time-ordered lists in
    memory under their own ids, and an index that lists every series in memory. */
module EngineSound {
  import opened Words
  import opened Model
  import opened Points
  import opened EngineState
  import opened EngineLemmas
  import opened EngineInvariant
  import opened EngineSteps
  import opened EngineMaintenance
  import SeriesKey

  ghost predicate SoundFiles(files: Files, metric: Str, universe: set<Series>) {
    forall n :: n in files ==> GoodFile(files[n], metric, universe)
  }

  ghost predicate SoundChunks(chunks: map<Str, Files>, universe: set<Series>) {
    forall m :: m in chunks ==> SoundFiles(chunks[m], m, universe)
  }

  ghost predicate SoundIndex(index: map<Str, set<uint64>>, mem: map<uint64, Record>, universe: set<Series>) {
    && (forall id :: id in mem ==> Listed(index, mem[id].metric, id))
    && (forall m, id :: Listed(index, m, id) ==> FromUniverse(m, id, universe))
  }

  /** What holds of disk and memory, whatever the index lists. */
  ghost predicate SoundData(s: State, universe: set<Series>) {
    && Usable(universe)
    && s.flushedUpTo >= 0
    && GoodWal(s.disk.wal, s.current, universe)
    && SoundChunks(s.disk.chunks, universe)
    && GoodMem(s.mem, universe)
  }

  ghost predicate Sound(s: State, universe: set<Series>) {
    SoundData(s, universe) && SoundIndex(s.index, s.mem, universe)
  }

  lemma {:induction false} ShapeSound(s: State, universe: set<Series>)
    requires Shape(s, universe)
    ensures Sound(s, universe)
  {
    hide Storable, GoodFile, GoodRecords, NoCollision, GoodEntry;
  }

  /** A listed id whose series is in memory belongs to the metric that lists it. */
  lemma {:induction false} ListedMetric(
    index: map<Str, set<uint64>>, mem: map<uint64, Record>, universe: set<Series>, metric: Str, id: uint64)
    requires NoCollision(universe) && GoodMem(mem, universe) && SoundIndex(index, mem, universe) && id in mem
    ensures mem[id].metric == metric <==> Listed(index, metric, id)
  {
    hide Storable, SeriesKey.Hash, Sorted, AllAbove;
    assert GoodEntry(id, mem[id], universe);
    if Listed(index, metric, id) {
      assert FromUniverse(metric, id, universe);
    }
  }

  // ---- push ----

  lemma {:induction false} PushIndexSound(
    index: map<Str, set<uint64>>, mem: map<uint64, Record>, rec: Record, universe: set<Series>)
    requires NoCollision(universe) && GoodMem(mem, universe) && rec.Key() in universe
    requires SoundIndex(index, mem, universe)
    ensures SoundIndex(IndexRecord(index, mem, rec), ApplyRecord(mem, rec), universe)
  {
    hide Storable, SeriesKey.Hash, InsertAll, Sorted, AllAbove;
    var id := SeriesKey.Hash(rec.Key());
    var index' := IndexRecord(index, mem, rec);
    if id in mem {
      assert GoodEntry(id, mem[id], universe);
      assert mem[id].Key() == rec.Key();
    }
    forall m, i | Listed(index', m, i) ensures FromUniverse(m, i, universe) {
      if !Listed(index, m, i) {
        assert i == id && m == rec.metric;
      }
    }
  }

  lemma {:induction false} PushData(s: State, rec: Record, universe: set<Series>)
    requires SoundData(s, universe) && GoodRecord(rec, universe)
    ensures SoundData(Push(s, rec), universe)
  {
    hide Storable, GoodMem, ApplyRecord, IndexRecord, SoundChunks, NoCollision, GoodRecord;
    ApplyGood(s.mem, rec, universe);
  }

  lemma {:induction false} PushSound(s: State, rec: Record, universe: set<Series>)
    requires Sound(s, universe) && GoodRecord(rec, universe)
    ensures Sound(Push(s, rec), universe)
  {
    PushData(s, rec, universe);
    hide Storable, GoodMem, SoundIndex, ApplyRecord, IndexRecord, SoundChunks, NoCollision, GoodRecord, GoodWal;
    KnownRecord(rec, universe);
    PushIndexSound(s.index, s.mem, rec, universe);
  }

  lemma {:induction false} KnownRecord(rec: Record, universe: set<Series>)
    requires GoodRecord(rec, universe)
    ensures rec.Key() in universe
  {
  }

  // ---- flush ----

  lemma {:induction false} WrittenSound(
    chunks: map<Str, Files>, recs: seq<Record>, chunks': map<Str, Files>, universe: set<Series>)
    requires SoundChunks(chunks, universe) && GoodRecords(recs, universe) && ChunksWritten(chunks, recs, chunks')
    ensures SoundChunks(chunks', universe)
  {
    hide Storable, FlushFile, GoodFile, GoodRecord, NextNumber;
    forall m | m in chunks' ensures SoundFiles(chunks'[m], m, universe) {
      if HasMetric(recs, m) {
        var n := NextNumber(DirOf(chunks, m));
        FlushFileGood(chunks'[m][n], recs, m, universe);
      }
    }
  }

  /** An index stays sound for part of the memory, and when it loses ids that left memory. */
  lemma {:induction false} SmallerIndex(
    index: map<Str, set<uint64>>, mem: map<uint64, Record>, index': map<Str, set<uint64>>, mem': map<uint64, Record>,
    universe: set<Series>)
    requires SoundIndex(index, mem, universe)
    requires forall id :: id in mem' ==> id in mem && mem'[id].metric == mem[id].metric
    requires forall m, id :: Listed(index', m, id) ==> Listed(index, m, id)
    requires forall id :: id in mem' ==> Listed(index', mem'[id].metric, id)
    ensures SoundIndex(index', mem', universe)
  {
  }

  lemma {:induction false} FlushData(s: State, s': State, universe: set<Series>)
    requires SoundData(s, universe) && Flush(s, s')
    ensures SoundData(s', universe)
  {
    hide Storable, ChunksWritten, SoundChunks, GoodMem, NoCollision, IsMaxTS, Rotated, Evict;
    RotatedGood(s.disk.wal, s.current, universe);
    if s.Segment() != [] {
      WrittenSound(s.disk.chunks, s.Segment(), s'.disk.chunks, universe);
      var t: int64 :| IsMaxTS(s.Segment(), t) && Watermark(s, t, s');
      EvictGood(s.mem, t, universe);
    }
  }

  lemma {:induction false} FlushSound(s: State, s': State, universe: set<Series>)
    requires Sound(s, universe) && Flush(s, s')
    ensures Sound(s', universe)
  {
    hide SoundData, SoundIndex, Flush, Evict;
    FlushData(s, s', universe);
    FlushMemory(s, s');
    if s'.mem != s.mem {
      var t: int64 :| s'.mem == Evict(s.mem, t);
      EvictListed(s.index, s.mem, t, universe);
    }
  }

  /** A flush leaves the index alone and memory as it is or evicted. */
  lemma {:induction false} FlushMemory(s: State, s': State)
    requires Flush(s, s')
    ensures s'.index == s.index && (s'.mem == s.mem || exists t: int64 :: s'.mem == Evict(s.mem, t))
  {
    hide ChunksWritten, IsMaxTS, Rotated, Evict;
    if s.Segment() != [] {
      var t: int64 :| IsMaxTS(s.Segment(), t) && Watermark(s, t, s');
    }
  }

  lemma {:induction false} EvictListed(
    index: map<Str, set<uint64>>, mem: map<uint64, Record>, t: int64, universe: set<Series>)
    requires SoundIndex(index, mem, universe)
    ensures SoundIndex(index, Evict(mem, t), universe)
  {
    hide Storable, After;
    SmallerIndex(index, mem, index, Evict(mem, t), universe);
  }

  // ---- compaction, drop, retention ----

  lemma {:induction false} CompactData(s: State, threshold: int, s': State, universe: set<Series>)
    requires SoundData(s, universe) && Compact(s, threshold, s')
    ensures SoundData(s', universe)
  {
    hide Storable, CompactedDir, GoodMem, NoCollision, GoodFile;
    assert forall m :: m in s'.disk.chunks <==> m in s.disk.chunks;
    forall m | m in s'.disk.chunks ensures SoundFiles(s'.disk.chunks[m], m, universe) {
      CompactedSound(s.disk.chunks[m], threshold, s'.disk.chunks[m], m, universe);
    }
  }

  lemma {:induction false} CompactSound(s: State, threshold: int, s': State, universe: set<Series>)
    requires Sound(s, universe) && Compact(s, threshold, s')
    ensures Sound(s', universe)
  {
    CompactData(s, threshold, s', universe);
    hide Storable, SoundData, SoundIndex, CompactedDir;
  }

  lemma {:induction false} CompactedSound(
    files: Files, threshold: int, files': Files, metric: Str, universe: set<Series>)
    requires CompactedDir(files, threshold, files') && SoundFiles(files, metric, universe)
    ensures SoundFiles(files', metric, universe)
  {
    hide Storable, GoodFile, MergedFile, OrderedFiles, Dominates;
    if files' != files {
      CompactedGood(files, threshold, files', metric, universe);
    }
  }

  lemma {:induction false} DroppedSound(files: Files, filter: Labels, files': Files, metric: Str, universe: set<Series>)
    requires DroppedFiles(files, filter, files') && SoundFiles(files, metric, universe)
    ensures SoundFiles(files', metric, universe)
  {
    hide Storable, GoodFile, KeptFile, Keep;
    forall n | n in files' ensures GoodFile(files'[n], metric, universe) {
      assert files'[n].series == Keep(files[n].series, filter) by { KeptSeries(files[n], filter, files'[n]); }
      KeptGood(files[n], filter, files'[n], metric, universe);
    }
  }

  /** The series that a drop keeps stay listed unless their metric leaves the index. */
  lemma {:induction false} DropListed(mid: State, metric: Str, filter: Labels, dirLeft: bool, id: uint64)
    requires id in EvictMatching(mid.mem, metric, filter) && Listed(mid.index, mid.mem[id].metric, id)
    requires dirLeft || mid.mem[id].metric != metric
    ensures Listed(DroppedIndex(mid, metric, filter, dirLeft), mid.mem[id].metric, id)
  {
    hide LabelsMatch;
    var gone := set i | i in mid.mem && Matches(mid.mem[i], metric, filter);
    if mid.mem[id].metric == metric {
      assert id in mid.index[metric] - gone;
    }
  }

  lemma {:induction false} DropShrinks(mid: State, metric: Str, filter: Labels, dirLeft: bool, m: Str, id: uint64)
    requires Listed(DroppedIndex(mid, metric, filter, dirLeft), m, id)
    ensures Listed(mid.index, m, id)
  {
    hide LabelsMatch;
  }

  lemma {:induction false} DropIndexSound(
    mid: State, metric: Str, filter: Labels, dirLeft: bool, universe: set<Series>)
    requires SoundIndex(mid.index, mid.mem, universe)
    requires dirLeft || !InMemory(EvictMatching(mid.mem, metric, filter), metric)
    ensures SoundIndex(DroppedIndex(mid, metric, filter, dirLeft), EvictMatching(mid.mem, metric, filter), universe)
  {
    hide Storable, DroppedIndex, LabelsMatch, FromUniverse;
    var index', mem' := DroppedIndex(mid, metric, filter, dirLeft), EvictMatching(mid.mem, metric, filter);
    forall m, id | Listed(index', m, id) ensures FromUniverse(m, id, universe) {
      DropShrinks(mid, metric, filter, dirLeft, m, id);
    }
    forall id | id in mem' ensures Listed(index', mem'[id].metric, id) {
      DropListed(mid, metric, filter, dirLeft, id);
    }
  }

  lemma {:induction false} DropAfterFlushData(
    mid: State, dir: Str, metric: Str, filter: Labels, s': State, universe: set<Series>)
    requires SoundData(mid, universe) && DropAfterFlush(mid, dir, metric, filter, s')
    ensures SoundData(s', universe)
  {
    hide Storable, NoCollision, GoodWal, GoodFile, DroppedFiles, GoodEntry, LabelsMatch, DroppedIndex;
    if dir in s'.disk.chunks {
      DroppedSound(mid.disk.chunks[dir], filter, s'.disk.chunks[dir], dir, universe);
    }
  }

  lemma {:induction false} DropAfterFlushSound(
    mid: State, dir: Str, metric: Str, filter: Labels, s': State, universe: set<Series>)
    requires Sound(mid, universe) && DropAfterFlush(mid, dir, metric, filter, s')
    requires dir in s'.disk.chunks || !InMemory(s'.mem, metric)
    ensures Sound(s', universe)
  {
    DropAfterFlushData(mid, dir, metric, filter, s', universe);
    hide Storable, SoundData, DroppedDir, DroppedIndex, SoundIndex, EvictMatching;
    DropIndexSound(mid, metric, filter, dir in s'.disk.chunks, universe);
  }

  lemma {:induction false} DropData(
    s: State, dir: Str, metric: Str, filter: Labels, s': State, dropped: bool, universe: set<Series>)
    requires SoundData(s, universe) && Drop(s, dir, metric, filter, s', dropped)
    ensures SoundData(s', universe)
  {
    hide Storable, SoundData, Flush, DropAfterFlush, AnyMatch;
    if s' != s {
      var mid :| Flush(s, mid) && DropAfterFlush(mid, dir, metric, filter, s')
        && (dropped <==> AnyMatch(mid, dir, metric, filter));
      FlushData(s, mid, universe);
      DropAfterFlushData(mid, dir, metric, filter, s', universe);
    }
  }

  /** A drop leaves a sound state exactly when the metric still has a directory or no series
      left in memory: a metric whose directory is gone is taken off the index, and with it
      any series that memory still holds, which queries then no longer find. */
  lemma {:induction false} DropSoundExactly(
    s: State, dir: Str, metric: Str, filter: Labels, s': State, dropped: bool, universe: set<Series>)
    requires Sound(s, universe) && Drop(s, dir, metric, filter, s', dropped)
    requires metric in s.index || dir in s.disk.chunks
    ensures Sound(s', universe) <==> dir in s'.disk.chunks || !InMemory(s'.mem, metric)
  {
    hide Storable, NoCollision, Flush, SoundChunks, GoodWal, GoodMem, DroppedDir, AnyMatch, EvictMatching;
    var mid :| Flush(s, mid) && DropAfterFlush(mid, dir, metric, filter, s')
      && (dropped <==> AnyMatch(mid, dir, metric, filter));
    FlushSound(s, mid, universe);
    if dir in s'.disk.chunks || !InMemory(s'.mem, metric) {
      DropAfterFlushSound(mid, dir, metric, filter, s', universe);
    } else {
      var id :| id in s'.mem && s'.mem[id].metric == metric;
      assert metric !in s'.index;
      assert !Listed(s'.index, s'.mem[id].metric, id);
    }
  }

  lemma {:induction false} FreshSound(mem: map<uint64, Record>, cutoff: int64, universe: set<Series>)
    requires GoodMem(mem, universe)
    ensures GoodMem(FreshMem(mem, cutoff), universe)
  {
    hide Storable, SeriesKey.Hash, After;
    forall id | id in FreshMem(mem, cutoff) ensures GoodEntry(id, FreshMem(mem, cutoff)[id], universe) {
      assert GoodEntry(id, mem[id], universe);
      AfterGood(mem[id].points, cutoff - 1);
    }
  }

  lemma {:induction false} RetainData(s: State, cutoff: int64, s': State, universe: set<Series>)
    requires SoundData(s, universe) && Retain(s, cutoff, s')
    ensures SoundData(s', universe)
  {
    hide Storable, NoCollision, GoodWal, GoodFile, GoodEntry, After, FreshIndex;
    FreshSound(s.mem, cutoff, universe);
    assert SoundChunks(s'.disk.chunks, universe);
  }

  /** Purging the index of series that leave memory keeps those that stay listed. */
  lemma {:induction false} PurgedIndexSound(
    index: map<Str, set<uint64>>, mem: map<uint64, Record>, mem': map<uint64, Record>, universe: set<Series>)
    requires SoundIndex(index, mem, universe)
    requires forall id :: id in mem' ==> id in mem && mem'[id].metric == mem[id].metric
    ensures SoundIndex(Purged(index, mem, mem.Keys - mem'.Keys), mem', universe)
  {
    hide Storable, FromUniverse;
    var gone := mem.Keys - mem'.Keys;
    forall id | id in mem' ensures Listed(Purged(index, mem, gone), mem'[id].metric, id) {
      var m := mem[id].metric;
      assert Listed(index, m, id);
      assert id in IdsLeft(index[m], mem, gone, m);
    }
    SmallerIndex(index, mem, Purged(index, mem, gone), mem', universe);
  }

  lemma {:induction false} RetainSound(s: State, cutoff: int64, s': State, universe: set<Series>)
    requires Sound(s, universe) && Retain(s, cutoff, s')
    ensures Sound(s', universe)
  {
    RetainData(s, cutoff, s', universe);
    hide Storable, SoundData, After, SoundIndex, Purged;
    PurgedIndexSound(s.index, s.mem, s'.mem, universe);
  }

  // ---- open ----

  lemma {:induction false} ReplayIndexSound(dirs: set<Str>, recs: seq<Record>, universe: set<Series>)
    requires NoCollision(universe) && GoodRecords(recs, universe)
    ensures SoundIndex(ReplayIndex(dirs, recs), ReplayMem(recs), universe)
    decreases recs
  {
    hide Storable, IndexRecord, ApplyRecord, NoCollision;
    if recs == [] {
      FirstSound(dirs, universe);
    } else {
      var most, rec := recs[..|recs| - 1], recs[|recs| - 1];
      assert rec in recs;
      ReplayIndexSound(dirs, most, universe);
      ReplayGood(most, universe);
      PushIndexSound(ReplayIndex(dirs, most), ReplayMem(most), rec, universe);
    }
  }

  lemma {:induction false} FirstSound(dirs: set<Str>, universe: set<Series>)
    ensures SoundIndex(ReplayIndex(dirs, []), ReplayMem([]), universe)
  {
  }

  /** Opening any disk with well-formed records and files gives a sound state. */
  lemma {:induction false} OpenSound(disk: Disk, s: State, universe: set<Series>)
    requires Usable(universe) && SoundChunks(disk.chunks, universe)
    requires forall n :: n in disk.wal ==> GoodRecords(disk.wal[n], universe)
    requires Open(disk, s)
    ensures Sound(s, universe)
  {
    hide Storable, SoundChunks, NoCollision, GoodRecord, AllRecords, Ascending, SoundIndex, GoodMem, ReplayMem,
      ReplayIndex;
    var order := Ascending(disk.wal.Keys);
    RecordsKnown(disk.wal, order, universe);
    ReplayGood(AllRecords(disk.wal, order), universe);
    ReplayIndexSound(disk.chunks.Keys, AllRecords(disk.wal, order), universe);
  }

  lemma {:induction false} RecordsKnown(wal: map<nat, seq<Record>>, order: seq<nat>, universe: set<Series>)
    requires forall n :: n in wal ==> GoodRecords(wal[n], universe)
    ensures GoodRecords(AllRecords(wal, order), universe)
    decreases order
  {
    hide Storable, GoodRecord;
    if order != [] {
      RecordsKnown(wal, order[..|order| - 1], universe);
    }
  }
}
