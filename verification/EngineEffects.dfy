/** What eviction, compaction, drops and retention leave behind, said of the points themselves. */
module EngineEffects {
  import opened Words
  import opened Model
  import opened Points
  import opened EngineState
  import opened EngineLemmas
  import opened EngineInvariant
  import opened EngineSteps
  import opened EngineMaintenance
  import opened EngineRuns
  import SeriesKey

  // ---- memory ----

  /** `rest` is the list without its points before time t, which all come first. */
  ghost predicate From(ps: seq<Point>, rest: seq<Point>, t: int) {
    && (exists early :: ps == early + rest && forall p :: p in early ==> p.ts < t)
    && forall p :: p in rest ==> p.ts >= t
  }

  lemma {:induction false} AfterIsFrom(ps: seq<Point>, t: int)
    requires Sorted(ps)
    ensures From(ps, After(ps, t), t + 1)
    ensures After(ps, t) != [] <==> exists p :: p in ps && p.ts > t
  {
    AfterIsAbove(ps, t);
    var early := ps[..FirstAtLeast(ps, t + 1)];
    assert ps == early + After(ps, t);
    if After(ps, t) != [] {
      assert After(ps, t)[0] in After(ps, t);
    }
  }

  /** Eviction takes the points up to a time from every series, and the series that have no
      other; it changes nothing else. */
  lemma {:induction false} EvictExactly(mem: map<uint64, Record>, upTo: int64)
    requires forall id :: id in mem ==> Sorted(mem[id].points)
    ensures forall id :: id in Evict(mem, upTo)
                    <==> id in mem && (mem[id].points == [] || exists p :: p in mem[id].points && p.ts > upTo)
    ensures forall id :: id in Evict(mem, upTo) ==>
              && Evict(mem, upTo)[id].Key() == mem[id].Key()
              && From(mem[id].points, Evict(mem, upTo)[id].points, upTo + 1)
  {
    hide After, Sorted, From;
    forall id | id in mem
      ensures From(mem[id].points, After(mem[id].points, upTo), upTo + 1)
      ensures After(mem[id].points, upTo) != [] <==> exists p :: p in mem[id].points && p.ts > upTo
    {
      AfterIsFrom(mem[id].points, upTo);
    }
  }

  /** Retention takes the points before the cutoff from every series in memory, and the series
      that have no other. */
  lemma {:induction false} TrimExactly(mem: map<uint64, Record>, cutoff: int64)
    requires forall id :: id in mem ==> Sorted(mem[id].points)
    ensures forall id :: id in FreshMem(mem, cutoff)
                    <==> id in mem && exists p :: p in mem[id].points && p.ts >= cutoff
    ensures forall id :: id in FreshMem(mem, cutoff) ==>
              && FreshMem(mem, cutoff)[id].Key() == mem[id].Key()
              && From(mem[id].points, FreshMem(mem, cutoff)[id].points, cutoff)
  {
    hide After, Sorted, From;
    forall id | id in mem
      ensures From(mem[id].points, After(mem[id].points, cutoff - 1), cutoff)
      ensures After(mem[id].points, cutoff - 1) != [] <==> exists p :: p in mem[id].points && p.ts >= cutoff
    {
      AfterIsFrom(mem[id].points, cutoff - 1);
    }
  }

  /** After it, an id stays listed unless it was that of a series of the metric left without
      points, and a metric unless it loses its last id. */
  lemma {:induction false} PurgeExactly(index: map<Str, set<uint64>>, mem: map<uint64, Record>, gone: set<uint64>)
    requires gone <= mem.Keys
    ensures forall m, id :: Listed(Purged(index, mem, gone), m, id)
                       <==> Listed(index, m, id) && !(id in gone && mem[id].metric == m)
    ensures forall m :: m in Purged(index, mem, gone)
                   <==> m in index && ((exists id :: Listed(Purged(index, mem, gone), m, id))
                                       || forall id :: id in gone ==> mem[id].metric != m)
  {
    forall m, id
      ensures Listed(Purged(index, mem, gone), m, id)
         <==> Listed(index, m, id) && !(id in gone && mem[id].metric == m)
    {
      StaysListed(index, mem, gone, m, id);
    }
    forall m | m in index && IdsLeft(index[m], mem, gone, m) != {}
      ensures exists id :: Listed(Purged(index, mem, gone), m, id)
    {
      var id :| id in IdsLeft(index[m], mem, gone, m);
      assert Listed(Purged(index, mem, gone), m, id);
    }
  }

  lemma {:induction false} StaysListed(
    index: map<Str, set<uint64>>, mem: map<uint64, Record>, gone: set<uint64>, m: Str, id: uint64)
    requires gone <= mem.Keys
    ensures Listed(Purged(index, mem, gone), m, id)
       <==> Listed(index, m, id) && !(id in gone && mem[id].metric == m)
  {
    if Listed(index, m, id) && !(id in gone && mem[id].metric == m) {
      assert id in IdsLeft(index[m], mem, gone, m);
    }
  }

  // ---- flush ----

  lemma {:induction false} EvictedPoints(mem: map<uint64, Record>, upTo: int64, key: Series)
    ensures MemPoints(Evict(mem, upTo), key) == After(MemPoints(mem, key), upTo)
  {
    hide SeriesKey.Hash, After;
    AfterNone(upTo);
  }

  lemma {:induction false} AfterTwice(ps: seq<Point>, t: int)
    ensures After(After(ps, t), t) == After(ps, t)
  {
  }

  /** What a flush makes of one series: all that is stored of it is in chunk files, and queries
      see in memory what was there after the new watermark. */
  ghost predicate FlushedSeries(s: State, s': State, key: Series) {
    && multiset(ColdPoints(s'.Dir(key.metric), key.labels))
       == multiset(ColdPoints(s.Dir(key.metric), key.labels)) + multiset(PointsOf(s.Segment(), key))
    && HotPoints(s', key)
       == if s'.flushedUpTo > 0 then After(MemPoints(s.mem, key), s'.flushedUpTo) else MemPoints(s.mem, key)
  }

  /** The watermark is the latest time in the records, when that is above zero, even when it was
      later before. */
  ghost predicate MarkMoves(recs: seq<Record>, before: int64, after: int64) {
    if exists rec, p :: rec in recs && p in rec.points && p.ts > 0 then
      && (forall rec, p :: rec in recs && p in rec.points ==> p.ts <= after)
      && exists rec, p :: rec in recs && p in rec.points && p.ts == after
    else after == before
  }

  lemma {:induction false} FlushMark(s: State, s': State)
    requires Flush(s, s')
    ensures MarkMoves(s.Segment(), s.flushedUpTo, s'.flushedUpTo)
  {
    hide ChunksWritten, Evict;
  }

  /** A flush from any state, late points included. */
  lemma {:induction false} FlushExactly(s: State, s': State, key: Series)
    requires Flush(s, s')
    ensures s'.Segment() == [] && FlushedSeries(s, s', key)
  {
    hide ColdPoints, PointsOf, MemPoints, After, Evict, ChunksWritten, InsertAll, IsMaxTS;
    HotUnfold(s', key);
    if s.Segment() == [] {
      PointsOfNone(key);
    } else {
      WrittenCold(s.disk.chunks, s.Segment(), s'.disk.chunks, key);
      NoneSorted();
      InsertAllKeepsOrder([], PointsOf(s.Segment(), key));
      var t: int64 :| IsMaxTS(s.Segment(), t) && Watermark(s, t, s');
      if t > 0 {
        EvictedPoints(s.mem, t, key);
        AfterTwice(MemPoints(s.mem, key), t);
      }
    }
  }

  // ---- drop ----

  /** Eviction by labels leaves exactly the series of other metrics and those that lack a label. */
  lemma {:induction false} EvictMatchingExactly(mem: map<uint64, Record>, metric: Str, filter: Labels)
    ensures forall id :: id in EvictMatching(mem, metric, filter)
                    <==> id in mem && (mem[id].metric != metric || Lacks(mem[id].labels, filter))
    ensures forall id :: id in EvictMatching(mem, metric, filter) ==> EvictMatching(mem, metric, filter)[id] == mem[id]
  {
    hide LabelsMatch;
    forall id | id in mem ensures LabelsMatch(filter, mem[id].labels) <==> !Lacks(mem[id].labels, filter) {
      LacksExactly(filter, mem[id].labels);
    }
  }

  lemma {:induction false} EvictedMatching(mem: map<uint64, Record>, metric: Str, filter: Labels, key: Series)
    ensures MemPoints(EvictMatching(mem, metric, filter), key)
         == if key.metric == metric && LabelsMatch(filter, key.labels) then [] else MemPoints(mem, key)
  {
    hide SeriesKey.Hash, LabelsMatch;
  }

  /** What a drop makes of one series. One that lacks no label of the filter is in no file of the
      directory and not in memory; of every other the files have all that was stored, and memory
      what a flush leaves. */
  ghost predicate DroppedSeries(s: State, dir: Str, metric: Str, filter: Labels, s': State, key: Series) {
    var matches := !Lacks(key.labels, filter);
    && multiset(ColdPoints(s'.Dir(key.metric), key.labels))
       == (if key.metric == dir && matches then multiset{}
           else multiset(ColdPoints(s.Dir(key.metric), key.labels)) + multiset(PointsOf(s.Segment(), key)))
    && (key.metric == metric && matches ==> MemPoints(s'.mem, key) == [])
    && HotPoints(s', key)
       == (if key.metric == metric && matches then []
           else if s'.flushedUpTo > 0 then After(MemPoints(s.mem, key), s'.flushedUpTo) else MemPoints(s.mem, key))
  }

  /** A drop from any state in which the metric is known. */
  lemma {:induction false} DropExactly(
    s: State, dir: Str, metric: Str, filter: Labels, s': State, dropped: bool, key: Series)
    requires Drop(s, dir, metric, filter, s', dropped) && (metric in s.index || dir in s.disk.chunks)
    ensures s'.Segment() == [] && DroppedSeries(s, dir, metric, filter, s', key)
  {
    hide ColdPoints, PointsOf, MemPoints, After, Flush, DroppedDir, AnyMatch, LabelsMatch, EvictMatching, HotPoints,
      DroppedIndex;
    LacksExactly(filter, key.labels);
    var mid :| Flush(s, mid) && DropAfterFlush(mid, dir, metric, filter, s')
      && (dropped <==> AnyMatch(mid, dir, metric, filter));
    FlushExactly(s, mid, key);
    DroppedColdDir(mid.disk.chunks, dir, filter, s'.disk.chunks, key);
    EvictedMatching(mid.mem, metric, filter, key);
    HotUnfold(mid, key);
    HotUnfold(s', key);
    AfterNone(s'.flushedUpTo);
  }

  /** The kept series of a file are those that lack a label of the filter. */
  lemma {:induction false} KeepExactly(series: seq<SeriesData>, filter: Labels)
    ensures forall d :: d in Keep(series, filter)
                   <==> d in series && Lacks(d.labels, filter)
  {
    hide Keep, LabelsMatch;
    KeepMembers(series, filter);
    forall d | d in series ensures LabelsMatch(filter, d.labels) <==> !Lacks(d.labels, filter) {
      LacksExactly(filter, d.labels);
    }
  }

  lemma {:induction false} SomeKept(series: seq<SeriesData>)
    ensures series != [] <==> exists d :: d in series
  {
    if series != [] {
      assert series[0] in series;
    }
  }

  /** The files that are left are those with a series that lacks a label of the filter, and they
      hold exactly these series. */
  ghost predicate LackingLeft(files: Files, filter: Labels, files': Files) {
    && (forall n :: n in files' <==> n in files && exists d :: d in files[n].series && Lacks(d.labels, filter))
    && (forall n, d :: n in files' ==> (d in files'[n].series <==> d in files[n].series && Lacks(d.labels, filter)))
  }

  lemma {:induction false} DroppedExactly(files: Files, filter: Labels, files': Files)
    requires DroppedFiles(files, filter, files')
    ensures LackingLeft(files, filter, files')
  {
    hide Keep, KeptFile, LabelsMatch;
    forall n | n in files
      ensures Keep(files[n].series, filter) != [] <==> exists d :: d in files[n].series && Lacks(d.labels, filter)
      ensures n in files' ==> forall d :: d in files'[n].series <==> d in files[n].series && Lacks(d.labels, filter)
    {
      KeepExactly(files[n].series, filter);
      SomeKept(Keep(files[n].series, filter));
      if n in files' {
        KeptSeries(files[n], filter, files'[n]);
      }
    }
  }

  // ---- retention ----

  /** Retention leaves exactly the files with a point at or after the cutoff. */
  lemma {:induction false} FreshExactly(files: Files, cutoff: int64)
    requires forall n :: n in files ==> RangeIs(files[n].series, files[n].minTS, files[n].maxTS)
    ensures forall n :: n in FreshFiles(files, cutoff)
                   <==> n in files && exists d, p :: d in files[n].series && p in d.points && p.ts >= cutoff
    ensures forall n :: n in FreshFiles(files, cutoff) ==> FreshFiles(files, cutoff)[n] == files[n]
  {
    hide RangeIs;
    forall n | n in files
      ensures files[n].maxTS >= cutoff <==> exists d, p :: d in files[n].series && p in d.points && p.ts >= cutoff
    {
      NewestInFile(files[n], cutoff);
    }
  }

  lemma {:induction false} NewestInFile(f: ChunkFile, cutoff: int64)
    requires RangeIs(f.series, f.minTS, f.maxTS)
    ensures f.maxTS >= cutoff <==> exists d, p :: d in f.series && p in d.points && p.ts >= cutoff
  {
  }

  /** Every point that queries see of the metric is before the cutoff. */
  ghost predicate AllBefore(s: State, metric: Str, cutoff: int64) {
    forall key: Series, p: Point :: key.metric == metric && p in Visible(s, key) ==> p.ts < cutoff
  }

  ghost predicate ShowsNothing(s: State, metric: Str) {
    forall key: Series :: key.metric == metric ==> Visible(s, key) == []
  }

  /** A metric that shows only points before the cutoff shows nothing after retention. */
  lemma {:induction false} RetainClears(s: State, cutoff: int64, s': State, universe: set<Series>, metric: Str)
    requires GoodMem(s.mem, universe) && Retain(s, cutoff, s')
    requires forall m, n :: m in s.disk.chunks && n in s.disk.chunks[m] ==> GoodFile(s.disk.chunks[m][n], m, universe)
    requires AllBefore(s, metric, cutoff)
    ensures s'.Dir(metric) == map[] && ShowsNothing(s', metric)
  {
    hide GoodFile, Visible, FreshIndex, FreshFiles;
    forall n | n in s.Dir(metric) ensures n !in FreshFiles(s.Dir(metric), cutoff) {
      OldFile(s, cutoff, universe, metric, n);
    }
    assert s'.Dir(metric) == map[] by { FreshDir(s, cutoff, s', metric); }
    forall key: Series | key.metric == metric ensures Visible(s', key) == [] {
      OldSeries(s, cutoff, s', universe, key);
    }
  }

  lemma {:induction false} FreshDir(s: State, cutoff: int64, s': State, metric: Str)
    requires Retain(s, cutoff, s') && forall n :: n in s.Dir(metric) ==> n !in FreshFiles(s.Dir(metric), cutoff)
    ensures s'.Dir(metric) == map[]
  {
    hide FreshMem, FreshIndex, FreshFiles;
    assert forall n :: n in FreshFiles(s.Dir(metric), cutoff) ==> n in s.Dir(metric) by {
      FreshPart(s.Dir(metric), cutoff);
    }
    assert FreshFiles(s.Dir(metric), cutoff) == map[];
  }

  lemma {:induction false} FreshPart(files: Files, cutoff: int64)
    ensures forall n :: n in FreshFiles(files, cutoff) ==> n in files
  {
  }

  lemma {:induction false} OldFile(s: State, cutoff: int64, universe: set<Series>, metric: Str, n: nat)
    requires metric in s.disk.chunks && n in s.disk.chunks[metric]
    requires GoodFile(s.disk.chunks[metric][n], metric, universe)
    requires forall key: Series, p: Point :: key.metric == metric && p in Visible(s, key) ==> p.ts < cutoff
    ensures n !in FreshFiles(s.Dir(metric), cutoff)
  {
    hide GoodSeries, Distinct, ColdPoints, HotPoints;
    var f := s.disk.chunks[metric][n];
    var d, p :| d in f.series && p in d.points && p.ts == f.maxTS;
    HeldInDir(s.disk.chunks[metric], n, d, p);
    assert p in Visible(s, Series(metric, d.labels));
  }

  lemma {:induction false} OldSeries(s: State, cutoff: int64, s': State, universe: set<Series>, key: Series)
    requires GoodMem(s.mem, universe) && Retain(s, cutoff, s') && s'.Dir(key.metric) == map[]
    requires forall p :: p in Visible(s, key) ==> p.ts < cutoff
    ensures Visible(s', key) == []
  {
    hide ColdPoints, MemPoints, After, HotPoints, FreshMem, FreshIndex;
    ColdNone(key.labels);
    FreshHot(s, cutoff, s', key);
    HotUnfold(s, key);
    MemSorted(s.mem, universe, key);
    NoneLeft(MemPoints(s.mem, key), s.flushedUpTo, cutoff);
  }

  lemma {:induction false} NoneLeft(ps: seq<Point>, t: int64, cutoff: int64)
    requires Sorted(ps) && forall p :: p in (if t > 0 then After(ps, t) else ps) ==> p.ts < cutoff
    ensures (if t > 0 then After(After(ps, cutoff - 1), t) else After(ps, cutoff - 1)) == []
  {
    hide After, Sorted;
    var cut := After(ps, cutoff - 1);
    AfterSorted(ps, cutoff - 1);
    AfterMembers(ps, cutoff - 1);
    AfterMembers(ps, t);
    AfterMembers(cut, t);
    SomeMember(if t > 0 then After(cut, t) else cut);
  }

  lemma {:induction false} AfterMembers(ps: seq<Point>, t: int)
    requires Sorted(ps)
    ensures forall p :: p in After(ps, t) <==> p in ps && p.ts > t
  {
    AfterIsAbove(ps, t);
    var early := ps[..FirstAtLeast(ps, t + 1)];
    assert forall p :: p in ps <==> p in early || p in After(ps, t);
  }

  lemma {:induction false} SomeMember(ps: seq<Point>)
    ensures ps == [] || exists p :: p in ps
  {
    if ps != [] {
      assert ps[0] in ps;
    }
  }
}
