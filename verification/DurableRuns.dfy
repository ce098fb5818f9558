/** Durability over whole runs: nothing that reached a file is lost, every chunk file reads back
    from its bytes, and a push stays once its segment has been synced. */
module DurableRuns {
  import opened Words
  import opened Model
  import opened Points
  import opened Names
  import opened WalFormat
  import opened SegmentFile
  import opened EngineState
  import opened EngineLemmas
  import opened EngineInvariant
  import opened DiskContent
  import opened Durability
  import opened EngineLimits
  import ChunkFormat

  // ---- every file can be read ----

  ghost predicate KnownLog(log: seq<Entry>, universe: set<Series>) {
    forall e :: e in log ==> e.rec.Key() in universe && e.rec.points != []
  }

  ghost predicate StoredDir(files: Files, metric: Str, universe: set<Series>) {
    forall n :: n in files ==> StoredFile(files[n], metric, universe) && n < NUMBERS
  }

  /** All records are of series in use, and all files are such that the format can hold them. */
  ghost predicate Stored(s: Sys, universe: set<Series>) {
    && (forall n :: n in s.wal ==> KnownLog(s.wal[n].log, universe))
    && (forall m :: m in s.chunks ==> StoredDir(s.chunks[m], m, universe))
    && (s.phase.Merging? ==> StoredFile(s.phase.g, s.phase.metric, universe))
  }

  lemma {:induction false} GrowLogs(s: Sys, size: nat)
    requires s.open ==> CanGrow(s, size)
    ensures
      var t := Grow(s, size);
      && t.chunks == s.chunks && t.phase == s.phase && t.wal.Keys == s.wal.Keys && t.current == s.current
      && forall n :: n in s.wal ==> t.wal[n].log == s.wal[n].log
  {
    hide Durable, Wellformed;
  }

  lemma {:induction false} OpenKnown(wal: map<nat, Segment>, n: nat, universe: set<Series>)
    requires n in wal ==> KnownLog(wal[n].log, universe)
    ensures KnownLog(OpenFile(wal, n).log, universe)
  {
    hide Whole, Wellformed;
  }

  /** The records of a segment that reached its file are records of its log. */
  lemma {:induction false} DurableKnown(seg: Segment, universe: set<Series>)
    requires Wellformed(seg) && KnownLog(seg.log, universe)
    ensures forall rec :: rec in Durable(seg) ==> rec.Key() in universe && rec.points != []
  {
    hide Whole, LogBytes, Records;
    LogKnown(seg.log, Whole(seg.log, seg.size), universe);
  }

  lemma {:induction false} LogKnown(log: seq<Entry>, n: nat, universe: set<Series>)
    requires n <= |log| && KnownLog(log, universe)
    ensures forall rec :: rec in Records(log[..n]) ==> rec.Key() in universe && rec.points != []
  {
    forall rec | rec in Records(log[..n]) ensures rec.Key() in universe && rec.points != [] {
      var i :| 0 <= i < n && Records(log[..n])[i] == rec;
      assert log[i] in log;
    }
  }

  /** The file that a flush writes for a metric of its records can be held by the format. */
  lemma {:induction false} FlushStored(f: ChunkFile, recs: seq<Record>, metric: Str, universe: set<Series>)
    requires FlushFile(f, recs, metric) && metric in Metrics(recs)
    requires forall rec :: rec in recs ==> rec.Key() in universe && rec.points != []
    requires forall key :: |PointsOf(recs, key)| <= MAX_POINTS
    ensures StoredFile(f, metric, universe)
  {
    hide PointsOf, InsertAll, RangeIs, Distinct;
    var rec :| rec in recs && rec.metric == metric;
    var d0 :| d0 in f.series && d0.labels == rec.labels;
    NoneSorted();
    forall d | d in f.series
      ensures d.points != [] && |d.points| <= MAX_POINTS && Series(metric, d.labels) in universe
    {
      var key := Series(metric, d.labels);
      var r :| r in recs && r.Key() == key;
      InsertAllKeepsOrder([], PointsOf(recs, key));
      SameSize(d.points, PointsOf(recs, key));
      PointsOfHas(recs, r, r.points[0]);
      SameSize(PointsOf(recs, key), d.points);
    }
  }

  /** So can the file that a compaction merges. */
  lemma {:induction false} MergedStored(g: ChunkFile, files: Files, metric: Str, universe: set<Series>)
    requires MergedFile(g, files) && StoredDir(files, metric, universe)
    requires forall labels :: |ColdPoints(files, labels)| <= MAX_POINTS
    ensures StoredFile(g, metric, universe)
  {
    hide RangeIs, Distinct, PointsIn, Ascending;
    assert g.series != [] by { RangeNotEmpty(g.series, g.minTS, g.maxTS); }
    forall d | d in g.series ensures |d.points| <= MAX_POINTS && Series(metric, d.labels) in universe {
      SameSize(d.points, ColdPoints(files, d.labels));
      assert d.points[0] in multiset(d.points);
      assert d.points[0] in ColdPoints(files, d.labels);
      PointsInMember(files, Ascending(files.Keys), d.labels, d.points[0]);
    }
  }

  lemma {:induction false} RangeNotEmpty(series: seq<SeriesData>, minTS: int64, maxTS: int64)
    requires RangeIs(series, minTS, maxTS)
    ensures series != []
  {
  }

  lemma {:induction false} RotateStored(s: Sys, size: nat, s': Sys, universe: set<Series>)
    requires Stored(s, universe) && Next(s, Rotate(size), s')
    ensures Stored(s', universe)
  {
    hide KnownLog, StoredDir, Grow, CanGrow, OpenFile;
    GrowLogs(s, size);
    var t := Grow(s, size);
    OpenKnown(t.wal, s.current + 1, universe);
  }

  lemma {:induction false} OpenStored(s: Sys, s': Sys, universe: set<Series>)
    requires Stored(s, universe) && Next(s, Open, s') && s.phase.Idle?
    ensures Stored(s', universe)
  {
    hide KnownLog, StoredDir, OpenFile, CanReplay, OpenNumber;
    OpenKnown(s.wal, OpenNumber(s.wal), universe);
  }

  lemma {:induction false} WriteChunkStored(s: Sys, metric: Str, files: Files, s': Sys, universe: set<Series>)
    requires Structure(s) && Stored(s, universe) && Next(s, WriteChunk(metric, files), s')
    requires Within(s, WriteChunk(metric, files), universe)
    ensures Stored(s', universe)
  {
    hide KnownLog, Durable, Wellformed, NeverBack, PointsOf, NextNumber, FlushFile, Structure, Metrics, StoredFile;
    WritingOk(s);
    var n := NextNumber(DirOf(s.chunks, metric));
    DurableKnown(s.wal[s.phase.n], universe);
    assert metric in Metrics(s.phase.recs);
    FlushStored(files[n], s.phase.recs, metric, universe);
    assert StoredDir(DirOf(s.chunks, metric), metric, universe);
  }

  lemma {:induction false} WriteMergedStored(s: Sys, s': Sys, universe: set<Series>)
    requires Stored(s, universe) && Next(s, WriteMerged, s') && Within(s, WriteMerged, universe)
    ensures Stored(s', universe)
  {
    hide KnownLog, NextNumber, StoredFile;
    assert StoredDir(s.chunks[s.phase.metric], s.phase.metric, universe);
  }

  lemma {:induction false} RemoveOldStored(s: Sys, k: nat, removes: bool, s': Sys, universe: set<Series>)
    requires Stored(s, universe) && Next(s, RemoveOld(k, removes), s')
    ensures Stored(s', universe)
  {
    hide KnownLog, StoredFile;
    assert StoredDir(s.chunks[s.phase.metric], s.phase.metric, universe);
  }

  /** More bytes of the open segment reach its file, and flags may change. */
  predicate Grows(a: Action) {
    a.Spill? || a.RotateFails? || a.CloseFails? || a.Shutdown?
  }

  /** Segments may go and phases end. */
  predicate Ends(a: Action) {
    a.ReplaySealed? || a.RemoveSealed? || a.FinishCompaction? || a.Fail? || a.Crash?
  }

  lemma {:induction false} GrowStored(s: Sys, a: Action, s': Sys, universe: set<Series>)
    requires Stored(s, universe) && Next(s, a, s') && Grows(a)
    ensures Stored(s', universe)
  {
    hide StoredDir, KnownLog, Grow, CanGrow, StoredFile;
    match a
    case Spill(size) => GrowLogs(s, size);
    case RotateFails(size) => GrowLogs(s, size);
    case CloseFails(size) => GrowLogs(s, size);
    case Shutdown(size) => GrowLogs(s, size);
  }

  lemma {:induction false} FewerStored(s: Sys, s': Sys, universe: set<Series>)
    requires Stored(s, universe) && s'.chunks == s.chunks && !s'.phase.Merging?
    requires forall n :: n in s'.wal ==> n in s.wal && s'.wal[n] == s.wal[n]
    ensures Stored(s', universe)
  {
    hide StoredDir, KnownLog;
  }

  lemma {:induction false} EndStored(s: Sys, a: Action, s': Sys, universe: set<Series>)
    requires Stored(s, universe) && Next(s, a, s') && Ends(a)
    ensures Stored(s', universe)
  {
    hide Stored, CanReplay, ReplayBytes, Metrics, AddedFile, MergedFile, CanGrow, Grow, OpenFile, OpenNumber, Valid,
      NextNumber;
    FewerStored(s, s', universe);
  }

  lemma {:induction false} MergeStored(s: Sys, metric: Str, g: ChunkFile, s': Sys, universe: set<Series>)
    requires Stored(s, universe) && Next(s, Merge(metric, g), s') && Within(s, Merge(metric, g), universe)
    ensures Stored(s', universe)
  {
    hide StoredDir, KnownLog, MergedFile, StoredFile, ColdPoints;
    MergedStored(g, s.chunks[metric], metric, universe);
  }

  lemma {:induction false} AppendStored(s: Sys, e: Entry, s': Sys, universe: set<Series>)
    requires Stored(s, universe) && Next(s, Append(e), s') && Within(s, Append(e), universe)
    ensures Stored(s', universe)
  {
    hide StoredDir, StoredFile, Valid;
  }

  lemma {:induction false} StepStored(s: Sys, a: Action, s': Sys, universe: set<Series>)
    requires Structure(s) && Stored(s, universe) && Next(s, a, s') && Within(s, a, universe)
    ensures Stored(s', universe)
  {
    if a.Open? {
      OpensDown(s, a, s');
    }
    hide Stored, Next, Within, Structure;
    match a
    case Append(e) => AppendStored(s, e, s', universe);
    case Rotate(size) => RotateStored(s, size, s', universe);
    case WriteChunk(metric, files) => WriteChunkStored(s, metric, files, s', universe);
    case Merge(metric, g) => MergeStored(s, metric, g, s', universe);
    case WriteMerged => WriteMergedStored(s, s', universe);
    case RemoveOld(k, removes) => RemoveOldStored(s, k, removes, s', universe);
    case Open => OpenStored(s, s', universe);
    case _ =>
      if Grows(a) {
        GrowStored(s, a, s', universe);
      } else {
        EndStored(s, a, s', universe);
      }
  }

  lemma {:induction false} OpensDown(s: Sys, a: Action, s': Sys)
    requires Structure(s) && Next(s, a, s') && a.Open?
    ensures s.phase.Idle?
  {
    hide AllWellformed, PhaseOk, NeverBack;
  }

  // ---- what is in the segments has been counted ----

  /** Segment files hold no more than what has reached a file. */
  ghost predicate AllReached(s: Sys) {
    forall key :: WalPoints(s.wal, key) <= multiset(PointsOf(s.reached, key))
  }

  lemma {:induction false} GrowReached(s: Sys, size: nat)
    requires Structure(s) && AllReached(s) && (s.open ==> CanGrow(s, size))
    ensures AllReached(Grow(s, size))
    ensures s.reached <= Grow(s, size).reached
  {
    hide Durable, Wellformed, WalPoints, PointsOf, PhaseOk, NeverBack;
    if s.open {
      var seg := s.wal[s.current];
      var seg' := seg.(size := size);
      FlushGrows(seg, size);
      var more := Durable(seg')[|Durable(seg)|..];
      assert Durable(seg') == Durable(seg) + more;
      forall key ensures WalPoints(Grow(s, size).wal, key) <= multiset(PointsOf(Grow(s, size).reached, key)) {
        WalGrows(s.wal, s.current, seg', more, key);
        PointsOfConcat(s.reached, more, key);
      }
    }
  }

  lemma {:induction false} RemoveReached(s: Sys, n: nat)
    requires AllReached(s)
    ensures AllReached(Remove(s, n)) && Remove(s, n).reached == s.reached
  {
    hide WalPoints, PointsOf, SegmentPoints;
    forall key ensures WalPoints(s.wal - {n}, key) <= WalPoints(s.wal, key) {
      if n in s.wal {
        WalSplit(s.wal, n, key);
      } else {
        WalAbsent(s.wal, n);
      }
    }
  }

  lemma {:induction false} AppendReached(s: Sys, e: Entry, s': Sys)
    requires Structure(s) && AllReached(s) && Next(s, Append(e), s')
    ensures AllReached(s')
  {
    hide Durable, Wellformed, WalPoints, PointsOf, PhaseOk, NeverBack, Valid;
    var seg := s.wal[s.current];
    AppendDurable(seg, e);
    forall key ensures WalPoints(s'.wal, key) == WalPoints(s.wal, key) {
      WalSame(s.wal, s.current, seg.(log := seg.log + [e]), key);
    }
  }

  lemma {:induction false} RotateReached(s: Sys, size: nat, s': Sys)
    requires Inv(s) && AllReached(s) && Next(s, Rotate(size), s') && s.current + 1 < NUMBERS
    ensures AllReached(s') && s.reached <= s'.reached
  {
    hide Inv, CanGrow, Grow, WalPoints, PointsOf, Structure;
    RotateKeeps(s, size, s');
    InvStructure(s);
    GrowReached(s, size);
    GrowLogs(s, size);
    var t := Grow(s, size);
    assert s.current + 1 !in t.wal;
    forall key ensures WalPoints(s'.wal, key) == WalPoints(t.wal, key) {
      WalNew(t.wal, s.current + 1, key);
    }
  }

  lemma {:induction false} InvStructure(s: Sys)
    requires Inv(s)
    ensures Structure(s)
  {
    hide Structure, Accounted;
  }

  lemma {:induction false} OpenReached(s: Sys, s': Sys)
    requires AllReached(s) && Next(s, Open, s')
    ensures AllReached(s')
  {
    hide CanReplay, OpenFile, OpenNumber, WalPoints, PointsOf;
    OpenedFile(s, OpenNumber(s.wal));
  }

  /** A step that takes away a segment or none, and counts nothing. */
  lemma {:induction false} FewerReached(s: Sys, n: nat, s': Sys)
    requires AllReached(s) && s'.reached == s.reached && (s'.wal == s.wal || s'.wal == s.wal - {n})
    ensures AllReached(s')
  {
    hide WalPoints, PointsOf;
    if s'.wal == s.wal - {n} {
      RemoveReached(s, n);
    }
  }

  lemma {:induction false} GrowsReached(s: Sys, a: Action, s': Sys)
    requires Structure(s) && AllReached(s) && Next(s, a, s') && Grows(a)
    ensures AllReached(s') && s.reached <= s'.reached
  {
    hide Structure, CanGrow, Grow, AllReached;
    var size := match a
      case Spill(size) => size
      case RotateFails(size) => size
      case CloseFails(size) => size
      case Shutdown(size) => size;
    GrowReached(s, size);
    FewerReached(Grow(s, size), 0, s');
  }

  /** Steps of a flush or compaction, and their end. */
  lemma {:induction false} OtherReached(s: Sys, a: Action, s': Sys)
    requires AllReached(s) && Next(s, a, s')
    requires Ends(a) || a.WriteChunk? || a.Merge? || a.WriteMerged? || a.RemoveOld?
    ensures AllReached(s') && s.reached <= s'.reached
  {
    hide AllReached, WalPoints, PointsOf, CanReplay, ReplayBytes, AddedFile, MergedFile, Metrics;
    var n := if s.phase.Sealed? || s.phase.Writing? then s.phase.n else 0;
    FewerReached(s, n, s');
  }

  /** What has reached a file stays counted, and nothing in a segment is uncounted. */
  lemma {:induction false} StepReached(s: Sys, a: Action, s': Sys, universe: set<Series>)
    requires Inv(s) && AllReached(s) && Next(s, a, s') && Within(s, a, universe)
    ensures AllReached(s') && s.reached <= s'.reached
  {
    InvStructure(s);
    if a.Append? || a.Open? {
      SameReached(s, a, s');
    }
    hide Structure, Inv, Next, AllReached;
    match a
    case Append(e) => AppendReached(s, e, s');
    case Rotate(size) => RotateReached(s, size, s');
    case Open => OpenReached(s, s');
    case _ =>
      if Grows(a) {
        GrowsReached(s, a, s');
      } else {
        OtherReached(s, a, s');
      }
  }

  lemma {:induction false} SameReached(s: Sys, a: Action, s': Sys)
    requires Next(s, a, s') && (a.Append? || a.Open?)
    ensures s'.reached == s.reached
  {
    hide CanReplay, OpenFile, OpenNumber, Valid;
  }

  // ---- runs ----

  ghost predicate IsRun(states: seq<Sys>, actions: seq<Action>, universe: set<Series>) {
    && |states| == |actions| + 1 && Empty(states[0])
    && forall i :: 0 <= i < |actions| ==>
         Next(states[i], actions[i], states[i + 1]) && Within(states[i], actions[i], universe)
  }

  /** What holds in every reachable state. */
  ghost predicate Good(s: Sys, universe: set<Series>) {
    Inv(s) && Stored(s, universe) && AllReached(s)
  }

  lemma {:induction false} EmptyGood(s: Sys, universe: set<Series>)
    requires Empty(s)
    ensures Good(s, universe)
  {
    hide PointsOf, PointsBelow, ChunkPoints;
    forall key ensures multiset(PointsOf(s.reached, key)) <= Held(s, key) && WalPoints(s.wal, key) == multiset{} {
      PointsOfNone(key);
      NoSegments(key);
    }
  }

  lemma {:induction false} StepGood(s: Sys, a: Action, s': Sys, universe: set<Series>)
    requires Good(s, universe) && Next(s, a, s') && Within(s, a, universe)
    ensures Good(s', universe) && s.reached <= s'.reached
  {
    hide Inv, Stored, AllReached, Next, Within, Structure;
    InvStructure(s);
    StepKeeps(s, a, s', universe);
    StepStored(s, a, s', universe);
    StepReached(s, a, s', universe);
  }

  lemma {:induction false} RunGood(states: seq<Sys>, actions: seq<Action>, universe: set<Series>)
    requires IsRun(states, actions, universe)
    ensures forall i :: 0 <= i < |states| ==> Good(states[i], universe)
    decreases |actions|
  {
    hide Good, Next, Within;
    var k := |actions|;
    if k == 0 {
      EmptyGood(states[0], universe);
    } else {
      var most := states[..k];
      assert IsRun(most, actions[..k - 1], universe);
      RunGood(most, actions[..k - 1], universe);
      assert Good(most[k - 1], universe);
      StepGood(states[k - 1], actions[k - 1], states[k], universe);
      forall i | 0 <= i < |states| ensures Good(states[i], universe) {
        if i < k {
          assert most[i] == states[i];
        }
      }
    }
  }

  /** Every chunk file of the state reads back from its bytes as exactly what it holds. */
  ghost predicate ReadsBack(s: Sys) {
    forall m, n :: m in s.chunks && n in s.chunks[m] ==>
      var f := s.chunks[m][n];
      && Readable(ChunkFormat.FileBytes(RecordsOf(f.series, m)))
      && Content(ChunkFormat.FileBytes(RecordsOf(f.series, m))) == f
  }

  lemma {:induction false} GoodReadsBack(s: Sys, universe: set<Series>)
    requires Usable(universe) && Good(s, universe)
    ensures ReadsBack(s)
  {
    hide Usable, StoredFile, Readable, Content, ChunkFormat.FileBytes, KnownLog, Inv, AllReached;
    forall m, n | m in s.chunks && n in s.chunks[m]
      ensures
        var f := s.chunks[m][n];
        && Readable(ChunkFormat.FileBytes(RecordsOf(f.series, m)))
        && Content(ChunkFormat.FileBytes(RecordsOf(f.series, m))) == f
    {
      assert StoredDir(s.chunks[m], m, universe);
      FileReadsBack(s.chunks[m][n], m, universe);
    }
  }

  /** Durability: in every reachable state, whatever interleaving of pushes, flushes,
      compactions, failures, crashes and restarts led to it, every point of every record whose
      bytes reached a segment file is in a segment file or a chunk file, as often as it was
      written; every chunk file can be read; and no removed segment number has come back. */
  lemma {:induction false} NeverLost(states: seq<Sys>, actions: seq<Action>, universe: set<Series>)
    requires Usable(universe) && IsRun(states, actions, universe)
    ensures forall i, key :: 0 <= i < |states| ==>
              multiset(PointsOf(states[i].reached, key)) <= OnDisk(states[i], key)
    ensures forall i :: 0 <= i < |states| ==> ReadsBack(states[i])
    ensures forall i, n :: 0 <= i < |states| && n in states[i].removed ==> n !in states[i].wal
  {
    hide Usable, Good, Next, Within, OnDisk, PointsOf, ReadsBack;
    RunGood(states, actions, universe);
    forall i | 0 <= i < |states| ensures ReadsBack(states[i]) {
      GoodReadsBack(states[i], universe);
    }
    forall i, key | 0 <= i < |states| ensures multiset(PointsOf(states[i].reached, key)) <= OnDisk(states[i], key) {
      GoodOnDisk(states[i], universe, key);
    }
    forall i, n | 0 <= i < |states| && n in states[i].removed ensures n !in states[i].wal {
      GoodRemoved(states[i], universe, n);
    }
  }

  lemma {:induction false} GoodOnDisk(s: Sys, universe: set<Series>, key: Series)
    requires Good(s, universe)
    ensures multiset(PointsOf(s.reached, key)) <= OnDisk(s, key)
  {
    hide Structure, OnDisk, PointsOf, Held, Stored, AllReached;
    HeldOnDisk(s, key);
    assert multiset(PointsOf(s.reached, key)) <= Held(s, key);
  }

  lemma {:induction false} GoodRemoved(s: Sys, universe: set<Series>, n: nat)
    requires Good(s, universe) && n in s.removed
    ensures n !in s.wal
  {
    hide AllWellformed, PhaseOk, Stored, AllReached, Accounted;
  }

  // ---- pushes that were synced ----

  /** Once all of its bytes are in the file, a segment has all records of its log in the file. */
  lemma {:induction false} FullyDurable(seg: Segment)
    requires Wellformed(seg) && seg.size == |LogBytes(seg.log)|
    ensures Durable(seg) == Records(seg.log)
  {
    hide FrameOf, Whole;
    WholeAtEnd(seg.log, |seg.log|);
    EndIsAll(seg.log);
    assert seg.log[..|seg.log|] == seg.log;
  }

  lemma {:induction false} EndIsAll(log: seq<Entry>)
    requires AllValid(log)
    ensures End(log, |log|) == |LogBytes(log)|
  {
    hide LogBytes;
    assert log[..|log|] == log;
  }

  /** What reached a file in some state is counted in every later one. */
  lemma {:induction false} ReachedStays(
    states: seq<Sys>, actions: seq<Action>, universe: set<Series>, j: nat, k: nat)
    requires IsRun(states, actions, universe) && j <= k < |states|
    ensures states[j].reached <= states[k].reached
    decreases k - j
  {
    hide Good, Next, Within;
    if j < k {
      RunGood(states, actions, universe);
      StepGood(states[j], actions[j], states[j + 1], universe);
      ReachedStays(states, actions, universe, j + 1, k);
    }
  }

  lemma {:induction false} PrefixPoints(a: seq<Record>, b: seq<Record>, key: Series)
    requires a <= b
    ensures multiset(PointsOf(a, key)) <= multiset(PointsOf(b, key))
  {
    hide PointsOf;
    assert b == a + b[|a|..];
    PointsOfConcat(a, b[|a|..], key);
  }

  /** All points of a fully synced open segment are counted. */
  lemma {:induction false} SyncedCounted(s: Sys, universe: set<Series>, key: Series)
    requires Good(s, universe) && s.current in s.wal && Wellformed(s.wal[s.current])
    requires s.wal[s.current].size == |LogBytes(s.wal[s.current].log)|
    ensures multiset(PointsOf(Records(s.wal[s.current].log), key)) <= multiset(PointsOf(s.reached, key))
  {
    hide Inv, Stored, Durable, Wellformed, PointsOf, WalPoints, LogBytes, Records;
    FullyDurable(s.wal[s.current]);
    WalSplit(s.wal, s.current, key);
    assert WalPoints(s.wal, key) <= multiset(PointsOf(s.reached, key));
  }

  /** The step brings all bytes of the write buffer to the file of the open segment. */
  ghost predicate SyncsAll(s: Sys, a: Action) {
    s.current in s.wal && AllValid(s.wal[s.current].log) && a == Spill(|LogBytes(s.wal[s.current].log)|)
  }

  /** After a sync of the whole write buffer, every point pushed to the open segment is on disk in
      every later state, as often as it was pushed: flushes, compactions, failures, crashes and
      restarts may follow. */
  lemma {:induction false} SyncedStays(
    states: seq<Sys>, actions: seq<Action>, universe: set<Series>, j: nat, k: nat, key: Series)
    requires Usable(universe) && IsRun(states, actions, universe) && j < k < |states|
    requires SyncsAll(states[j], actions[j])
    ensures multiset(PointsOf(Records(states[j].wal[states[j].current].log), key)) <= OnDisk(states[k], key)
  {
    hide Usable, Good, Within, PointsOf, OnDisk, LogBytes, Records;
    RunGood(states, actions, universe);
    var s, s' := states[j], states[j + 1];
    SpillAll(s, |LogBytes(s.wal[s.current].log)|, s');
    SyncedCounted(s', universe, key);
    ReachedStays(states, actions, universe, j + 1, k);
    PrefixPoints(s'.reached, states[k].reached, key);
    GoodOnDisk(states[k], universe, key);
  }

  lemma {:induction false} SpillAll(s: Sys, size: nat, s': Sys)
    requires Next(s, Spill(size), s')
    ensures s'.current == s.current && s'.current in s'.wal && s.current in s.wal && Wellformed(s'.wal[s'.current])
    ensures s'.wal[s'.current].log == s.wal[s.current].log && s'.wal[s'.current].size == size
  {
    hide Durable;
  }

  /** Steps during which the open segment stays the same. */
  predicate SameSegment(a: Action) {
    match a
    case Rotate(_) => false
    case RotateFails(_) => false
    case CloseFails(_) => false
    case Shutdown(_) => false
    case Crash => false
    case Open => false
    case _ => true
  }

  lemma {:induction false} StillLogged(
    states: seq<Sys>, actions: seq<Action>, universe: set<Series>, i: nat, j: nat, e: Entry)
    requires IsRun(states, actions, universe) && i < j < |states| && actions[i] == Append(e)
    requires forall h :: i < h < j ==> SameSegment(actions[h])
    ensures states[j].current in states[j].wal && e in states[j].wal[states[j].current].log
    decreases j
  {
    hide Within, Structure, Accounted, Stored, AllReached, Next, SameSegment;
    RunGood(states, actions, universe);
    var s, s' := states[j - 1], states[j];
    assert Good(s, universe) && Next(s, actions[j - 1], s');
    if j == i + 1 {
      JustLogged(s, e, s');
    } else {
      StillLogged(states, actions, universe, i, j - 1, e);
      StepLogged(s, actions[j - 1], s', e);
    }
  }

  lemma {:induction false} JustLogged(s: Sys, e: Entry, s': Sys)
    requires Next(s, Append(e), s')
    ensures s'.current in s'.wal && e in s'.wal[s'.current].log
  {
    hide Valid;
  }

  lemma {:induction false} StepLogged(s: Sys, a: Action, s': Sys, e: Entry)
    requires Structure(s) && Next(s, a, s') && SameSegment(a)
    requires s.current in s.wal && e in s.wal[s.current].log
    ensures s'.current in s'.wal && e in s'.wal[s'.current].log
  {
    hide Durable, Wellformed, CanReplay, ReplayBytes, AddedFile, MergedFile, NeverBack;
    if a.Spill? {
      GrowLogs(s, a.size);
    }
  }

  /** A push is on disk in every state after a sync of the whole write buffer that follows it in
      the same segment. */
  lemma {:induction false} PushSynced(
    states: seq<Sys>, actions: seq<Action>, universe: set<Series>, i: nat, j: nat, k: nat, e: Entry)
    requires Usable(universe) && IsRun(states, actions, universe) && i < j < k < |states|
    requires actions[i] == Append(e) && forall h :: i < h < j ==> SameSegment(actions[h])
    requires SyncsAll(states[j], actions[j])
    ensures multiset(e.rec.points) <= OnDisk(states[k], e.rec.Key())
  {
    hide Usable, Next, Within, PointsOf, OnDisk, LogBytes;
    StillLogged(states, actions, universe, i, j, e);
    var log := states[j].wal[states[j].current].log;
    SyncedStays(states, actions, universe, j, k, e.rec.Key());
    var n :| 0 <= n < |log| && log[n] == e;
    OwnPoints(Records(log), n);
  }

  lemma {:induction false} OwnPoints(recs: seq<Record>, n: nat)
    requires n < |recs|
    ensures multiset(recs[n].points) <= multiset(PointsOf(recs, recs[n].Key()))
  {
    hide PointsOf;
    var key := recs[n].Key();
    assert recs == recs[..n] + ([recs[n]] + recs[n + 1..]);
    PointsOfConcat(recs[..n], [recs[n]] + recs[n + 1..], key);
    PointsOfConcat([recs[n]], recs[n + 1..], key);
    PointsOfOne(recs[n], key);
  }

  // ---- what is not promised ----

  /** A push that returned is not yet durable: its record may still be in the write buffer, and
      a crash then leaves none of it on disk. */
  lemma {:induction false} AcknowledgedLost(e: Entry, universe: set<Series>) returns (states: seq<Sys>)
    requires Valid(e) && e.rec.Key() in universe && e.rec.points != []
    ensures IsRun(states, [Open, Append(e), Crash], universe)
    ensures OnDisk(states[3], e.rec.Key()) == multiset{}
  {
    hide Next, OnDisk;
    var s0 := Sys(map[], map[], false, false, 0, Idle, [], {});
    var s1 := s0.(wal := map[1 := Segment([], 0)], up := true, open := true, current := 1);
    var s2 := s1.(wal := map[1 := Segment([e], 0)]);
    var s3 := s2.(up := false, open := false);
    FirstOpen(s0, s1);
    FirstAppend(s1, e, s2);
    ThenCrash(s2, s3);
    NothingOnDisk(s3, e);
    states := [s0, s1, s2, s3];
  }

  lemma {:induction false} ThenCrash(s: Sys, s': Sys)
    requires s.up && s.phase.Idle? && s' == s.(up := false, open := false)
    ensures Next(s, Crash, s')
  {
  }

  lemma {:induction false} FirstOpen(s: Sys, s': Sys)
    requires Empty(s) && s' == s.(wal := map[1 := Segment([], 0)], up := true, open := true, current := 1)
    ensures Next(s, Open, s')
  {
    hide Wellformed, Reopened;
    assert s.wal.Keys == {};
  }

  lemma {:induction false} FirstAppend(s: Sys, e: Entry, s': Sys)
    requires s.up && s.open && s.current == 1 && s.wal == map[1 := Segment([], 0)] && Valid(e)
    requires s' == s.(wal := map[1 := Segment([e], 0)])
    ensures Next(s, Append(e), s')
  {
    hide Valid;
    assert [] + [e] == [e];
  }

  lemma {:induction false} NothingOnDisk(s: Sys, e: Entry)
    requires Valid(e) && s.wal == map[1 := Segment([e], 0)] && s.chunks == map[]
    ensures OnDisk(s, e.rec.Key()) == multiset{}
  {
    hide FrameOf, PointsOf, WalPoints, ColdPoints;
    var key := e.rec.Key();
    NewSegment();
    AppendDurable(Segment([], 0), e);
    assert [] + [e] == [e];
    PointsOfNone(key);
    ColdNone(key.labels);
    WalSplit(s.wal, 1, key);
    assert s.wal - {1} == map[];
    NoSegments(key);
  }

  lemma {:induction false} NoSegments(key: Series)
    ensures WalPoints(map[], key) == multiset{}
  {
    var none: map<nat, Segment> := map[];
    assert none.Keys == {};
  }
}
