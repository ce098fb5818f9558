/** What a flush and a compaction do when nothing interrupts them, and that anything may: the
    counterpart of durability, which alone would hold of a loop that does nothing. */
module DurableFlush {
  import opened Words
  import opened Model
  import opened Points
  import opened WalFormat
  import opened SegmentFile
  import opened EngineState
  import opened EngineLemmas
  import opened EngineInvariant
  import opened DiskContent
  import opened ChunkFormat
  import opened Durability

  // ---- there is a file for every metric of the records ----

  /** One record for each series of the metric, with its points from all records inserted. */
  ghost function SeriesOf(recs: seq<Record>, all: seq<Record>, metric: Str): seq<Record> {
    if recs == [] then []
    else
      var before, rec := SeriesOf(recs[..|recs| - 1], all, metric), recs[|recs| - 1];
      if rec.metric != metric || Mentions(before, rec.Key()) then before
      else before + [Record(metric, rec.labels, InsertAll([], PointsOf(all, rec.Key())))]
  }

  lemma {:induction false} SeriesOfExactly(recs: seq<Record>, all: seq<Record>, metric: Str)
    ensures
      var series := SeriesOf(recs, all, metric);
      && DistinctKeys(series)
      && (forall s :: s in series ==>
            s.metric == metric && Mentions(recs, s.Key()) && s.points == InsertAll([], PointsOf(all, s.Key())))
      && (forall rec :: rec in recs && rec.metric == metric ==> Mentions(series, rec.Key()))
    decreases recs
  {
    hide PointsOf, InsertAll;
    if recs != [] {
      var most, rec := recs[..|recs| - 1], recs[|recs| - 1];
      SeriesOfExactly(most, all, metric);
      var before, series := SeriesOf(most, all, metric), SeriesOf(recs, all, metric);
      assert rec in recs && forall r :: r in most ==> r in recs;
      forall r | r in recs && r.metric == metric ensures Mentions(series, r.Key()) {
        if r in most {
          var s :| s in before && s.Key() == r.Key();
          assert s in series;
        } else if !Mentions(before, r.Key()) {
          assert series[|series| - 1] in series && series[|series| - 1].Key() == r.Key();
        }
      }
      forall i, j | 0 <= i < j < |series| ensures series[i].Key() != series[j].Key() {
        if j == |before| {
          assert before[i] in before;
        }
      }
    }
  }

  lemma {:induction false} PointsThere(recs: seq<Record>, key: Series)
    requires Mentions(recs, key) && forall rec :: rec in recs ==> rec.points != []
    ensures InsertAll([], PointsOf(recs, key)) != []
  {
    hide InsertAll, PointsOf;
    var rec :| rec in recs && rec.Key() == key;
    PointsOfHas(recs, rec, rec.points[0]);
    NoneSorted();
    InsertAllKeepsOrder([], PointsOf(recs, key));
    assert rec.points[0] in multiset(PointsOf(recs, key));
    assert rec.points[0] in multiset(InsertAll([], PointsOf(recs, key)));
  }

  /** The file that a flush writes for a metric exists. */
  lemma {:induction false} FileExists(recs: seq<Record>, metric: Str) returns (f: ChunkFile)
    requires HasMetric(recs, metric) && forall rec :: rec in recs ==> rec.points != []
    ensures FlushFile(f, recs, metric)
  {
    hide InsertAll, PointsOf, RangeIs, Distinct, SeriesOf, DistinctKeys, MinTS, MaxTS;
    var series := SeriesOf(recs, recs, metric);
    SeriesOfExactly(recs, recs, metric);
    forall s | s in series ensures s.points != [] {
      PointsThere(recs, s.Key());
    }
    var first :| first in recs && first.metric == metric;
    assert Mentions(series, first.Key());
    ContentGood(series, metric);
    DataMembers(series);
    f := ContentOf(series);
    forall d | d in f.series
      ensures
        var key := Series(metric, d.labels);
        Mentions(recs, key) && d.points == InsertAll([], PointsOf(recs, key))
    {
      var i :| 0 <= i < |series| && f.series[i] == d;
      assert series[i] in series && series[i].Key() == Series(metric, d.labels);
    }
    forall rec | rec in recs && rec.metric == metric ensures exists d :: d in f.series && d.labels == rec.labels {
      var s :| s in series && s.Key() == rec.Key();
      var i :| 0 <= i < |series| && series[i] == s;
      assert f.series[i] in f.series && f.series[i].labels == rec.labels;
    }
  }

  // ---- a flush that is not interrupted ----

  ghost predicate Path(states: seq<Sys>, actions: seq<Action>) {
    |states| == |actions| + 1 && forall i :: 0 <= i < |actions| ==> Next(states[i], actions[i], states[i + 1])
  }

  /** The records of a sealed segment that replays. */
  ghost function SealedRecords(s: Sys): seq<Record>
    requires s.phase.Sealed? && s.phase.n in s.wal && CanReplay(s.wal[s.phase.n])
  {
    ReplayBytes(Bytes(s.wal[s.phase.n])).value
  }

  /** A segment is sealed that replays to some records, and the next one is open. */
  ghost predicate FlushDue(s: Sys) {
    && s.up && s.phase.Sealed? && s.phase.n < s.current && s.phase.n in s.wal && CanReplay(s.wal[s.phase.n])
    && SealedRecords(s) != [] && forall rec :: rec in SealedRecords(s) ==> rec.points != []
  }

  /** How far the flush of segment n, begun in state s, has come: the points of a metric are in
      its files once the metric is written, and the segment goes when all are. */
  ghost predicate Reaches(s: Sys, n: nat, recs: seq<Record>, t: Sys) {
    && t.up && n < t.current
    && match t.phase
       case Sealed(m) => m == n && n in t.wal && n in s.wal && t.wal[n] == s.wal[n] && t.chunks == s.chunks
       case Writing(m, r, todo) =>
         && m == n && r == recs && todo <= Metrics(recs)
         && forall key :: ChunkPoints(t.chunks, key)
              == ChunkPoints(s.chunks, key) + if key.metric in todo then multiset{} else multiset(PointsOf(recs, key))
       case Idle =>
         && n !in t.wal
         && forall key :: ChunkPoints(t.chunks, key) == ChunkPoints(s.chunks, key) + multiset(PointsOf(recs, key))
       case _ => false
  }

  lemma {:induction false} ReplayReaches(s: Sys, recs: seq<Record>, t: Sys, removes: bool, t': Sys)
    requires FlushDue(s) && recs == SealedRecords(s) && Reaches(s, s.phase.n, recs, t)
    requires Next(t, ReplaySealed(removes), t')
    ensures Reaches(s, s.phase.n, recs, t')
  {
    hide ReplayBytes, Wellformed, PointsOf, ColdPoints, Metrics;
    forall key: Series ensures key.metric !in Metrics(recs) ==> PointsOf(recs, key) == [] {
      if key.metric !in Metrics(recs) {
        UnknownMetric(recs, key);
      }
    }
  }

  lemma {:induction false} WriteReaches(
    s: Sys, n: nat, recs: seq<Record>, t: Sys, metric: Str, files: Files, t': Sys)
    requires Reaches(s, n, recs, t) && Next(t, WriteChunk(metric, files), t')
    ensures Reaches(s, n, recs, t')
  {
    hide Next, PointsOf, AddedFile, Metrics, ChunkPoints;
    WriteEffect(t, metric, files, t');
    var todo := t.phase.todo;
    forall key
      ensures ChunkPoints(t'.chunks, key)
           == ChunkPoints(s.chunks, key)
              + if key.metric in todo - {metric} then multiset{} else multiset(PointsOf(recs, key))
    {
      WrittenPoints(t, metric, files, key);
    }
  }

  lemma {:induction false} WriteEffect(t: Sys, metric: Str, files: Files, t': Sys)
    requires Next(t, WriteChunk(metric, files), t')
    ensures t.phase.Writing? && metric in t.phase.todo
    ensures AddedFile(DirOf(t.chunks, metric), t.phase.recs, metric, files)
    ensures t' == t.(chunks := t.chunks[metric := files], phase := t.phase.(todo := t.phase.todo - {metric}))
  {
    hide AddedFile;
  }

  lemma {:induction false} WrittenPoints(t: Sys, metric: Str, files: Files, key: Series)
    requires t.phase.Writing? && AddedFile(DirOf(t.chunks, metric), t.phase.recs, metric, files)
    ensures ChunkPoints(t.chunks[metric := files], key)
         == ChunkPoints(t.chunks, key)
            + if key.metric == metric then multiset(PointsOf(t.phase.recs, key)) else multiset{}
  {
    hide PointsOf, ColdPoints, AddedFile;
    if key.metric == metric {
      AddedPoints(DirOf(t.chunks, metric), t.phase.recs, metric, files, key);
    }
  }

  lemma {:induction false} OtherReaches(s: Sys, n: nat, recs: seq<Record>, t: Sys, a: Action, t': Sys)
    requires Reaches(s, n, recs, t) && !t.phase.Idle? && Next(t, a, t') && (a.Append? || a.Spill? || a.RemoveSealed?)
    ensures Reaches(s, n, recs, t')
  {
    hide PointsOf, ColdPoints, Wellformed, Durable, Metrics, ChunkPoints;
  }

  /** Pushers may go on writing while a flush is under way: until it fails or crashes, each point
      of the sealed segment is in the chunk files once its metric is written, as often as it was
      pushed, and at the end the segment is gone and all its points are there. */
  lemma {:induction false} FlushMoves(states: seq<Sys>, actions: seq<Action>)
    requires Path(states, actions) && FlushDue(states[0])
    requires forall i :: 0 <= i < |actions| ==> !states[i].phase.Idle? && !actions[i].Fail? && !actions[i].Crash?
    ensures Reaches(states[0], states[0].phase.n, SealedRecords(states[0]), states[|actions|])
    decreases |actions|
  {
    hide Next, Reaches, CanReplay, ReplayBytes;
    var s, k := states[0], |actions|;
    if k == 0 {
      StartReaches(s);
    } else {
      FlushMoves(states[..k], actions[..k - 1]);
      assert Next(states[k - 1], actions[k - 1], states[k]);
      MoveReaches(s, SealedRecords(s), states[k - 1], actions[k - 1], states[k]);
    }
  }

  lemma {:induction false} StartReaches(s: Sys)
    requires FlushDue(s)
    ensures s.phase.Sealed? && Reaches(s, s.phase.n, SealedRecords(s), s)
  {
  }

  lemma {:induction false} MoveReaches(s: Sys, recs: seq<Record>, t: Sys, a: Action, t': Sys)
    requires FlushDue(s) && recs == SealedRecords(s) && Reaches(s, s.phase.n, recs, t) && Next(t, a, t')
    requires !t.phase.Idle? && !a.Fail? && !a.Crash?
    ensures Reaches(s, s.phase.n, recs, t')
  {
    OnlyThese(s, recs, t, a, t');
    hide Next, Reaches, FlushDue, SealedRecords;
    if a.ReplaySealed? {
      ReplayReaches(s, recs, t, a.removes, t');
    } else if a.WriteChunk? {
      WriteReaches(s, s.phase.n, recs, t, a.metric, a.files, t');
    } else {
      OtherReaches(s, s.phase.n, recs, t, a, t');
    }
  }

  lemma {:induction false} OnlyThese(s: Sys, recs: seq<Record>, t: Sys, a: Action, t': Sys)
    requires FlushDue(s) && recs == SealedRecords(s) && Reaches(s, s.phase.n, recs, t) && Next(t, a, t')
    requires !t.phase.Idle? && !a.Fail? && !a.Crash?
    ensures a.ReplaySealed? || a.WriteChunk? || a.Append? || a.Spill? || a.RemoveSealed?
    ensures s.phase.Sealed?
  {
    hide PointsOf, ColdPoints, Wellformed, Durable, Metrics, ChunkPoints, AddedFile, MergedFile, CanReplay;
  }

  // ---- every flush and every compaction can be finished ----

  /** A path on which the loop is busy until the end, and neither fails nor crashes. */
  ghost predicate Finishes(states: seq<Sys>, actions: seq<Action>, s: Sys) {
    && Path(states, actions) && states[0] == s && states[|actions|].phase.Idle?
    && forall i :: 0 <= i < |actions| ==> !states[i].phase.Idle? && !actions[i].Fail? && !actions[i].Crash?
  }

  lemma {:induction false} OneMore(s: Sys, a: Action, states: seq<Sys>, actions: seq<Action>)
    requires states != [] && Finishes(states, actions, states[0]) && Next(s, a, states[0])
    requires !s.phase.Idle? && !a.Fail? && !a.Crash?
    ensures Finishes([s] + states, [a] + actions, s)
  {
    hide Next;
    var all, steps := [s] + states, [a] + actions;
    forall i | 0 <= i < |steps|
      ensures Next(all[i], steps[i], all[i + 1]) && !all[i].phase.Idle? && !steps[i].Fail? && !steps[i].Crash?
    {
      if i > 0 {
        assert all[i] == states[i - 1] && all[i + 1] == states[i] && steps[i] == actions[i - 1];
      }
    }
    assert all[|steps|] == states[|actions|];
  }

  lemma {:induction false} LastStep(s: Sys, a: Action, s': Sys)
    requires Next(s, a, s') && s'.phase.Idle? && !s.phase.Idle? && !a.Fail? && !a.Crash?
    ensures Finishes([s, s'], [a], s)
  {
    hide Next;
  }

  lemma {:induction false} WriteCan(t: Sys, metric: Str) returns (files: Files, t': Sys)
    requires t.phase.Writing? && metric in t.phase.todo && t.phase.todo <= Metrics(t.phase.recs)
    requires forall rec :: rec in t.phase.recs ==> rec.points != []
    ensures Next(t, WriteChunk(metric, files), t')
    ensures t'.phase == t.phase.(todo := t.phase.todo - {metric})
  {
    hide FlushFile;
    var rec :| rec in t.phase.recs && rec.metric == metric;
    assert HasMetric(t.phase.recs, metric);
    var f := FileExists(t.phase.recs, metric);
    var was := DirOf(t.chunks, metric);
    files := was[NextNumber(was) := f];
    t' := t.(chunks := t.chunks[metric := files], phase := t.phase.(todo := t.phase.todo - {metric}));
  }

  lemma {:induction false} WritingCanFinish(t: Sys) returns (states: seq<Sys>, actions: seq<Action>)
    requires t.phase.Writing? && t.phase.todo <= Metrics(t.phase.recs)
    requires forall rec :: rec in t.phase.recs ==> rec.points != []
    ensures Finishes(states, actions, t)
    decreases |t.phase.todo|
  {
    hide Next, Finishes, Metrics;
    if t.phase.todo == {} {
      var t' := Removed(t);
      LastStep(t, RemoveSealed, t');
      states, actions := [t, t'], [RemoveSealed];
    } else {
      var metric :| metric in t.phase.todo;
      var files, t' := WriteCan(t, metric);
      states, actions := WritingCanFinish(t');
      assert states != [] && states[0] == t' by { Begins(states, actions, t'); }
      OneMore(t, WriteChunk(metric, files), states, actions);
      states, actions := [t] + states, [WriteChunk(metric, files)] + actions;
    }
  }

  lemma {:induction false} Begins(states: seq<Sys>, actions: seq<Action>, s: Sys)
    requires Finishes(states, actions, s)
    ensures states != [] && states[0] == s
  {
  }

  lemma {:induction false} Removed(t: Sys) returns (t': Sys)
    requires t.phase.Writing? && t.phase.todo == {}
    ensures Next(t, RemoveSealed, t') && t'.phase.Idle?
  {
    t' := Remove(t, t.phase.n).(phase := Idle);
  }

  lemma {:induction false} Replayed(s: Sys) returns (t: Sys)
    requires FlushDue(s)
    ensures Next(s, ReplaySealed(true), t)
    ensures t.phase == Writing(s.phase.n, SealedRecords(s), Metrics(SealedRecords(s)))
  {
    hide ReplayBytes, Wellformed;
    t := s.(phase := Writing(s.phase.n, SealedRecords(s), Metrics(SealedRecords(s))));
  }

  /** Every flush that is due can be carried through: its segment then is gone and all its points
      are in chunk files. */
  lemma {:induction false} FlushCanFinish(s: Sys) returns (states: seq<Sys>, actions: seq<Action>)
    requires FlushDue(s)
    ensures Finishes(states, actions, s)
    ensures
      var t := states[|actions|];
      && s.phase.n !in t.wal
      && forall key :: ChunkPoints(t.chunks, key)
           == ChunkPoints(s.chunks, key) + multiset(PointsOf(SealedRecords(s), key))
  {
    hide Next, Metrics, ChunkPoints, PointsOf, CanReplay, ReplayBytes;
    var t := Replayed(s);
    states, actions := WritingCanFinish(t);
    OneMore(s, ReplaySealed(true), states, actions);
    states, actions := [s] + states, [ReplaySealed(true)] + actions;
    FlushMoves(states, actions);
  }

  /** Every compaction that has begun to merge can be carried through: its directory then has
      exactly the merged file. */
  lemma {:induction false} CompactionCanFinish(s: Sys) returns (states: seq<Sys>, actions: seq<Action>)
    requires s.phase.Merging? && s.phase.metric in s.chunks
    ensures Finishes(states, actions, s)
    ensures
      var files := s.chunks[s.phase.metric];
      states[|actions|] == s.(chunks := s.chunks[s.phase.metric := map[NextNumber(files) := s.phase.g]], phase := Idle)
  {
    hide Finishes, NextNumber;
    var metric, files := s.phase.metric, s.chunks[s.phase.metric];
    NextNumberNew(files);
    var t := s.(chunks := s.chunks[metric := files[NextNumber(files) := s.phase.g]],
                phase := Deleting(metric, files.Keys));
    assert Next(s, WriteMerged, t);
    states, actions := DeletingCanFinish(t);
    assert states != [] && states[0] == t by { Begins(states, actions, t); }
    OneMore(s, WriteMerged, states, actions);
    assert ([s] + states)[|[WriteMerged] + actions|] == states[|actions|];
    assert files[NextNumber(files) := s.phase.g] - files.Keys == map[NextNumber(files) := s.phase.g];
    states, actions := [s] + states, [WriteMerged] + actions;
  }

  lemma {:induction false} NextNumberNew(files: Files)
    ensures NextNumber(files) !in files
  {
  }

  lemma {:induction false} DeletingCanFinish(t: Sys) returns (states: seq<Sys>, actions: seq<Action>)
    requires t.phase.Deleting? && t.phase.metric in t.chunks
    ensures Finishes(states, actions, t) && |states| == |actions| + 1
    ensures states[|actions|]
         == t.(chunks := t.chunks[t.phase.metric := t.chunks[t.phase.metric] - t.phase.left], phase := Idle)
    decreases |t.phase.left|
  {
    hide Finishes;
    var metric, files, left := t.phase.metric, t.chunks[t.phase.metric], t.phase.left;
    if left == {} {
      var t' := t.(phase := Idle);
      assert Next(t, FinishCompaction, t');
      LastStep(t, FinishCompaction, t');
      assert files - left == files && t.chunks[metric := files] == t.chunks;
      states, actions := [t, t'], [FinishCompaction];
    } else {
      var k :| k in left;
      var t' := t.(chunks := t.chunks[metric := files - {k}], phase := Deleting(metric, left - {k}));
      assert Next(t, RemoveOld(k, true), t');
      states, actions := DeletingCanFinish(t');
      Begins(states, actions, t');
      OneMore(t, RemoveOld(k, true), states, actions);
      assert files - {k} - (left - {k}) == files - left;
      assert ([t] + states)[|[RemoveOld(k, true)] + actions|] == states[|actions|];
      states, actions := [t] + states, [RemoveOld(k, true)] + actions;
    }
  }

  // ---- flushes come due, and what stopped can be opened ----

  /** An idle loop can rotate; when the whole write buffer reaches the file first, as a rotation
      has it, the sealed segment has every record that was written to it, and its flush is due. */
  lemma {:induction false} RotateDue(s: Sys) returns (size: nat, t: Sys)
    requires s.up && s.phase.Idle? && s.open && s.current in s.wal && Wellformed(s.wal[s.current])
    requires s.wal[s.current].log != []
    requires forall e :: e in s.wal[s.current].log ==> e.rec.points != []
    ensures Next(s, Rotate(size), t) && t.current == s.current + 1
    ensures FlushDue(t) && t.phase.n == s.current && SealedRecords(t) == Records(s.wal[s.current].log)
  {
    hide Next, Records, LogBytes, Valid, ReplayBytes;
    var seg := s.wal[s.current];
    WholeFile(seg);
    size := |LogBytes(seg.log)|;
    t := RotateFully(s, size);
    SealedWhole(t, s.current, seg);
  }

  lemma {:induction false} WholeFile(seg: Segment)
    requires Wellformed(seg)
    ensures seg.size <= |LogBytes(seg.log)| && Wellformed(seg.(size := |LogBytes(seg.log)|))
    ensures Bytes(seg.(size := |LogBytes(seg.log)|)) == LogBytes(seg.log)
    ensures ReplayBytes(LogBytes(seg.log)) == Ok(Records(seg.log))
  {
    hide LogBytes, ReplayBytes, Records, Valid;
    ReplayExact(seg.log);
  }

  lemma {:induction false} RotateFully(s: Sys, size: nat) returns (t: Sys)
    requires s.up && s.phase.Idle? && s.open && CanGrow(s, size)
    ensures Next(s, Rotate(size), t) && t.up && t.current == s.current + 1 && t.phase == Sealed(s.current)
    ensures s.current in t.wal && t.wal[s.current] == s.wal[s.current].(size := size)
  {
    hide Durable, LogBytes, Wellformed;
    var g := Grow(s, size);
    t := g.(wal := g.wal[s.current + 1 := OpenFile(g.wal, s.current + 1)], current := s.current + 1, open := true,
            phase := Sealed(s.current));
  }

  lemma {:induction false} SealedWhole(t: Sys, n: nat, seg: Segment)
    requires t.up && t.phase == Sealed(n) && n < t.current && n in t.wal
    requires Wellformed(seg) && seg.log != [] && forall e :: e in seg.log ==> e.rec.points != []
    requires t.wal[n] == seg.(size := |LogBytes(seg.log)|)
    ensures FlushDue(t) && SealedRecords(t) == Records(seg.log)
  {
    hide ReplayBytes, LogBytes, Wellformed;
    WholeFile(seg);
    var recs := Records(seg.log);
    forall rec | rec in recs ensures rec.points != [] {
      var i :| 0 <= i < |recs| && recs[i] == rec;
      assert seg.log[i] in seg.log;
    }
  }

  /** After a stop or a crash the database opens if and only if every segment replays. */
  lemma {:induction false} OpensExactly(s: Sys)
    requires !s.up
    ensures (exists t :: Next(s, Open, t)) <==> forall n :: n in s.wal ==> CanReplay(s.wal[n])
    ensures forall t :: Next(s, Open, t) ==> t.up && t.open && t.current in t.wal && t.chunks == s.chunks
  {
    hide Wellformed, ReplayBytes;
    if forall n :: n in s.wal ==> CanReplay(s.wal[n]) {
      var n := OpenNumber(s.wal);
      assert Next(s, Open, s.(wal := s.wal[n := OpenFile(s.wal, n)], up := true, open := true, current := n));
    }
  }

  // ---- everything may happen at any moment ----

  /** Whatever the background loop is doing, the process can crash, the loop can fail, a pusher
      can write, and bytes of the open segment can reach its file. */
  lemma {:induction false} AnyMoment(s: Sys, e: Entry, size: nat)
    ensures s.up ==> exists t :: Next(s, Crash, t) && !t.up && !t.open && t.wal == s.wal && t.chunks == s.chunks
    ensures !s.phase.Idle? ==> exists t :: Next(s, Fail, t) && t.phase.Idle? && t.wal == s.wal && t.chunks == s.chunks
    ensures s.up && s.open && s.current in s.wal && Valid(e) ==>
              exists t :: Next(s, Append(e), t)
                && t.current in t.wal && t.wal[t.current].log == s.wal[s.current].log + [e]
    ensures s.up && CanGrow(s, size) ==>
              exists t :: Next(s, Spill(size), t) && t.current in t.wal && t.wal[t.current].size == size
  {
    hide Valid, Durable, Wellformed;
    if s.up {
      assert Next(s, Crash, s.(up := false, open := false, phase := Idle));
    }
    if !s.phase.Idle? {
      assert Next(s, Fail, s.(phase := Idle));
    }
    if s.up && s.open && s.current in s.wal && Valid(e) {
      var seg := s.wal[s.current];
      assert Next(s, Append(e), s.(wal := s.wal[s.current := seg.(log := seg.log + [e])]));
    }
    if s.up && CanGrow(s, size) {
      assert Next(s, Spill(size), Grow(s, size));
    }
  }
}
