/** What is on disk while pushers, a flusher, a compactor, failures and crashes interleave. */
module Durability {
  import opened Words
  import opened Model
  import opened Points
  import opened WalFormat
  import opened SegmentFile
  import opened EngineState
  import opened EngineLemmas
  import opened EngineInvariant
  import opened EngineMaintenance
  import opened Names
  import opened DiskContent
  import ChunkStore

  // ---- the system ----

  /** Where the background loop is in a flush or a compaction. */
  datatype Phase =
    | Idle
    | Sealed(n: nat)
    | Writing(n: nat, recs: seq<Record>, todo: set<Str>)
    | Merging(metric: Str, g: ChunkFile)
    | Deleting(metric: Str, left: set<nat>)

  /** The disk, the running process, and two histories: the records whose bytes have reached a
      segment file, and the numbers of the segments that were removed. */
  datatype Sys = Sys(
    wal: map<nat, Segment>,
    chunks: map<Str, Files>,
    up: bool,
    open: bool,
    current: nat,
    phase: Phase,
    reached: seq<Record>,
    removed: set<nat>)

  datatype Action =
    | Append(e: Entry)
    | Spill(size: nat)
    | Rotate(size: nat)
    | RotateFails(size: nat)
    | CloseFails(size: nat)
    | ReplaySealed(removes: bool)
    | WriteChunk(metric: Str, files: Files)
    | RemoveSealed
    | Merge(metric: Str, g: ChunkFile)
    | WriteMerged
    | RemoveOld(k: nat, removes: bool)
    | FinishCompaction
    | Fail
    | Shutdown(size: nat)
    | Crash
    | Open

  /** The open segment can grow to this many bytes on disk. */
  ghost predicate CanGrow(s: Sys, size: nat) {
    && s.open && s.current in s.wal && Wellformed(s.wal[s.current])
    && s.wal[s.current].size <= size <= |LogBytes(s.wal[s.current].log)|
  }

  /** More bytes of the open segment reach the file, when it is open. */
  ghost function Grow(s: Sys, size: nat): Sys
    requires s.open ==> CanGrow(s, size)
  {
    if !s.open then s
    else
      var seg := s.wal[s.current];
      var seg' := seg.(size := size);
      FlushGrows(seg, size);
      s.(wal := s.wal[s.current := seg'], reached := s.reached + Durable(seg')[|Durable(seg)|..])
  }

  /** The file of a number opened for appending. */
  ghost function OpenFile(wal: map<nat, Segment>, n: nat): Segment {
    if n in wal then (if Wellformed(wal[n]) then Reopened(wal[n]) else wal[n]) else Segment([], 0)
  }

  ghost predicate CanReplay(seg: Segment) {
    Wellformed(seg) && ReplayBytes(Bytes(seg)).Ok?
  }

  function Metrics(recs: seq<Record>): set<Str> {
    set rec | rec in recs :: rec.metric
  }

  ghost function Remove(s: Sys, n: nat): Sys {
    s.(wal := s.wal - {n}, removed := if n in s.wal then s.removed + {n} else s.removed)
  }

  /** The number Open continues with: the largest one read back from the file names. */
  ghost function OpenNumber(wal: map<nat, Segment>): nat {
    var n := ChunkStore.Latest(wal.Keys);
    if n == 0 then 1 else n
  }

  ghost predicate Next(s: Sys, a: Action, s': Sys) {
    match a
    case Append(e) =>
      && s.up && s.open && s.current in s.wal && Valid(e)
      && s' == s.(wal := s.wal[s.current := s.wal[s.current].(log := s.wal[s.current].log + [e])])
    case Spill(size) => s.up && CanGrow(s, size) && s' == Grow(s, size)
    case Rotate(size) =>
      && s.up && s.phase.Idle? && (s.open ==> CanGrow(s, size))
      && var t := Grow(s, size);
         s' == t.(wal := t.wal[s.current + 1 := OpenFile(t.wal, s.current + 1)], current := s.current + 1, open := true,
                  phase := Sealed(s.current))
    case RotateFails(size) =>
      && s.up && s.phase.Idle? && (s.open ==> CanGrow(s, size))
      && s' == Grow(s, size).(current := s.current + 1, open := false)
    case CloseFails(size) =>
      s.up && s.phase.Idle? && (s.open ==> CanGrow(s, size)) && s' == Grow(s, size).(open := false)
    case ReplaySealed(removes) =>
      && s.phase.Sealed?
      && var n := s.phase.n;
         if n in s.wal && !CanReplay(s.wal[n]) then s' == s.(phase := Idle)
         else
           var recs := if n in s.wal then ReplayBytes(Bytes(s.wal[n])).value else [];
           if recs == [] then s' == (if removes then Remove(s, n) else s).(phase := Idle)
           else s' == s.(phase := Writing(n, recs, Metrics(recs)))
    case WriteChunk(metric, files) =>
      && s.phase.Writing? && metric in s.phase.todo
      && AddedFile(DirOf(s.chunks, metric), s.phase.recs, metric, files)
      && s' == s.(chunks := s.chunks[metric := files], phase := s.phase.(todo := s.phase.todo - {metric}))
    case RemoveSealed =>
      s.phase.Writing? && s.phase.todo == {} && s' == Remove(s, s.phase.n).(phase := Idle)
    case Merge(metric, g) =>
      && s.up && s.phase.Idle? && metric in s.chunks && MergedFile(g, s.chunks[metric])
      && s' == s.(phase := Merging(metric, g))
    case WriteMerged =>
      && s.phase.Merging? && s.phase.metric in s.chunks
      && var files := s.chunks[s.phase.metric];
         s' == s.(chunks := s.chunks[s.phase.metric := files[NextNumber(files) := s.phase.g]],
                  phase := Deleting(s.phase.metric, files.Keys))
    case RemoveOld(k, removes) =>
      && s.phase.Deleting? && s.phase.metric in s.chunks && k in s.phase.left
      && var files := s.chunks[s.phase.metric];
         s' == s.(chunks := s.chunks[s.phase.metric := if removes then files - {k} else files],
                  phase := s.phase.(left := s.phase.left - {k}))
    case FinishCompaction => s.phase.Deleting? && s.phase.left == {} && s' == s.(phase := Idle)
    case Fail => !s.phase.Idle? && s' == s.(phase := Idle)
    case Shutdown(size) =>
      && s.up && s.phase.Idle? && (s.open ==> CanGrow(s, size))
      && s' == Grow(s, size).(up := false, open := false)
    case Crash => s.up && s' == s.(up := false, open := false, phase := Idle)
    case Open =>
      && !s.up && (forall n :: n in s.wal ==> CanReplay(s.wal[n]))
      && var n := OpenNumber(s.wal);
         s' == s.(wal := s.wal[n := OpenFile(s.wal, n)], up := true, open := true, current := n)
  }

  /** What must not overflow for a step to do what it is meant to: the numbers of segments and
      files are read back from their names, series are among those in use, and none has more
      points than a file can hold. */
  ghost predicate Within(s: Sys, a: Action, universe: set<Series>) {
    match a
    case Append(e) => e.rec.Key() in universe && e.rec.points != []
    case Rotate(_) => s.current + 1 < NUMBERS
    case RotateFails(_) => s.current + 1 < NUMBERS
    case WriteChunk(metric, _) =>
      && NextNumber(DirOf(s.chunks, metric)) < NUMBERS
      && (s.phase.Writing? ==> forall key :: |PointsOf(s.phase.recs, key)| <= MAX_POINTS)
    case Merge(metric, _) =>
      metric in s.chunks ==> forall labels :: |ColdPoints(s.chunks[metric], labels)| <= MAX_POINTS
    case WriteMerged => s.phase.Merging? ==> NextNumber(DirOf(s.chunks, s.phase.metric)) < NUMBERS
    case _ => true
  }

  ghost predicate Empty(s: Sys) {
    s == Sys(map[], map[], false, false, 0, Idle, [], {})
  }

  // ---- counting points ----

  /** The points of one series in the records of segment n that reached its file. */
  ghost function SegmentPoints(wal: map<nat, Segment>, n: nat, key: Series): multiset<Point> {
    if n in wal && Wellformed(wal[n]) then multiset(PointsOf(Durable(wal[n]), key)) else multiset{}
  }

  ghost function PointsBelow(wal: map<nat, Segment>, n: nat, key: Series): multiset<Point> {
    if n == 0 then multiset{} else PointsBelow(wal, n - 1, key) + SegmentPoints(wal, n - 1, key)
  }

  ghost function Above(wal: map<nat, Segment>): (n: nat)
    ensures forall k :: k in wal ==> k < n
  {
    if wal.Keys == {} then 0 else Largest(wal.Keys) + 1
  }

  /** The points of one series in all segment files. */
  ghost function WalPoints(wal: map<nat, Segment>, key: Series): multiset<Point> {
    PointsBelow(wal, Above(wal), key)
  }

  ghost function ChunkPoints(chunks: map<Str, Files>, key: Series): multiset<Point> {
    multiset(ColdPoints(DirOf(chunks, key.metric), key.labels))
  }

  /** The points of one series on disk, in segments and chunk files. */
  ghost function OnDisk(s: Sys, key: Series): multiset<Point> {
    WalPoints(s.wal, key) + ChunkPoints(s.chunks, key)
  }

  /** The points that will still be on disk when the flush or compaction in progress has removed
      all that it is going to remove. */
  ghost function Held(s: Sys, key: Series): multiset<Point> {
    match s.phase
    case Writing(n, recs, todo) =>
      WalPoints(s.wal - {n}, key) + ChunkPoints(s.chunks, key)
      + (if key.metric in todo then multiset(PointsOf(recs, key)) else multiset{})
    case Deleting(metric, left) =>
      WalPoints(s.wal, key) + ChunkPoints(s.chunks[metric := DirOf(s.chunks, metric) - left], key)
    case _ => OnDisk(s, key)
  }

  lemma {:induction false} EmptyAbove(wal: map<nat, Segment>, m: nat, n: nat, key: Series)
    requires m <= n && forall k :: k in wal ==> k < m
    ensures PointsBelow(wal, n, key) == PointsBelow(wal, m, key)
    decreases n
  {
    if m < n {
      EmptyAbove(wal, m, n - 1, key);
    }
  }

  lemma {:induction false} SegmentPut(wal: map<nat, Segment>, i: nat, seg: Segment, k: nat, key: Series)
    ensures SegmentPoints(wal[i := seg], k, key)
         == SegmentPoints(wal - {i}, k, key) + (if i == k then SegmentPoints(map[i := seg], i, key) else multiset{})
  {
    hide Durable, PointsOf, Wellformed;
  }

  lemma {:induction false} BelowPut(wal: map<nat, Segment>, i: nat, seg: Segment, n: nat, key: Series)
    ensures PointsBelow(wal[i := seg], n, key)
         == PointsBelow(wal - {i}, n, key) + (if i < n then SegmentPoints(map[i := seg], i, key) else multiset{})
    decreases n
  {
    hide SegmentPoints;
    if n > 0 {
      BelowPut(wal, i, seg, n - 1, key);
      SegmentPut(wal, i, seg, n - 1, key);
    }
  }

  /** Writing one segment changes only its own part of the sum. */
  lemma {:induction false} WalPut(wal: map<nat, Segment>, i: nat, seg: Segment, key: Series)
    ensures WalPoints(wal[i := seg], key) == WalPoints(wal - {i}, key) + SegmentPoints(map[i := seg], i, key)
  {
    hide PointsBelow, SegmentPoints;
    var top := i + 1 + Above(wal[i := seg]) + Above(wal - {i});
    EmptyAbove(wal[i := seg], Above(wal[i := seg]), top, key);
    EmptyAbove(wal - {i}, Above(wal - {i}), top, key);
    BelowPut(wal, i, seg, top, key);
  }

  lemma {:induction false} WalSplit(wal: map<nat, Segment>, i: nat, key: Series)
    requires i in wal
    ensures WalPoints(wal, key) == WalPoints(wal - {i}, key) + SegmentPoints(wal, i, key)
  {
    hide PointsBelow;
    assert wal[i := wal[i]] == wal;
    WalPut(wal, i, wal[i], key);
  }

  lemma {:induction false} WalAbsent(wal: map<nat, Segment>, i: nat)
    requires i !in wal
    ensures wal - {i} == wal
  {
  }

  // ---- one segment changes ----

  /** Two segments that hold the same records weigh the same. */
  lemma {:induction false} WalSame(wal: map<nat, Segment>, i: nat, seg: Segment, key: Series)
    requires i in wal && Wellformed(wal[i]) && Wellformed(seg) && Durable(seg) == Durable(wal[i])
    ensures WalPoints(wal[i := seg], key) == WalPoints(wal, key)
  {
    hide WalPoints, Durable, PointsOf, Wellformed;
    WalPut(wal, i, seg, key);
    WalSplit(wal, i, key);
  }

  /** Records that reach the file of a segment are added to what the segments hold. */
  lemma {:induction false} WalGrows(wal: map<nat, Segment>, i: nat, seg: Segment, more: seq<Record>, key: Series)
    requires i in wal && Wellformed(wal[i]) && Wellformed(seg) && Durable(seg) == Durable(wal[i]) + more
    ensures WalPoints(wal[i := seg], key) == WalPoints(wal, key) + multiset(PointsOf(more, key))
  {
    hide WalPoints, Durable, PointsOf, Wellformed;
    WalPut(wal, i, seg, key);
    WalSplit(wal, i, key);
    PointsOfConcat(Durable(wal[i]), more, key);
  }

  lemma {:induction false} WalNew(wal: map<nat, Segment>, i: nat, key: Series)
    requires i !in wal
    ensures WalPoints(wal[i := Segment([], 0)], key) == WalPoints(wal, key)
  {
    hide WalPoints, PointsOf;
    NewSegment();
    WalAbsent(wal, i);
    WalPut(wal, i, Segment([], 0), key);
    PointsOfNone(key);
  }

  // ---- the invariant ----

  ghost predicate PhaseOk(s: Sys) {
    match s.phase
    case Idle => true
    case Sealed(n) => n < s.current && s.current in s.wal
    case Writing(n, recs, todo) =>
      && n < s.current && s.current in s.wal && n in s.wal
      && Wellformed(s.wal[n]) && Durable(s.wal[n]) == recs && todo <= Metrics(recs)
    case Merging(metric, g) => metric in s.chunks && MergedFile(g, s.chunks[metric])
    case Deleting(metric, left) => metric in s.chunks && left <= s.chunks[metric].Keys
  }

  ghost predicate AllWellformed(s: Sys) {
    forall n :: n in s.wal ==> Wellformed(s.wal[n]) && n <= s.current && n < NUMBERS
  }

  /** Every removed segment has a later one on disk, and is not there itself. */
  ghost predicate NeverBack(s: Sys) {
    forall r :: r in s.removed ==> r !in s.wal && HasLater(s.wal, r)
  }

  ghost predicate HasLater(wal: map<nat, Segment>, r: nat) {
    exists n :: n in wal && n > r
  }

  ghost predicate Structure(s: Sys) {
    && AllWellformed(s)
    && (s.open ==> s.up && s.current in s.wal)
    && (!s.phase.Idle? ==> s.up)
    && PhaseOk(s)
    && NeverBack(s)
  }

  /** Nothing that reached a segment file is gone, even when the step in progress completes. */
  ghost predicate Accounted(s: Sys) {
    forall key :: multiset(PointsOf(s.reached, key)) <= Held(s, key)
  }

  ghost predicate Inv(s: Sys) {
    Structure(s) && Accounted(s)
  }

  /** What is held is on disk now. */
  lemma {:induction false} HeldOnDisk(s: Sys, key: Series)
    requires Structure(s)
    ensures Held(s, key) <= OnDisk(s, key)
  {
    hide WalPoints, PointsOf, ColdPoints, Durable, Wellformed, NeverBack;
    match s.phase
    case Writing(n, recs, todo) => WalSplit(s.wal, n, key);
    case Deleting(metric, left) =>
      if key.metric == metric {
        FewerFiles(s.chunks[metric], left, key.labels);
      }
    case _ =>
  }

  /** Without some files each series reads no more points. */
  lemma {:induction false} FewerFiles(files: Files, gone: set<nat>, labels: Labels)
    ensures multiset(ColdPoints(files - gone, labels)) <= multiset(ColdPoints(files, labels))
  {
    hide PointsIn, Ascending;
    FewerPoints(files, gone, Ascending(files.Keys), labels);
    AbsentNumbers(files - gone, files.Keys, (files - gone).Keys, labels);
  }

  lemma {:induction false} FewerPoints(files: Files, gone: set<nat>, order: seq<nat>, labels: Labels)
    ensures multiset(PointsIn(files - gone, order, labels)) <= multiset(PointsIn(files, order, labels))
    decreases order
  {
    hide FilePoints;
    if order != [] {
      FewerPoints(files, gone, order[..|order| - 1], labels);
    }
  }

  // ---- steps that write the log ----

  /** A step that only changes the open segment, and adds `more` to what has reached a file. */
  ghost predicate Advances(s: Sys, s': Sys, seg: Segment, more: seq<Record>) {
    && s.open && s.current in s.wal && Wellformed(s.wal[s.current]) && Wellformed(seg)
    && Durable(seg) == Durable(s.wal[s.current]) + more
    && s' == s.(wal := s.wal[s.current := seg], reached := s.reached + more)
  }

  lemma {:induction false} AdvanceKeeps(s: Sys, s': Sys, seg: Segment, more: seq<Record>)
    requires Inv(s) && Advances(s, s', seg, more)
    ensures Inv(s')
  {
    AdvanceStructure(s, s', seg, more);
    forall key ensures multiset(PointsOf(s'.reached, key)) <= Held(s', key) {
      AdvanceHeld(s, s', seg, more, key);
    }
  }

  lemma {:induction false} AdvanceStructure(s: Sys, s': Sys, seg: Segment, more: seq<Record>)
    requires Structure(s) && Advances(s, s', seg, more)
    ensures Structure(s')
  {
    hide Durable, Wellformed, MergedFile;
    forall r | r in s'.removed ensures HasLater(s'.wal, r) {
      var n :| n in s.wal && n > r;
      assert n in s'.wal;
    }
  }

  lemma {:induction false} AdvanceHeld(s: Sys, s': Sys, seg: Segment, more: seq<Record>, key: Series)
    requires Structure(s) && Advances(s, s', seg, more)
    requires multiset(PointsOf(s.reached, key)) <= Held(s, key)
    ensures multiset(PointsOf(s'.reached, key)) <= Held(s', key)
  {
    hide Durable, Wellformed, MergedFile, WalPoints, PointsOf, NeverBack, ChunkPoints, Metrics;
    PointsOfConcat(s.reached, more, key);
    WalGrows(s.wal, s.current, seg, more, key);
    if s.phase.Writing? {
      var n := s.phase.n;
      assert s'.wal - {n} == (s.wal - {n})[s.current := seg];
      WalGrows(s.wal - {n}, s.current, seg, more, key);
    }
  }

  lemma {:induction false} GrowKeeps(s: Sys, size: nat)
    requires Inv(s) && (s.open ==> CanGrow(s, size))
    ensures Inv(Grow(s, size))
    ensures
      var t := Grow(s, size);
      t == s.(wal := t.wal, reached := t.reached) && t.wal.Keys == s.wal.Keys
  {
    hide Inv, Durable, Wellformed;
    if s.open {
      var seg := s.wal[s.current];
      var seg' := seg.(size := size);
      FlushGrows(seg, size);
      var more := Durable(seg')[|Durable(seg)|..];
      assert Durable(seg') == Durable(seg) + more;
      AdvanceKeeps(s, Grow(s, size), seg', more);
    }
  }

  lemma {:induction false} AppendKeeps(s: Sys, e: Entry, s': Sys)
    requires Inv(s) && Next(s, Append(e), s')
    ensures Inv(s')
  {
    OpenWellformed(s);
    hide Durable, Inv, Wellformed, Valid;
    var seg := s.wal[s.current];
    var seg' := seg.(log := seg.log + [e]);
    AppendDurable(seg, e);
    assert Durable(seg') == Durable(seg) + [];
    assert s.reached + [] == s.reached;
    AdvanceKeeps(s, s', seg', []);
  }

  lemma {:induction false} OpenWellformed(s: Sys)
    requires Inv(s) && s.current in s.wal
    ensures Wellformed(s.wal[s.current])
  {
    hide Wellformed, PhaseOk, NeverBack, Accounted;
  }

  // ---- steps of the log manager ----

  /** A step that keeps all that is held may change phase, numbers and flags. */
  lemma {:induction false} SameHeld(s: Sys, s': Sys)
    requires Accounted(s) && s'.reached == s.reached
    requires forall key :: Held(s, key) <= Held(s', key)
    ensures Accounted(s')
  {
    hide Held, PointsOf;
    forall key ensures multiset(PointsOf(s'.reached, key)) <= Held(s', key) {
      assert Held(s, key) <= Held(s', key);
    }
  }

  lemma {:induction false} NextFile(t: Sys, s': Sys)
    requires Structure(t) && t.up && t.phase.Idle? && t.current + 1 < NUMBERS
    requires
      var n := t.current + 1;
      s' == t.(wal := t.wal[n := OpenFile(t.wal, n)], current := n, open := true, phase := Sealed(t.current))
    requires t.current in t.wal || !t.open
    ensures Structure(s') && s'.current !in t.wal && s'.current !in t.removed
    ensures forall key :: Held(s', key) == Held(t, key)
  {
    hide Wellformed, Durable, Reopened, WalPoints, ChunkPoints;
    var n := t.current + 1;
    assert n !in t.wal;
    NewSegment();
    forall r | r in s'.removed ensures r !in s'.wal && HasLater(s'.wal, r) {
      var k :| k in t.wal && k > r;
      assert k in s'.wal;
    }
    forall key ensures Held(s', key) == Held(t, key) {
      WalNew(t.wal, n, key);
    }
  }

  lemma {:induction false} RotateKeeps(s: Sys, size: nat, s': Sys)
    requires Inv(s) && Next(s, Rotate(size), s') && s.current + 1 < NUMBERS
    ensures Inv(s')
    ensures s'.current !in s.wal && s'.current !in s.removed
  {
    hide Structure, CanGrow, Grow, OpenFile, Accounted, Held;
    GrowKeeps(s, size);
    OpenIsThere(s);
    NextFile(Grow(s, size), s');
    SameHeld(Grow(s, size), s');
  }

  lemma {:induction false} OpenIsThere(s: Sys)
    requires Structure(s)
    ensures s.open ==> s.up && s.current in s.wal
  {
    hide Wellformed, PhaseOk, NeverBack;
  }

  lemma {:induction false} StopKeeps(s: Sys, size: nat, current: nat, up: bool)
    requires Inv(s) && s.phase.Idle? && (s.open ==> CanGrow(s, size)) && current >= s.current
    ensures Inv(Grow(s, size).(current := current, up := up, open := false))
  {
    hide Wellformed, CanGrow, Grow;
    GrowKeeps(s, size);
    SameHeld(Grow(s, size), Grow(s, size).(current := current, up := up, open := false));
  }

  lemma {:induction false} CrashKeeps(s: Sys, s': Sys)
    requires Inv(s) && (s' == s.(up := false, open := false, phase := Idle) || s' == s.(phase := Idle))
    ensures Inv(s')
  {
    forall key ensures Held(s, key) <= Held(s', key) {
      HeldOnDisk(s, key);
    }
    SameHeld(s, s');
  }

  lemma {:induction false} OpenNumberIsLast(s: Sys)
    requires AllWellformed(s)
    ensures OpenNumber(s.wal) < NUMBERS && forall k :: k in s.wal ==> k <= OpenNumber(s.wal)
  {
    hide Wellformed;
    ChunkStore.LatestIsLargest(s.wal.Keys);
  }

  lemma {:induction false} OpenedFile(s: Sys, n: nat)
    requires n in s.wal ==> CanReplay(s.wal[n])
    ensures Wellformed(OpenFile(s.wal, n))
    ensures forall key :: WalPoints(s.wal[n := OpenFile(s.wal, n)], key) == WalPoints(s.wal, key)
  {
    hide Wellformed, Durable, Reopened, ReplayBytes, WalPoints;
    if n in s.wal {
      ReopenDurable(s.wal[n]);
    } else {
      NewSegment();
    }
    forall key ensures WalPoints(s.wal[n := OpenFile(s.wal, n)], key) == WalPoints(s.wal, key) {
      if n in s.wal {
        WalSame(s.wal, n, Reopened(s.wal[n]), key);
      } else {
        WalNew(s.wal, n, key);
      }
    }
  }

  lemma {:induction false} OpenStructure(s: Sys, s': Sys)
    requires Structure(s) && Next(s, Open, s')
    ensures Structure(s') && s'.current !in s.removed
  {
    hide Wellformed, OpenFile, CanReplay, OpenNumber;
    OpenedFile(s, OpenNumber(s.wal));
    OpenNumberIsLast(s);
    assert s.phase.Idle?;
    forall r | r in s'.removed ensures r !in s'.wal && HasLater(s'.wal, r) {
      var k :| k in s.wal && k > r;
      assert k in s'.wal;
    }
  }

  lemma {:induction false} OpenKeeps(s: Sys, s': Sys)
    requires Inv(s) && Next(s, Open, s')
    ensures Inv(s')
    ensures s'.current !in s.removed
  {
    hide Wellformed, OpenFile, CanReplay, OpenNumber, WalPoints, ChunkPoints;
    OpenStructure(s, s');
    OpenedFile(s, OpenNumber(s.wal));
    assert s.phase.Idle?;
    hide Structure;
    SameHeld(s, s');
  }

  // ---- steps of a flush ----

  lemma {:induction false} UnknownMetric(recs: seq<Record>, key: Series)
    requires key.metric !in Metrics(recs)
    ensures PointsOf(recs, key) == []
  {
    assert !Mentions(recs, key);
    PointsOfUnmentioned(recs, key);
  }

  lemma {:induction false} RemoveStructure(s: Sys, n: nat)
    requires Structure(s) && n < s.current && s.current in s.wal
    ensures Structure(Remove(s, n).(phase := Idle))
  {
    hide Wellformed, Durable, PhaseOk;
    var s' := Remove(s, n).(phase := Idle);
    assert s.current in s'.wal;
    assert PhaseOk(s') by { IdleOk(s'); }
  }

  lemma {:induction false} IdleOk(s: Sys)
    requires s.phase.Idle?
    ensures PhaseOk(s)
  {
  }

  lemma {:induction false} SealedOk(s: Sys)
    requires Structure(s) && s.phase.Sealed?
    ensures s.up && s.phase.n < s.current && s.current in s.wal
  {
    hide Wellformed, NeverBack;
  }

  lemma {:induction false} WritingOk(s: Sys)
    requires Structure(s) && s.phase.Writing?
    ensures
      var n := s.phase.n;
      && s.up && n < s.current && s.current in s.wal && n in s.wal
      && Wellformed(s.wal[n]) && Durable(s.wal[n]) == s.phase.recs && s.phase.todo <= Metrics(s.phase.recs)
  {
    hide Wellformed, NeverBack;
  }

  /** A step that leaves the log alone keeps the structure when its phase is in order. */
  lemma {:induction false} SameLog(s: Sys, s': Sys)
    requires Structure(s) && s.up && PhaseOk(s')
    requires s' == s.(chunks := s'.chunks, phase := s'.phase)
    ensures Structure(s')
  {
    hide Wellformed, PhaseOk;
  }

  /** A sealed segment that cannot be replayed stays; an empty one may go. */
  lemma {:induction false} ReplayEmptyKeeps(s: Sys, removes: bool, s': Sys)
    requires Inv(s) && Next(s, ReplaySealed(removes), s') && s'.phase.Idle?
    ensures Inv(s')
  {
    hide Wellformed, Durable, ReplayBytes, Structure, WalPoints, PointsOf, ChunkPoints;
    var n := s.phase.n;
    SealedOk(s);
    if s' == s.(phase := Idle) {
      CrashKeeps(s, s');
    } else {
      RemoveStructure(s, n);
      forall key ensures Held(s, key) <= Held(s', key) {
        EmptySegment(s.wal, n, key);
      }
      SameHeld(s, s');
    }
  }

  /** Removing a segment without records, or one that is not there, loses nothing. */
  lemma {:induction false} EmptySegment(wal: map<nat, Segment>, n: nat, key: Series)
    requires n in wal ==> CanReplay(wal[n]) && ReplayBytes(Bytes(wal[n])).value == []
    ensures WalPoints(wal - {n}, key) == WalPoints(wal, key)
  {
    hide Wellformed, Durable, ReplayBytes, WalPoints, PointsOf;
    if n in wal {
      ReplayDurable(wal[n]);
      WalSplit(wal, n, key);
      PointsOfNone(key);
    } else {
      WalAbsent(wal, n);
    }
  }

  lemma {:induction false} ReplayKeeps(s: Sys, removes: bool, s': Sys)
    requires Inv(s) && Next(s, ReplaySealed(removes), s') && s'.phase.Writing?
    ensures Inv(s')
  {
    hide Wellformed, Durable, ReplayBytes, WalPoints, PointsOf, ChunkPoints, Structure, Metrics;
    var n, recs := s.phase.n, s'.phase.recs;
    SealedOk(s);
    ReplayDurable(s.wal[n]);
    assert PhaseOk(s');
    SameLog(s, s');
    forall key ensures Held(s, key) <= Held(s', key) {
      WalSplit(s.wal, n, key);
      if key.metric !in Metrics(recs) {
        UnknownMetric(recs, key);
      }
    }
    SameHeld(s, s');
  }

  /** The file of a metric holds the points of the sealed records. */
  lemma {:induction false} AddedPoints(files: Files, recs: seq<Record>, metric: Str, files': Files, key: Series)
    requires AddedFile(files, recs, metric, files') && key.metric == metric
    ensures multiset(ColdPoints(files', key.labels))
         == multiset(ColdPoints(files, key.labels)) + multiset(PointsOf(recs, key))
  {
    hide InsertAll, PointsOf, FlushFile, ColdPoints, FilePoints, NextNumber;
    var n := NextNumber(files);
    NextNumberIsNew(files);
    ColdAdd(files, n, files'[n], key.labels);
    FlushFilePoints(files'[n], recs, key);
    NoneSorted();
    InsertAllKeepsOrder([], PointsOf(recs, key));
  }

  lemma {:induction false} WriteChunkHeld(s: Sys, metric: Str, files: Files, s': Sys, key: Series)
    requires Next(s, WriteChunk(metric, files), s')
    ensures Held(s, key) <= Held(s', key)
  {
    hide Durable, Wellformed, WalPoints, PointsOf, ColdPoints, Metrics, AddedFile;
    if key.metric == metric {
      AddedPoints(DirOf(s.chunks, metric), s.phase.recs, metric, files, key);
    }
  }

  lemma {:induction false} WriteChunkKeeps(s: Sys, metric: Str, files: Files, s': Sys)
    requires Inv(s) && Next(s, WriteChunk(metric, files), s')
    ensures Inv(s')
  {
    hide Durable, Wellformed, Held, PointsOf, Structure, Metrics, AddedFile;
    WritingOk(s);
    SameLog(s, s');
    forall key ensures Held(s, key) <= Held(s', key) {
      WriteChunkHeld(s, metric, files, s', key);
    }
    SameHeld(s, s');
  }

  lemma {:induction false} RemoveSealedKeeps(s: Sys, s': Sys)
    requires Inv(s) && Next(s, RemoveSealed, s')
    ensures Inv(s')
  {
    hide Durable, Wellformed, WalPoints, PointsOf, ChunkPoints, Structure;
    WritingOk(s);
    RemoveStructure(s, s.phase.n);
    SameHeld(s, s');
  }

  // ---- steps of a compaction ----

  lemma {:induction false} CompactingOk(s: Sys)
    requires Structure(s)
    ensures !s.phase.Idle? ==> s.up
    ensures s.phase.Merging? ==> s.phase.metric in s.chunks && MergedFile(s.phase.g, s.chunks[s.phase.metric])
    ensures s.phase.Deleting? ==> s.phase.metric in s.chunks && s.phase.left <= s.chunks[s.phase.metric].Keys
  {
    hide Wellformed, NeverBack, MergedFile;
  }

  lemma {:induction false} MergeKeeps(s: Sys, metric: Str, g: ChunkFile, s': Sys)
    requires Inv(s) && Next(s, Merge(metric, g), s')
    ensures Inv(s')
  {
    hide Structure, MergedFile, OnDisk;
    SameLog(s, s');
    forall key ensures Held(s, key) <= Held(s', key) {
      assert OnDisk(s, key) == OnDisk(s', key) by { SameDisk(s, s', key); }
    }
    SameHeld(s, s');
  }

  lemma {:induction false} SameDisk(s: Sys, s': Sys, key: Series)
    requires s'.wal == s.wal && s'.chunks == s.chunks
    ensures OnDisk(s, key) == OnDisk(s', key)
  {
    hide WalPoints, ChunkPoints;
  }

  /** Without the files it was made from the merged file is alone, and holds their points. */
  lemma {:induction false} MergedAlone(files: Files, g: ChunkFile, labels: Labels)
    requires MergedFile(g, files)
    ensures multiset(ColdPoints(files[NextNumber(files) := g] - files.Keys, labels))
         == multiset(ColdPoints(files, labels))
  {
    hide MergedFile, ColdPoints, NextNumber, FilePoints;
    var n := NextNumber(files);
    NextNumberIsNew(files);
    assert files[n := g] - files.Keys == map[n := g];
    ColdOne(n, g, labels);
    MergedPoints(g, files, labels);
  }

  lemma {:induction false} WriteMergedKeeps(s: Sys, s': Sys)
    requires Inv(s) && Next(s, WriteMerged, s')
    ensures Inv(s')
  {
    hide Structure, MergedFile, WalPoints, ColdPoints, NextNumber;
    CompactingOk(s);
    var metric, g := s.phase.metric, s.phase.g;
    var files := s.chunks[metric];
    SameLog(s, s');
    forall key ensures Held(s, key) <= Held(s', key) {
      MergedAlone(files, g, key.labels);
    }
    SameHeld(s, s');
  }

  lemma {:induction false} FilesLeft(files: Files, left: set<nat>, k: nat, labels: Labels)
    requires k in left
    ensures (files - {k}) - (left - {k}) == files - left
    ensures multiset(ColdPoints(files - left, labels)) <= multiset(ColdPoints(files - (left - {k}), labels))
  {
    hide ColdPoints;
    assert (files - {k}) - (left - {k}) == files - left;
    assert files - (left - {k}) - {k} == files - left;
    FewerFiles(files - (left - {k}), {k}, labels);
  }

  lemma {:induction false} RemoveOldKeeps(s: Sys, k: nat, removes: bool, s': Sys)
    requires Inv(s) && Next(s, RemoveOld(k, removes), s')
    ensures Inv(s')
  {
    hide Structure, WalPoints, ColdPoints;
    CompactingOk(s);
    var metric, left := s.phase.metric, s.phase.left;
    var files := s.chunks[metric];
    SameLog(s, s');
    forall key ensures Held(s, key) <= Held(s', key) {
      FilesLeft(files, left, k, key.labels);
    }
    SameHeld(s, s');
  }

  // ---- every step ----

  lemma {:induction false} StepKeeps(s: Sys, a: Action, s': Sys, universe: set<Series>)
    requires Inv(s) && Next(s, a, s') && Within(s, a, universe)
    ensures Inv(s')
  {
    hide Inv, Next;
    match a
    case Append(e) => AppendKeeps(s, e, s');
    case Spill(size) => SpillKeeps(s, size, s');
    case Rotate(size) => RotateKeeps(s, size, s');
    case RotateFails(size) => FailedRotate(s, size, s');
    case CloseFails(size) => FailedRotate(s, size, s');
    case ReplaySealed(removes) => ReplaySealedKeeps(s, removes, s');
    case WriteChunk(metric, files) => WriteChunkKeeps(s, metric, files, s');
    case RemoveSealed => RemoveSealedKeeps(s, s');
    case Merge(metric, g) => MergeKeeps(s, metric, g, s');
    case WriteMerged => WriteMergedKeeps(s, s');
    case RemoveOld(k, removes) => RemoveOldKeeps(s, k, removes, s');
    case FinishCompaction => EndKeeps(s, a, s');
    case Fail => EndKeeps(s, a, s');
    case Shutdown(size) => FailedRotate(s, size, s');
    case Crash => EndKeeps(s, a, s');
    case Open => OpenKeeps(s, s');
  }

  lemma {:induction false} SpillKeeps(s: Sys, size: nat, s': Sys)
    requires Inv(s) && Next(s, Spill(size), s')
    ensures Inv(s')
  {
    hide Inv, Grow, CanGrow;
    GrowKeeps(s, size);
  }

  lemma {:induction false} ReplaySealedKeeps(s: Sys, removes: bool, s': Sys)
    requires Inv(s) && Next(s, ReplaySealed(removes), s')
    ensures Inv(s')
  {
    hide Inv, CanReplay, ReplayBytes, Metrics, Remove;
    if s'.phase.Idle? {
      ReplayEmptyKeeps(s, removes, s');
    } else {
      ReplayKeeps(s, removes, s');
    }
  }

  /** A step that only ends what is going on. */
  lemma {:induction false} EndKeeps(s: Sys, a: Action, s': Sys)
    requires Inv(s) && Next(s, a, s') && (a.FinishCompaction? || a.Fail? || a.Crash?)
    ensures Inv(s')
  {
    hide Inv;
    CrashKeeps(s, s');
  }

  lemma {:induction false} FailedRotate(s: Sys, size: nat, s': Sys)
    requires Inv(s)
    requires Next(s, RotateFails(size), s') || Next(s, CloseFails(size), s') || Next(s, Shutdown(size), s')
    ensures Inv(s')
  {
    hide Inv, CanGrow;
    StopKeeps(s, size, s'.current, s'.up);
    GrowKeeps(s, size);
  }
}
