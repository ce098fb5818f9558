/** One segment file while it is written: what was handed to its buffer, and how many bytes of
    that have reached the file. */
module SegmentFile {
  import opened Words
  import opened Model
  import opened WalFormat

  /** `log` is everything written to the segment, `size` the length of the file: the rest is
      in the write buffer, or was lost with it. */
  datatype Segment = Segment(log: seq<Entry>, size: nat)

  ghost predicate Wellformed(seg: Segment) {
    AllValid(seg.log) && seg.size <= |LogBytes(seg.log)|
  }

  /** The bytes of the file. */
  ghost function Bytes(seg: Segment): seq<byte>
    requires Wellformed(seg)
  {
    LogBytes(seg.log)[..seg.size]
  }

  /** How many records lie wholly within the first k bytes. */
  ghost function Whole(log: seq<Entry>, k: nat): (n: nat)
    requires AllValid(log)
    ensures n <= |log|
  {
    if log == [] || k < |FrameOf(log[0])| then 0 else 1 + Whole(log[1..], k - |FrameOf(log[0])|)
  }

  /** The records whose bytes have all reached the file. */
  ghost function Durable(seg: Segment): seq<Record>
    requires Wellformed(seg)
  {
    Records(seg.log[..Whole(seg.log, seg.size)])
  }

  lemma {:induction false} WholeAtEnd(log: seq<Entry>, j: nat)
    requires AllValid(log) && j <= |log|
    ensures Whole(log, End(log, j)) == j
    decreases log
  {
    hide FrameOf;
    if j == 0 {
      EndZero(log, 0);
      if log != [] {
        FirstRecord(log[0], []);
      }
    } else {
      EndStep(log, j);
      WholeAtEnd(log[1..], j - 1);
    }
  }

  /** A replay that succeeds gives exactly the records that reached the file, and the file
      then ends at the end of the last of them. */
  lemma {:induction false} ReplayDurable(seg: Segment)
    requires Wellformed(seg)
    ensures ReplayBytes(Bytes(seg)).Ok? ==> ReplayBytes(Bytes(seg)) == Ok(Durable(seg))
    ensures ReplayBytes(Bytes(seg)).Ok? <==> seg.size == End(seg.log, Whole(seg.log, seg.size))
  {
    hide FrameOf, ReplayBytes, LogBytes, End, Whole;
    ReplayPrefix(seg.log, seg.size);
    if Boundary(seg.log, seg.size) {
      var j :| 0 <= j <= |seg.log| && End(seg.log, j) == seg.size;
      WholeAtEnd(seg.log, j);
    }
  }

  lemma {:induction false} WholeGrows(log: seq<Entry>, k: nat, k': nat)
    requires AllValid(log) && k <= k'
    ensures Whole(log, k) <= Whole(log, k')
  {
    hide FrameOf;
    if log != [] && |FrameOf(log[0])| <= k {
      WholeGrows(log[1..], k - |FrameOf(log[0])|, k' - |FrameOf(log[0])|);
    }
  }

  /** When more bytes reach the file, records are added and none changes. */
  lemma {:induction false} FlushGrows(seg: Segment, size: nat)
    requires Wellformed(seg) && seg.size <= size <= |LogBytes(seg.log)|
    ensures Wellformed(seg.(size := size)) && Durable(seg) <= Durable(seg.(size := size))
  {
    hide Whole, LogBytes;
    WholeGrows(seg.log, seg.size, size);
    var a, b := Durable(seg), Durable(seg.(size := size));
    assert forall i :: 0 <= i < |a| ==> a[i] == b[i];
  }

  lemma {:induction false} WholeAppend(log: seq<Entry>, e: Entry, k: nat)
    requires AllValid(log) && Valid(e) && k <= |LogBytes(log)|
    ensures AllValid(log + [e]) && k <= |LogBytes(log + [e])|
    ensures Whole(log + [e], k) == Whole(log, k)
    decreases log
  {
    hide FrameOf;
    if log == [] {
      FirstRecord(e, []);
      assert log + [e] == [e];
    } else {
      assert (log + [e])[1..] == log[1..] + [e];
      if |FrameOf(log[0])| <= k {
        WholeAppend(log[1..], e, k - |FrameOf(log[0])|);
      } else {
        WholeAppend(log[1..], e, 0);
      }
    }
  }

  /** A record handed to the buffer changes nothing in the file. */
  lemma {:induction false} AppendDurable(seg: Segment, e: Entry)
    requires Wellformed(seg) && Valid(e)
    ensures Wellformed(seg.(log := seg.log + [e])) && Durable(seg.(log := seg.log + [e])) == Durable(seg)
  {
    hide Whole, LogBytes, FrameOf;
    WholeAppend(seg.log, e, seg.size);
    var n := Whole(seg.log, seg.size);
    assert (seg.log + [e])[..n] == seg.log[..n];
  }

  /** A segment opened for appending: the lost buffer is forgotten. */
  ghost function Reopened(seg: Segment): Segment
    requires Wellformed(seg)
  {
    Segment(seg.log[..Whole(seg.log, seg.size)], seg.size)
  }

  lemma {:induction false} ReopenDurable(seg: Segment)
    requires Wellformed(seg) && ReplayBytes(Bytes(seg)).Ok?
    ensures Wellformed(Reopened(seg)) && Durable(Reopened(seg)) == Durable(seg) && Bytes(Reopened(seg)) == Bytes(seg)
  {
    hide Whole, LogBytes, FrameOf, ReplayBytes;
    ReplayDurable(seg);
    var n := Whole(seg.log, seg.size);
    var log := seg.log[..n];
    assert log[..n] == log;
    WholeAtEnd(log, n);
    LogPrefix(seg.log, n);
  }

  lemma {:induction false} LogPrefix(log: seq<Entry>, n: nat)
    requires AllValid(log) && n <= |log|
    ensures AllValid(log[..n]) && LogBytes(log[..n]) <= LogBytes(log)
    decreases log
  {
    hide FrameOf;
    if n > 0 {
      LogPrefix(log[1..], n - 1);
      assert log[..n][1..] == log[1..][..n - 1];
    }
  }

  lemma {:induction false} NewSegment()
    ensures Wellformed(Segment([], 0)) && Durable(Segment([], 0)) == []
  {
  }

  /** A record survives the loss of the buffer exactly when its last byte had reached the file. */
  lemma {:induction false} SurvivesExactly(seg: Segment, i: nat)
    requires Wellformed(seg) && i < |seg.log|
    ensures i < |Durable(seg)| <==> End(seg.log, i + 1) <= seg.size
    ensures i < |Durable(seg)| ==> Durable(seg)[i] == seg.log[i].rec
  {
    hide Whole, FrameOf;
    WholeAtEnd(seg.log, i + 1);
    if End(seg.log, i + 1) <= seg.size {
      WholeGrows(seg.log, End(seg.log, i + 1), seg.size);
    } else {
      WholeBefore(seg.log, i, seg.size);
    }
  }

  lemma {:induction false} WholeBefore(log: seq<Entry>, i: nat, k: nat)
    requires AllValid(log) && i < |log| && k < End(log, i + 1)
    ensures Whole(log, k) <= i
    decreases log
  {
    hide FrameOf;
    EndStep(log, i + 1);
    EndZero(log[1..], 0);
    if k >= |FrameOf(log[0])| && i > 0 {
      WholeBefore(log[1..], i - 1, k - |FrameOf(log[0])|);
    }
  }
}
