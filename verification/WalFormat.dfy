/** The write-ahead log on disk: record payloads, frames, and replay. */
module WalFormat {
  import opened Words
  import opened Model
  import opened Binary
  import opened Crc
  import opened SeriesKey

  // ---- one record ----

  /** [metric][labels][points_count: uint16][points]; labels in the given order. */
  function RecordBytes(rec: Record, order: seq<Str>): seq<byte>
    requires forall k :: k in order ==> k in rec.labels
  {
    StrBytes(rec.metric) + LabelsBytes(rec.labels, order) + LE(|rec.points|, 2) + RawBytes(rec.points)
  }

  /** What a payload decodes to; bytes after the last point are ignored. */
  function DecodeBytes(data: seq<byte>): Result<Record> {
    var (metric, r1) :- TakeStr(data);
    var (labels, r2) :- TakeLabels(r1);
    var (n, r3) :- TakeUint(r2, 2);
    var (points, _) :- TakeRaw(r3, n);
    Ok(Record(metric, labels, points))
  }

  /** Every name and label length fits its 16-bit field. */
  predicate ShortNames(rec: Record) {
    Short(rec.metric) && ShortLabels(rec.labels)
  }

  /** The record a payload keeps: the point count is stored modulo 2^16. */
  function Kept(rec: Record): Record {
    rec.(points := rec.points[..|rec.points| % 0x1_0000])
  }

  /** A payload decodes to the record with its point list cut to the stored count,
      whatever order the labels were written in. */
  lemma {:induction false} RecordDecodes(rec: Record, order: seq<Str>)
    requires ShortNames(rec) && IsOrder(order, rec.labels)
    ensures DecodeBytes(RecordBytes(rec, order)) == Ok(Kept(rec))
  {
    hide StrBytes, TakeStr, LabelsBytes, TakeLabels, TakeUint, LE, RawBytes, RawPoints, Short, ShortLabels;
    var raw := RawBytes(rec.points);
    var r2 := LE(|rec.points|, 2) + raw;
    var r1 := LabelsBytes(rec.labels, order) + r2;
    StrRoundTrip(rec.metric, r1);
    LabelsRoundTrip(rec.labels, order, r2);
    Take16(|rec.points|, raw);
    RawRoundTrip(rec.points, |rec.points| % 0x1_0000, []);
    assert raw + [] == raw;
    Regroup(StrBytes(rec.metric), LabelsBytes(rec.labels, order), LE(|rec.points|, 2), raw);
  }

  lemma {:induction false} Regroup(a: seq<byte>, b: seq<byte>, c: seq<byte>, d: seq<byte>)
    ensures a + b + c + d == a + (b + (c + d))
  {
  }

  /** A payload that is cut short anywhere is an error: no part of a record is taken for a whole. */
  lemma {:induction false} CutPayload(rec: Record, order: seq<Str>, k: nat)
    requires ShortNames(rec) && IsOrder(order, rec.labels) && |rec.points| <= 0xFFFF
    requires k < |RecordBytes(rec, order)|
    ensures DecodeBytes(RecordBytes(rec, order)[..k]).Err?
  {
    hide StrBytes, TakeStr, LabelsBytes, TakeLabels, TakeUint, LE, RawBytes, RawPoints, Short, ShortLabels;
    var a, b, c, d := StrBytes(rec.metric), LabelsBytes(rec.labels, order), LE(|rec.points|, 2), RawBytes(rec.points);
    RawSize(rec.points);
    Regroup(a, b, c, d);
    var data := RecordBytes(rec, order)[..k];
    if k < |a| {
      assert data == a[..k];
      CutStr(rec.metric, k);
    } else if k < |a| + |b| {
      var cut := b[..k - |a|];
      assert data == a + cut;
      StrRoundTrip(rec.metric, cut);
      CutLabels(rec.labels, order, |cut|);
    } else if k < |a| + |b| + 2 {
      var cut := c[..k - |a| - |b|];
      assert data == a + (b + cut);
      StrRoundTrip(rec.metric, b + cut);
      LabelsRoundTrip(rec.labels, order, cut);
      ShortUint(cut);
    } else {
      var cut := d[..k - |a| - |b| - 2];
      assert data == a + (b + (c + cut));
      StrRoundTrip(rec.metric, b + (c + cut));
      LabelsRoundTrip(rec.labels, order, c + cut);
      Take16(|rec.points|, cut);
    }
  }

  lemma {:induction false} ShortUint(data: seq<byte>)
    requires |data| < 2
    ensures TakeUint(data, 2).Err?
  {
  }

  /** A record survives the log exactly when it has at most 65535 points. */
  lemma {:induction false} RecordRoundTrip(rec: Record, order: seq<Str>)
    requires ShortNames(rec) && IsOrder(order, rec.labels)
    ensures DecodeBytes(RecordBytes(rec, order)) == Ok(rec) <==> |rec.points| <= 0xFFFF
  {
    RecordDecodes(rec, order);
    KeptAll(rec);
    hide RecordBytes, DecodeBytes, Kept, ShortNames, IsOrder;
  }

  lemma {:induction false} KeptAll(rec: Record)
    ensures Kept(rec) == rec <==> |rec.points| <= 0xFFFF
  {
    if |rec.points| <= 0xFFFF {
      assert rec.points[..|rec.points|] == rec.points;
    } else {
      assert |Kept(rec).points| < |rec.points|;
    }
  }

  // ---- the log ----

  /** [payload_len: uint32][crc32: uint32][payload] */
  function Frame(payload: seq<byte>): seq<byte> {
    LE(|payload|, 4) + LE(Checksum(payload), 4) + payload
  }

  /** A record together with the label order its payload happened to use. */
  datatype Entry = Entry(rec: Record, order: seq<Str>)

  ghost predicate Valid(e: Entry) {
    && ShortNames(e.rec) && IsOrder(e.order, e.rec.labels) && |e.rec.points| <= 0xFFFF
    && |RecordBytes(e.rec, e.order)| < 0x1_0000_0000
  }

  ghost predicate AllValid(log: seq<Entry>) {
    forall i :: 0 <= i < |log| ==> Valid(log[i])
  }

  ghost function FrameOf(e: Entry): seq<byte>
    requires Valid(e)
  {
    Frame(RecordBytes(e.rec, e.order))
  }

  /** The bytes of a segment. */
  ghost function LogBytes(log: seq<Entry>): seq<byte>
    requires AllValid(log)
  {
    if log == [] then [] else FrameOf(log[0]) + LogBytes(log[1..])
  }

  ghost function Records(log: seq<Entry>): (rs: seq<Record>)
    ensures |rs| == |log|
  {
    seq(|log|, i requires 0 <= i < |log| => log[i].rec)
  }

  /** The record at the front of a log and what follows it. */
  function TakeRecord(data: seq<byte>): Result<(Record, seq<byte>)> {
    var (header, body) :- TakeBytes(data, 8);
    var (payload, rest) :- TakeBytes(body, FromLE(header[..4]));
    if Checksum(payload) != FromLE(header[4..]) then Err(CrcMismatch)
    else
      var rec :- DecodeBytes(payload);
      Ok((rec, rest))
  }

  /** What replaying a segment gives. */
  function ReplayBytes(data: seq<byte>): Result<seq<Record>> {
    if data == [] then Ok([])
    else
      var (rec, rest) :- TakeRecord(data);
      var recs :- ReplayBytes(rest);
      Ok([rec] + recs)
  }

  lemma {:induction false} FrameHeader(payload: seq<byte>, k: nat)
    requires |payload| < 0x1_0000_0000 && 8 <= k <= |Frame(payload)|
    ensures
      var data := Frame(payload)[..k];
      && FromLE(data[..8][..4]) == |payload|
      && FromLE(data[..8][4..]) == Checksum(payload)
      && data[8..] == payload[..k - 8]
  {
    hide LE, FromLE, Checksum;
    ChecksumBound(payload);
    LE32(|payload|);
    LE32(Checksum(payload));
    var data := Frame(payload)[..k];
    var header := LE(|payload|, 4) + LE(Checksum(payload), 4);
    assert data[..8] == header;
    assert header[..4] == LE(|payload|, 4);
    assert header[4..] == LE(Checksum(payload), 4);
  }

  /** The frame of any record with short names, at the front of a log. */
  lemma {:induction false} FrameTakes(rec: Record, order: seq<Str>, rest: seq<byte>)
    requires ShortNames(rec) && IsOrder(order, rec.labels) && |RecordBytes(rec, order)| < 0x1_0000_0000
    ensures |Frame(RecordBytes(rec, order))| >= 8
    ensures TakeRecord(Frame(RecordBytes(rec, order)) + rest) == Ok((Kept(rec), rest))
  {
    hide LE, FromLE, Checksum, RecordBytes, DecodeBytes;
    var payload := RecordBytes(rec, order);
    var frame := Frame(payload);
    FrameHeader(payload, |frame|);
    assert frame[..|frame|] == frame;
    assert payload[..|payload|] == payload;
    assert (frame + rest)[..8] == frame[..8];
    assert (frame + rest)[8..] == payload + rest;
    TakeBytesBack(payload, rest);
    RecordDecodes(rec, order);
  }

  lemma {:induction false} FirstRecord(e: Entry, rest: seq<byte>)
    requires Valid(e)
    ensures |FrameOf(e)| >= 8
    ensures TakeRecord(FrameOf(e) + rest) == Ok((e.rec, rest))
  {
    hide RecordBytes, Frame, TakeRecord;
    FrameTakes(e.rec, e.order, rest);
    KeptAll(e.rec);
  }

  // ---- appending ----

  lemma {:induction false} TakeRecordMore(data: seq<byte>, more: seq<byte>)
    requires TakeRecord(data).Ok?
    ensures TakeRecord(data + more) == Ok((TakeRecord(data).value.0, TakeRecord(data).value.1 + more))
    ensures |TakeRecord(data).value.1| < |data|
  {
    hide FromLE, Checksum, DecodeBytes;
    var header, body := data[..8], data[8..];
    var n := FromLE(header[..4]);
    assert (data + more)[..8] == header && (data + more)[8..] == body + more;
    assert (body + more)[..n] == body[..n] && (body + more)[n..] == body[n..] + more;
  }

  lemma {:induction false} NoFrames()
    ensures ReplayBytes([]) == Ok([])
  {
  }

  /** Appending the frame of a record to a log that replays appends what its payload keeps. */
  lemma {:induction false} ReplayAppend(data: seq<byte>, rec: Record, order: seq<Str>)
    requires ReplayBytes(data).Ok?
    requires ShortNames(rec) && IsOrder(order, rec.labels) && |RecordBytes(rec, order)| < 0x1_0000_0000
    ensures ReplayBytes(data + Frame(RecordBytes(rec, order))) == Ok(ReplayBytes(data).value + [Kept(rec)])
    decreases |data|
  {
    hide TakeRecord, Frame, RecordBytes, ShortNames;
    var frame := Frame(RecordBytes(rec, order));
    FrameTakes(rec, order, []);
    assert frame + [] == frame;
    if data == [] {
      assert data + frame == frame;
      NoFrames();
      assert [Kept(rec)] + [] == [Kept(rec)] && [] + [Kept(rec)] == [Kept(rec)];
      assert ReplayBytes(frame) == Ok([Kept(rec)]);
    } else {
      TakeRecordMore(data, frame);
      var rest := TakeRecord(data).value.1;
      ReplayAppend(rest, rec, order);
      var first := TakeRecord(data).value.0;
      assert [first] + (ReplayBytes(rest).value + [Kept(rec)]) == [first] + ReplayBytes(rest).value + [Kept(rec)];
    }
  }

  lemma {:induction false} RawSize(ps: seq<Point>)
    ensures |RawBytes(ps)| == 16 * |ps|
  {
    RawLength(ps);
  }

  /** A record of at most 65535 points with short names and a label block below 2^16 bytes has
      a payload far below 2^32 bytes. */
  lemma {:induction false} PayloadFits(rec: Record, order: seq<Str>)
    requires ShortNames(rec) && IsOrder(order, rec.labels) && |rec.points| <= 0xFFFF
    requires |BlockBytes(rec.labels)| < 0x1_0000
    ensures |RecordBytes(rec, order)| < 0x1_0000_0000
  {
    hide LabelsBytes, RawBytes, LE;
    BlockSize(rec.labels, order);
    RawSize(rec.points);
  }

  /** A frame that is cut short is an error, not an end of log. */
  lemma {:induction false} CutRecord(e: Entry, k: nat)
    requires Valid(e) && 0 < k < |FrameOf(e)|
    ensures TakeRecord(FrameOf(e)[..k]).Err?
  {
    if k >= 8 {
      FrameHeader(RecordBytes(e.rec, e.order), k);
    }
  }

  /** Where the j-th record ends. */
  ghost function End(log: seq<Entry>, j: nat): nat
    requires AllValid(log) && j <= |log|
  {
    |LogBytes(log[..j])|
  }

  lemma {:induction false} EndStep(log: seq<Entry>, j: nat)
    requires AllValid(log) && 0 < j <= |log|
    ensures End(log, j) == |FrameOf(log[0])| + End(log[1..], j - 1) >= 8
  {
    FirstRecord(log[0], []);
    assert log[..j][1..] == log[1..][..j - 1];
  }

  lemma {:induction false} EndZero(log: seq<Entry>, j: nat)
    requires AllValid(log) && j <= |log|
    ensures End(log, j) == 0 <==> j == 0
  {
    if j > 0 {
      EndStep(log, j);
    }
  }

  /** `k` is the end of a record, or the start of the log. */
  ghost predicate Boundary(log: seq<Entry>, k: nat)
    requires AllValid(log)
  {
    exists j :: 0 <= j <= |log| && End(log, j) == k
  }

  lemma {:induction false} BoundaryStep(log: seq<Entry>, k: nat)
    requires AllValid(log) && log != [] && k >= |FrameOf(log[0])| > 0
    ensures Boundary(log, k) <==> Boundary(log[1..], k - |FrameOf(log[0])|)
  {
    hide End, FrameOf;
    var n := |FrameOf(log[0])|;
    if Boundary(log, k) {
      var j :| 0 <= j <= |log| && End(log, j) == k;
      EndZero(log, j);
      EndStep(log, j);
      assert End(log[1..], j - 1) == k - n;
    }
    if Boundary(log[1..], k - n) {
      var j :| 0 <= j <= |log[1..]| && End(log[1..], j) == k - n;
      EndStep(log, j + 1);
      assert End(log, j + 1) == k;
    }
  }

  lemma {:induction false} BoundaryInside(log: seq<Entry>, k: nat)
    requires AllValid(log) && log != [] && 0 < k < |FrameOf(log[0])|
    ensures !Boundary(log, k)
  {
    hide End, FrameOf;
    forall j | 0 <= j <= |log| ensures End(log, j) != k {
      EndZero(log, j);
      if j > 0 {
        EndStep(log, j);
      }
    }
  }

  /** Bytes replay as the records of the log up to k do, if k is a boundary. */
  ghost predicate ReplaysAs(log: seq<Entry>, k: nat, data: seq<byte>)
    requires AllValid(log)
  {
    && (ReplayBytes(data).Ok? <==> Boundary(log, k))
    && forall j :: 0 <= j <= |log| && End(log, j) == k ==> ReplayBytes(data) == Ok(Records(log[..j]))
  }

  /** Replaying the first k bytes of a log succeeds exactly when they end at a record
      boundary, and then gives exactly the records before it. */
  lemma {:induction false} ReplayPrefix(log: seq<Entry>, k: nat)
    requires AllValid(log) && k <= |LogBytes(log)|
    ensures ReplayBytes(LogBytes(log)[..k]).Ok? <==> Boundary(log, k)
    ensures forall j :: 0 <= j <= |log| && End(log, j) == k ==>
              ReplayBytes(LogBytes(log)[..k]) == Ok(Records(log[..j]))
  {
    hide LogBytes, ReplayBytes, Boundary, End, Records;
    PrefixReplays(log, k);
  }

  lemma {:induction false} PrefixReplays(log: seq<Entry>, k: nat)
    requires AllValid(log) && k <= |LogBytes(log)|
    ensures ReplaysAs(log, k, LogBytes(log)[..k])
    decreases log
  {
    hide FrameOf, TakeRecord, ReplaysAs;
    var data := LogBytes(log)[..k];
    if k == 0 {
      EmptyPrefix(log);
    } else {
      var n := |FrameOf(log[0])|;
      FirstRecord(log[0], []);
      if k < n {
        assert data == FrameOf(log[0])[..k];
        CutRecord(log[0], k);
        InsideReplays(log, k);
      } else {
        var tail := LogBytes(log[1..])[..k - n];
        FirstRecord(log[0], tail);
        assert data == FrameOf(log[0]) + tail;
        PrefixReplays(log[1..], k - n);
        ReplayRest(log, k, data, tail);
      }
    }
  }

  lemma {:induction false} EmptyPrefix(log: seq<Entry>)
    requires AllValid(log)
    ensures ReplaysAs(log, 0, LogBytes(log)[..0])
  {
    hide End;
    EndZero(log, 0);
    forall j | 0 <= j <= |log| && End(log, j) == 0 ensures Records(log[..j]) == [] {
      EndZero(log, j);
    }
  }

  lemma {:induction false} InsideReplays(log: seq<Entry>, k: nat)
    requires AllValid(log) && log != [] && 0 < k < |FrameOf(log[0])| && TakeRecord(FrameOf(log[0])[..k]).Err?
    ensures ReplaysAs(log, k, FrameOf(log[0])[..k])
  {
    hide FrameOf, TakeRecord, End, Records;
    BoundaryInside(log, k);
  }

  lemma {:induction false} ReplayRest(log: seq<Entry>, k: nat, data: seq<byte>, tail: seq<byte>)
    requires AllValid(log) && log != [] && data != [] && k >= |FrameOf(log[0])| > 0
    requires TakeRecord(data) == Ok((log[0].rec, tail))
    requires ReplaysAs(log[1..], k - |FrameOf(log[0])|, tail)
    ensures ReplaysAs(log, k, data)
  {
    hide End, FrameOf, TakeRecord, Boundary;
    BoundaryStep(log, k);
    forall j | 0 <= j <= |log| && End(log, j) == k ensures ReplayBytes(data) == Ok(Records(log[..j])) {
      EndZero(log, j);
      EndStep(log, j);
      assert Records(log[..j]) == [log[0].rec] + Records(log[1..][..j - 1]);
    }
  }

  /** Replaying a whole segment gives exactly its records, in order. */
  lemma {:induction false} ReplayExact(log: seq<Entry>)
    requires AllValid(log)
    ensures ReplayBytes(LogBytes(log)) == Ok(Records(log))
  {
    assert log[..|log|] == log;
    assert LogBytes(log)[..|LogBytes(log)|] == LogBytes(log);
    assert End(log, |log|) == |LogBytes(log)|;
    ReplayPrefix(log, |LogBytes(log)|);
  }
}
