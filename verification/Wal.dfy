/** The write-ahead log as it runs: appending records to a segment and replaying one. */
module Wal {
  import opened Words
  import opened Model
  import opened Binary
  import opened Crc
  import opened SeriesKey
  import opened WalFormat
  import opened Layouts

  /** Appends the fields in turn; the labels come in map iteration order. */
  method EncodeRecord(rec: Record) returns (buf: seq<byte>, order: seq<Str>)
    ensures IsOrder(order, rec.labels)
    ensures buf == RecordBytes(rec, order) && RecordLayout(buf, rec, order)
  {
    hide LE, RecordLayout;
    order := CollectKeys(rec.labels);
    OrderLength(order, rec.labels);
    buf := LE(|rec.metric|, 2) + rec.metric;
    buf := buf + LE(|rec.labels|, 2);
    var pairs := EncodePairs(rec.labels, order);
    buf := buf + pairs;
    buf := buf + LE(|rec.points|, 2);
    var raw := EncodeRaw(rec.points);
    buf := buf + raw;
    assert buf == RecordBytes(rec, order);
    RecordLaidOut(rec, order);
  }

  method EncodePairs(labels: Labels, order: seq<Str>) returns (buf: seq<byte>)
    requires forall k :: k in order ==> k in labels
    ensures buf == PairsBytes(labels, order)
  {
    buf := [];
    var i := 0;
    while i < |order|
      invariant 0 <= i <= |order|
      invariant buf + PairsBytes(labels, order[i..]) == PairsBytes(labels, order)
    {
      hide PairsBytes, StrBytes;
      PairsStep(labels, order, i, buf);
      buf := buf + StrBytes(order[i]) + StrBytes(labels[order[i]]);
      i := i + 1;
    }
    assert order[i..] == [];
  }

  lemma {:induction false} PairsStep(labels: Labels, order: seq<Str>, i: nat, buf: seq<byte>)
    requires i < |order| && forall k :: k in order ==> k in labels
    ensures buf + PairsBytes(labels, order[i..])
         == buf + StrBytes(order[i]) + StrBytes(labels[order[i]]) + PairsBytes(labels, order[i + 1..])
  {
    assert order[i..][0] == order[i] && order[i..][1..] == order[i + 1..];
  }

  method EncodeRaw(ps: seq<Point>) returns (buf: seq<byte>)
    ensures buf == RawBytes(ps)
  {
    buf := [];
    var i := 0;
    while i < |ps|
      invariant 0 <= i <= |ps|
      invariant buf + RawBytes(ps[i..]) == RawBytes(ps)
    {
      hide RawBytes, LE;
      RawStep(ps, i, buf);
      buf := buf + LE(ToUint(ps[i].ts), 8) + LE(ps[i].bits, 8);
      i := i + 1;
    }
    assert ps[i..] == [];
  }

  lemma {:induction false} RawStep(ps: seq<Point>, i: nat, buf: seq<byte>)
    requires i < |ps|
    ensures buf + RawBytes(ps[i..]) == buf + LE(ToUint(ps[i].ts), 8) + LE(ps[i].bits, 8) + RawBytes(ps[i + 1..])
  {
    assert ps[i..][0] == ps[i] && ps[i..][1..] == ps[i + 1..];
  }

  /** Reads a length-prefixed string at `offset`. */
  method ReadStr(data: seq<byte>, offset: nat) returns (r: Result<(Str, nat)>)
    requires offset <= |data|
    ensures match TakeStr(data[offset..])
            case Ok((s, rest)) => r.Ok? && r.value.0 == s && offset <= r.value.1 <= |data| && data[r.value.1..] == rest
            case Err(e) => r == Err(e)
  {
    if offset + 2 > |data| {
      return Err(UnexpectedEOF);
    }
    var n := FromLE(data[offset..offset + 2]);
    assert data[offset..][..2] == data[offset..offset + 2];
    assert data[offset..][2..] == data[offset + 2..];
    if offset + 2 + n > |data| {
      return Err(UnexpectedEOF);
    }
    assert data[offset + 2..][..n] == data[offset + 2..offset + 2 + n];
    assert data[offset + 2..][n..] == data[offset + 2 + n..];
    r := Ok((data[offset + 2..offset + 2 + n], offset + 2 + n));
  }

  /** Reads a label block at `offset`. */
  method ReadLabels(data: seq<byte>, offset: nat) returns (r: Result<(Labels, nat)>)
    requires offset <= |data|
    ensures match TakeLabels(data[offset..])
            case Ok((ls, rest)) => r.Ok? && r.value.0 == ls && offset <= r.value.1 <= |data| && data[r.value.1..] == rest
            case Err(e) => r == Err(e)
  {
    hide TakeStr, FromLE;
    if offset + 2 > |data| {
      return Err(UnexpectedEOF);
    }
    var count := FromLE(data[offset..offset + 2]);
    assert data[offset..][..2] == data[offset..offset + 2];
    assert data[offset..][2..] == data[offset + 2..];
    var labels: Labels := map[];
    var pos := offset + 2;
    var i := 0;
    while i < count
      invariant 0 <= i <= count
      invariant offset + 2 <= pos <= |data|
      invariant TakeLabels(data[offset..]) == TakePairs(data[pos..], count - i, labels)
    {
      var key :- ReadStr(data, pos);
      var val :- ReadStr(data, key.1);
      labels := labels[key.0 := val.0];
      pos := val.1;
      i := i + 1;
    }
    r := Ok((labels, pos));
  }

  lemma {:induction false} WordBound(s: seq<byte>)
    requires |s| == 8
    ensures FromLE(s) < TWO_64
  {
    FromLEBound(s);
    Widths();
  }

  lemma {:induction false} RawPointStep(data: seq<byte>, pos: nat, n: nat)
    requires pos + 16 * n <= |data| && n > 0
    ensures FromLE(data[pos..pos + 8]) < TWO_64 && FromLE(data[pos + 8..pos + 16]) < TWO_64
    ensures RawPoints(data[pos..], n)
         == [Point(ToInt(FromLE(data[pos..pos + 8])), FromLE(data[pos + 8..pos + 16]))]
            + RawPoints(data[pos + 16..], n - 1)
  {
    hide FromLE, ToInt;
    var ts, bits := data[pos..pos + 8], data[pos + 8..pos + 16];
    WordBound(ts);
    WordBound(bits);
    assert data[pos..][..8] == ts && data[pos..][8..16] == bits && data[pos..][16..] == data[pos + 16..];
  }

  lemma {:induction false} NoRawPoints(data: seq<byte>)
    ensures forall pos :: 0 <= pos <= |data| ==> RawPoints(data[pos..], 0) == []
  {
  }

  /** Reads n raw points at `offset`, which the caller has checked to be there. */
  method ReadRaw(data: seq<byte>, offset: nat, n: nat) returns (ps: seq<Point>)
    requires offset + 16 * n <= |data|
    ensures ps == RawPoints(data[offset..], n)
  {
    hide FromLE, RawPoints, ToInt;
    ps := [];
    NoRawPoints(data);
    var pos, i := offset, 0;
    while i < n
      invariant 0 <= i <= n && pos == offset + 16 * i
      invariant ps + RawPoints(data[pos..], n - i) == RawPoints(data[offset..], n)
    {
      var ts, bits := data[pos..pos + 8], data[pos + 8..pos + 16];
      RawPointStep(data, pos, n - i);
      ps := ps + [Point(ToInt(FromLE(ts)), FromLE(bits))];
      pos := pos + 16;
      i := i + 1;
    }
  }

  method DecodeRecord(data: seq<byte>) returns (r: Result<Record>)
    ensures r == DecodeBytes(data)
  {
    hide TakeStr, TakeLabels, FromLE, RawPoints;
    assert data[0..] == data;
    var metric :- ReadStr(data, 0);
    var labels :- ReadLabels(data, metric.1);
    var offset := labels.1;
    if offset + 2 > |data| {
      return Err(UnexpectedEOF);
    }
    var count := FromLE(data[offset..offset + 2]);
    assert data[offset..][..2] == data[offset..offset + 2];
    assert data[offset..][2..] == data[offset + 2..];
    offset := offset + 2;
    if offset + 16 * count > |data| {
      return Err(UnexpectedEOF);
    }
    var points := ReadRaw(data, offset, count);
    r := Ok(Record(metric.0, labels.0, points));
  }

  /** The frame of a record: length, checksum, payload. */
  method FrameRecord(rec: Record) returns (frame: seq<byte>, ghost order: seq<Str>)
    ensures IsOrder(order, rec.labels) && frame == Frame(RecordBytes(rec, order))
    ensures |frame| >= 8 && FrameLayout(frame, frame[8..]) && RecordLayout(frame[8..], rec, order)
  {
    hide RecordBytes, LE, Checksum, RecordLayout, FrameLayout;
    var payload;
    payload, order := EncodeRecord(rec);
    frame := LE(|payload|, 4);
    frame := frame + LE(Checksum(payload), 4);
    frame := frame + payload;
    FrameLaidOut(payload);
    assert frame[8..] == payload;
  }

  /** All lengths of a record fit their fields in the log. */
  ghost predicate Loggable(rec: Record) {
    ShortNames(rec) && |rec.points| <= 0xFFFF && |BlockBytes(rec.labels)| < 0x1_0000
  }

  lemma {:induction false} FrameReplays(data: seq<byte>, rec: Record, order: seq<Str>)
    requires IsOrder(order, rec.labels)
    ensures Loggable(rec) && ReplayBytes(data).Ok? ==>
              ReplayBytes(data + Frame(RecordBytes(rec, order))) == Ok(ReplayBytes(data).value + [rec])
  {
    hide RecordBytes, Frame, ReplayBytes, BlockBytes, ShortNames;
    if Loggable(rec) && ReplayBytes(data).Ok? {
      PayloadFits(rec, order);
      ReplayAppend(data, rec, order);
      KeptAll(rec);
    }
  }

  /** One open segment file. */
  class Segment {
    var bytes: seq<byte>

    constructor ()
      ensures bytes == []
    {
      bytes := [];
    }

    /** Appends one frame; when the record's lengths fit, that appends the record to what the
        file replays to. */
    method Write(rec: Record) returns (ghost order: seq<Str>)
      modifies this
      ensures IsOrder(order, rec.labels) && bytes == old(bytes) + Frame(RecordBytes(rec, order))
      ensures Loggable(rec) && ReplayBytes(old(bytes)).Ok? ==>
                ReplayBytes(bytes) == Ok(ReplayBytes(old(bytes)).value + [rec])
    {
      hide RecordBytes, Frame, ReplayBytes, Loggable;
      var frame;
      frame, order := FrameRecord(rec);
      FrameReplays(bytes, rec, order);
      bytes := bytes + frame;
    }
  }

  /** Reads the frame at `pos`. */
  method ReadFrame(data: seq<byte>, pos: nat) returns (r: Result<(Record, nat)>)
    requires pos < |data|
    ensures match TakeRecord(data[pos..])
            case Ok((rec, rest)) => r.Ok? && r.value.0 == rec && pos < r.value.1 <= |data| && data[r.value.1..] == rest
            case Err(e) => r == Err(e)
    ensures pos + 8 > |data| ==> r == Err(UnexpectedEOF)
    ensures pos + 8 <= |data| && FromLE(data[pos..pos + 4]) > |data| - pos - 8 ==> r == Err(UnexpectedEOF)
    ensures pos + 8 <= |data| && FromLE(data[pos..pos + 4]) <= |data| - pos - 8 ==>
              var end := pos + 8 + FromLE(data[pos..pos + 4]);
              && (Checksum(data[pos + 8..end]) != FromLE(data[pos + 4..pos + 8]) ==> r == Err(CrcMismatch))
              && (r.Ok? ==> r.value.1 == end)
  {
    hide FromLE, Checksum, DecodeBytes;
    if pos + 8 > |data| {
      return Err(UnexpectedEOF);
    }
    var header := data[pos..pos + 8];
    var n, expected := FromLE(header[..4]), FromLE(header[4..8]);
    assert header[..4] == data[pos..pos + 4] && header[4..8] == data[pos + 4..pos + 8];
    assert data[pos..][..8] == header && data[pos..][8..] == data[pos + 8..] && header[4..8] == header[4..];
    if pos + 8 + n > |data| {
      return Err(UnexpectedEOF);
    }
    var payload := data[pos + 8..pos + 8 + n];
    assert data[pos + 8..][..n] == payload && data[pos + 8..][n..] == data[pos + 8 + n..];
    if Checksum(payload) != expected {
      return Err(CrcMismatch);
    }
    var rec :- DecodeRecord(payload);
    r := Ok((rec, pos + 8 + n));
  }

  /** Reads frames until the end of the file; a short or corrupt frame is an error. */
  method Replay(data: seq<byte>) returns (r: Result<seq<Record>>)
    ensures r == ReplayBytes(data)
  {
    hide TakeRecord;
    var recs: seq<Record> := [];
    var pos := 0;
    assert data[0..] == data;
    PrependNone(ReplayBytes(data));
    while pos < |data|
      invariant 0 <= pos <= |data|
      invariant ReplayBytes(data) == Prepend(recs, ReplayBytes(data[pos..]))
    {
      var next :- ReadFrame(data, pos);
      PrependOne(recs, next.0, ReplayBytes(data[next.1..]));
      recs := recs + [next.0];
      pos := next.1;
    }
    assert recs + [] == recs;
    r := Ok(recs);
  }

  ghost function Prepend(recs: seq<Record>, r: Result<seq<Record>>): Result<seq<Record>> {
    match r
    case Ok(more) => Ok(recs + more)
    case Err(e) => Err(e)
  }

  lemma {:induction false} PrependNone(r: Result<seq<Record>>)
    ensures Prepend([], r) == r
  {
    if r.Ok? {
      assert [] + r.value == r.value;
    }
  }

  lemma {:induction false} PrependOne(recs: seq<Record>, rec: Record, r: Result<seq<Record>>)
    ensures Prepend(recs, Prepend([rec], r)) == Prepend(recs + [rec], r)
  {
    if r.Ok? {
      assert recs + ([rec] + r.value) == recs + [rec] + r.value;
    }
  }
}
