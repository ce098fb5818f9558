/** The chunk file writer and reader as they run: one pass over the series or the bytes. */
module Chunk {
  import opened Words
  import opened Model
  import opened Binary
  import opened Crc
  import opened SeriesKey
  import opened GorillaSpec
  import opened Gorilla
  import opened Wal
  import opened ChunkFormat
  import opened Layouts

  /** The label block of a series, keys sorted. */
  method EncodeLabels(labels: Labels) returns (buf: seq<byte>)
    ensures buf == LabelsBytes(labels, SortedKeys(labels.Keys))
    ensures LabelsLayout(buf, labels, SortedKeys(labels.Keys))
  {
    hide LE, LabelsLayout;
    var keys := CollectKeys(labels);
    var sorted := SortStrings(keys);
    CanonicalOrder(keys, labels, sorted);
    CanonicalIsOrder(labels);
    var pairs := EncodePairs(labels, sorted);
    buf := LE(|labels|, 2) + pairs;
    LabelsLaidOut(labels, sorted);
  }

  method EncodeSeries(s: Record) returns (buf: seq<byte>)
    ensures buf == SeriesBytes(s)
  {
    hide LE, LabelsBytes, Encode, SortedKeys, Hash;
    var id := HashSeries(s.metric, s.labels);
    var labels := EncodeLabels(s.labels);
    var compressed := EncodePoints(s.points);
    buf := LE(id, 8);
    buf := buf + (LE(|labels|, 2) + (labels + (LE(|s.points|, 4) + (LE(|compressed|, 4) + compressed))));
  }

  /** Extends the running time range by the points of one series. */
  method TrackRange(ps: seq<Point>, minTS: int64, maxTS: int64) returns (least: int64, most: int64)
    ensures least == MinOf(ps, minTS) && most == MaxOf(ps, maxTS)
  {
    least, most := minTS, maxTS;
    var i := 0;
    while i < |ps|
      invariant 0 <= i <= |ps|
      invariant MinOf(ps[i..], least) == MinOf(ps, minTS)
      invariant MaxOf(ps[i..], most) == MaxOf(ps, maxTS)
    {
      assert ps[i..][0] == ps[i] && ps[i..][1..] == ps[i + 1..];
      if ps[i].ts < least {
        least := ps[i].ts;
      }
      if ps[i].ts > most {
        most := ps[i].ts;
      }
      i := i + 1;
    }
    assert ps[i..] == [];
  }

  method DropEmpty(series: seq<Record>) returns (r: seq<Record>)
    ensures r == NonEmpty(series)
  {
    r := [];
    var i := 0;
    while i < |series|
      invariant 0 <= i <= |series|
      invariant r + NonEmpty(series[i..]) == NonEmpty(series)
    {
      assert series[i..][0] == series[i] && series[i..][1..] == series[i + 1..];
      if |series[i].points| > 0 {
        r := r + [series[i]];
      }
      i := i + 1;
    }
    assert series[i..] == [];
  }

  /** The bytes of the chunk file, or no file at all when no series has points. */
  method WriteChunkFile(series: seq<Record>) returns (written: bool, data: seq<byte>)
    ensures written <==> NonEmpty(series) != []
    ensures written ==> data == FileBytes(NonEmpty(series)) && FileLayout(data, NonEmpty(series))
  {
    hide NonEmpty, FileLayout, HeaderBytes, FooterBytes, Checksum, BodyBytes, MinTS, MaxTS;
    var nonEmpty := DropEmpty(series);
    if |nonEmpty| == 0 {
      return false, [];
    }
    var body, minTS, maxTS := EncodeBody(nonEmpty);
    var header := HeaderBytes(minTS, maxTS);
    var h := new Digest();
    h.Write(header);
    h.Write(body);
    assert [] + header + body == header + body;
    data := header + body + FooterBytes(|nonEmpty|, h.crc);
    FileLaidOut(nonEmpty);
    written := true;
  }

  /** The series blocks, with the time range tracked along the way. */
  method EncodeBody(series: seq<Record>) returns (body: seq<byte>, minTS: int64, maxTS: int64)
    ensures body == BodyBytes(series)
    ensures minTS == MinTS(series, MAX_INT64) && maxTS == MaxTS(series, MIN_INT64)
  {
    hide SeriesBytes, MinOf, MaxOf, BodyBytes, MinTS, MaxTS;
    minTS, maxTS := MAX_INT64, MIN_INT64;
    body := [];
    var i := 0;
    assert series[0..] == series && [] + BodyBytes(series) == BodyBytes(series);
    while i < |series|
      invariant 0 <= i <= |series|
      invariant body + BodyBytes(series[i..]) == BodyBytes(series)
      invariant MinTS(series[i..], minTS) == MinTS(series, MAX_INT64)
      invariant MaxTS(series[i..], maxTS) == MaxTS(series, MIN_INT64)
    {
      BodyStep(series, i, body, minTS, maxTS);
      var block := EncodeSeries(series[i]);
      minTS, maxTS := TrackRange(series[i].points, minTS, maxTS);
      body := body + block;
      i := i + 1;
    }
    assert series[i..] == [];
    NothingEncoded(minTS, maxTS);
  }

  lemma {:induction false} NothingEncoded(minTS: int64, maxTS: int64)
    ensures BodyBytes([]) == [] && MinTS([], minTS) == minTS && MaxTS([], maxTS) == maxTS
  {
  }

  lemma {:induction false} BodyStep(series: seq<Record>, i: nat, body: seq<byte>, minTS: int64, maxTS: int64)
    requires i < |series|
    ensures body + BodyBytes(series[i..]) == body + SeriesBytes(series[i]) + BodyBytes(series[i + 1..])
    ensures MinTS(series[i..], minTS) == MinTS(series[i + 1..], MinOf(series[i].points, minTS))
    ensures MaxTS(series[i..], maxTS) == MaxTS(series[i + 1..], MaxOf(series[i].points, maxTS))
  {
    hide SeriesBytes, MinOf, MaxOf;
    assert series[i..][0] == series[i] && series[i..][1..] == series[i + 1..];
  }

  method ReadSeriesPoints(data: seq<byte>, offset: nat, version: byte, n: nat)
    returns (r: Result<(seq<Point>, nat)>)
    requires offset <= |data|
    ensures match TakeSeriesPoints(data[offset..], version, n)
            case Ok((ps, rest)) => r.Ok? && r.value.0 == ps && offset <= r.value.1 <= |data| && data[r.value.1..] == rest
            case Err(e) => r == Err(e)
  {
    hide FromLE, RawPoints, Decode;
    if version == VERSION_RAW {
      if offset + n * 16 > |data| {
        return Err(UnexpectedEOF);
      }
      var points := ReadRaw(data, offset, n);
      assert data[offset..][16 * n..] == data[offset + 16 * n..];
      return Ok((points, offset + 16 * n));
    } else if version == VERSION_GORILLA {
      if offset + 4 > |data| {
        return Err(UnexpectedEOF);
      }
      var size := FromLE(data[offset..offset + 4]);
      assert data[offset..][..4] == data[offset..offset + 4] && data[offset..][4..] == data[offset + 4..];
      var start := offset + 4;
      if start + size > |data| {
        return Err(UnexpectedEOF);
      }
      assert data[start..][..size] == data[start..start + size] && data[start..][size..] == data[start + size..];
      var points :- DecodePoints(data[start..start + size], n);
      return Ok((points, start + size));
    }
    r := Err(UnknownVersion);
  }

  /** Reads the series block at `offset`; the stored id is skipped. */
  method ReadSeries(data: seq<byte>, offset: nat, version: byte) returns (r: Result<(SeriesData, nat)>)
    requires offset <= |data|
    ensures match TakeSeries(data[offset..], version)
            case Ok((s, rest)) => r.Ok? && r.value.0 == s && offset <= r.value.1 <= |data| && data[r.value.1..] == rest
            case Err(e) => r == Err(e)
  {
    hide FromLE, TakeLabels, TakeSeriesPoints;
    if offset + 8 > |data| {
      return Err(UnexpectedEOF);
    }
    assert data[offset..][8..] == data[offset + 8..];
    var atLabels := offset + 8;
    if atLabels + 2 > |data| {
      return Err(UnexpectedEOF);
    }
    var size := FromLE(data[atLabels..atLabels + 2]);
    assert data[atLabels..][..2] == data[atLabels..atLabels + 2] && data[atLabels..][2..] == data[atLabels + 2..];
    var start := atLabels + 2;
    if start + size > |data| {
      return Err(UnexpectedEOF);
    }
    var block := data[start..start + size];
    assert data[start..][..size] == block && data[start..][size..] == data[start + size..];
    assert block[0..] == block;
    var labels :- ReadLabels(block, 0);
    var atCount := start + size;
    if atCount + 4 > |data| {
      return Err(UnexpectedEOF);
    }
    var count := FromLE(data[atCount..atCount + 4]);
    assert data[atCount..][..4] == data[atCount..atCount + 4] && data[atCount..][4..] == data[atCount + 4..];
    var points :- ReadSeriesPoints(data, atCount + 4, version, count);
    r := Ok((SeriesData(labels.0, points.0), points.1));
  }

  /** The series of a chunk file, after checking its size, magic and checksum. */
  method ReadFile(data: seq<byte>) returns (r: Result<seq<SeriesData>>)
    ensures r == ReadBytes(data)
    ensures |data| < 32 ==> r == Err(FileTooSmall)
    ensures |data| >= 32 && FromLE(data[..4]) != 0x5055_4C53 ==> r == Err(InvalidMagic)
    ensures |data| >= 32 && FromLE(data[..4]) == 0x5055_4C53
            && Checksum(data[..|data| - 8]) != FromLE(data[|data| - 4..]) ==>
              r == Err(CrcMismatch)
    ensures r.Ok? ==> |data| >= 32 && |r.value| == FromLE(data[|data| - 8..|data| - 4])
    ensures r.Ok? && r.value != [] ==> data[4] == 1 || data[4] == 2
  {
    hide FromLE, Checksum, TakeSeries;
    if |data| < HEADER_SIZE + FOOTER_SIZE {
      return Err(FileTooSmall);
    }
    if FromLE(data[0..4]) != MAGIC {
      return Err(InvalidMagic);
    }
    var version := data[4];
    var end := |data| - FOOTER_SIZE;
    var count := FromLE(data[end..end + 4]);
    assert data[end + 4..end + 8] == data[end + 4..];
    if Checksum(data[..end]) != FromLE(data[end + 4..end + 8]) {
      return Err(CrcMismatch);
    }
    var body := data[HEADER_SIZE..end];
    var series: seq<SeriesData> := [];
    var pos, i := 0, 0;
    assert body[0..] == body;
    ResumeNone(TakeAllSeries(body, version, count));
    while i < count
      invariant 0 <= i <= count && 0 <= pos <= |body|
      invariant |series| == i && (i > 0 ==> version == 1 || version == 2)
      invariant ReadBytes(data) == ResumeSeries(series, TakeAllSeries(body[pos..], version, count - i))
    {
      var next :- ReadSeries(body, pos, version);
      KnownVersion(body[pos..], version);
      ResumeOne(series, next.0, TakeAllSeries(body[next.1..], version, count - i - 1));
      series := series + [next.0];
      pos := next.1;
      i := i + 1;
    }
    assert series + [] == series;
    r := Ok(series);
  }

  lemma {:induction false} KnownVersion(data: seq<byte>, version: byte)
    requires TakeSeries(data, version).Ok?
    ensures version == 1 || version == 2
  {
    hide FromLE, TakeLabels, RawPoints, Decode;
  }

  ghost function ResumeSeries(done: seq<SeriesData>, r: Result<seq<SeriesData>>): Result<seq<SeriesData>> {
    match r
    case Ok(more) => Ok(done + more)
    case Err(e) => Err(e)
  }

  lemma {:induction false} ResumeNone(r: Result<seq<SeriesData>>)
    ensures ResumeSeries([], r) == r
  {
    if r.Ok? {
      assert [] + r.value == r.value;
    }
  }

  lemma {:induction false} ResumeOne(done: seq<SeriesData>, s: SeriesData, r: Result<seq<SeriesData>>)
    ensures ResumeSeries(done, ResumeSeries([s], r)) == ResumeSeries(done + [s], r)
  {
    if r.Ok? {
      assert done + ([s] + r.value) == done + [s] + r.value;
    }
  }

  /** Reads only the header. */
  method ChunkTimeRange(data: seq<byte>) returns (r: Result<(int64, int64)>)
    ensures r == RangeBytes(data)
    ensures |data| < 24 ==> r == Err(UnexpectedEOF)
    ensures |data| >= 24 && FromLE(data[..4]) != 0x5055_4C53 ==> r == Err(InvalidMagic)
    ensures |data| >= 24 && FromLE(data[..4]) == 0x5055_4C53 ==>
              r.Ok? && ToUint(r.value.0) == FromLE(data[8..16]) && ToUint(r.value.1) == FromLE(data[16..24])
  {
    hide FromLE;
    if |data| < HEADER_SIZE {
      return Err(UnexpectedEOF);
    }
    if FromLE(data[0..4]) != MAGIC {
      return Err(InvalidMagic);
    }
    WordBound(data[8..16]);
    WordBound(data[16..24]);
    r := Ok((ToInt(FromLE(data[8..16])), ToInt(FromLE(data[16..24]))));
  }
}
