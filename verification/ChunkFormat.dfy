/** The chunk file on disk: header with the time range, one block per series, footer. */
module ChunkFormat {
  import opened Words
  import opened Model
  import opened Binary
  import opened Crc
  import opened SeriesKey
  import opened GorillaSpec
  import opened GorillaProofs

  const MAGIC: nat := 0x5055_4C53
  const VERSION_RAW: byte := 1
  const VERSION_GORILLA: byte := 2
  const HEADER_SIZE: nat := 24
  const FOOTER_SIZE: nat := 8
  const MIN_INT64: int64 := -TWO_63
  const MAX_INT64: int64 := TWO_63 - 1

  // ---- writing ----

  /** The series that have points; the others are not written. */
  function NonEmpty(series: seq<Record>): (r: seq<Record>)
    ensures forall s :: s in r <==> s in series && s.points != []
  {
    if series == [] then []
    else if series[0].points != [] then [series[0]] + NonEmpty(series[1..])
    else NonEmpty(series[1..])
  }

  /** [id: uint64][labels_len: uint16][labels][points_count: uint32][compressed_len: uint32][compressed] */
  ghost function SeriesBytes(s: Record): seq<byte> {
    var labels := LabelsBytes(s.labels, SortedKeys(s.labels.Keys));
    var compressed := Encode(s.points);
    LE(Hash(s.Key()), 8) + (LE(|labels|, 2) + (labels
    + (LE(|s.points|, 4) + (LE(|compressed|, 4) + compressed))))
  }

  ghost function BodyBytes(series: seq<Record>): seq<byte> {
    if series == [] then [] else SeriesBytes(series[0]) + BodyBytes(series[1..])
  }

  function MinOf(ps: seq<Point>, least: int64): int64
    decreases ps
  {
    if ps == [] then least else MinOf(ps[1..], if ps[0].ts < least then ps[0].ts else least)
  }

  function MaxOf(ps: seq<Point>, most: int64): int64
    decreases ps
  {
    if ps == [] then most else MaxOf(ps[1..], if ps[0].ts > most then ps[0].ts else most)
  }

  function MinTS(series: seq<Record>, least: int64): int64
    decreases series
  {
    if series == [] then least else MinTS(series[1..], MinOf(series[0].points, least))
  }

  function MaxTS(series: seq<Record>, most: int64): int64
    decreases series
  {
    if series == [] then most else MaxTS(series[1..], MaxOf(series[0].points, most))
  }

  /** [magic: uint32][version][3 zero bytes][min_ts: int64][max_ts: int64] */
  function HeaderBytes(minTS: int64, maxTS: int64): (s: seq<byte>)
    ensures |s| == HEADER_SIZE
  {
    LE(MAGIC, 4) + ([VERSION_GORILLA, 0, 0, 0] + (LE(ToUint(minTS), 8) + LE(ToUint(maxTS), 8)))
  }

  /** [series_count: uint32][crc32: uint32] */
  function FooterBytes(count: nat, checksum: nat): (s: seq<byte>)
    ensures |s| == FOOTER_SIZE
  {
    LE(count, 4) + LE(checksum, 4)
  }

  /** The file written for a list of non-empty series. */
  ghost function FileBytes(series: seq<Record>): seq<byte> {
    var front := HeaderBytes(MinTS(series, MAX_INT64), MaxTS(series, MIN_INT64)) + BodyBytes(series);
    front + FooterBytes(|series|, Checksum(front))
  }

  // ---- reading ----

  function TakeSeriesPoints(data: seq<byte>, version: byte, n: nat): Result<(seq<Point>, seq<byte>)> {
    if version == VERSION_RAW then TakeRaw(data, n)
    else if version == VERSION_GORILLA then
      var (size, r1) :- TakeUint(data, 4);
      var (compressed, rest) :- TakeBytes(r1, size);
      var points :- Decode(compressed, n);
      Ok((points, rest))
    else Err(UnknownVersion)
  }

  function TakeSeries(data: seq<byte>, version: byte): Result<(SeriesData, seq<byte>)> {
    var (_, r1) :- TakeBytes(data, 8);
    var (size, r2) :- TakeUint(r1, 2);
    var (block, r3) :- TakeBytes(r2, size);
    var (labels, _) :- TakeLabels(block);
    var (n, r4) :- TakeUint(r3, 4);
    var (points, rest) :- TakeSeriesPoints(r4, version, n);
    Ok((SeriesData(labels, points), rest))
  }

  function TakeAllSeries(data: seq<byte>, version: byte, n: nat): Result<seq<SeriesData>>
    decreases n
  {
    if n == 0 then Ok([])
    else
      var (s, rest) :- TakeSeries(data, version);
      var more :- TakeAllSeries(rest, version, n - 1);
      Ok([s] + more)
  }

  /** What reading a chunk file gives. */
  function ReadBytes(data: seq<byte>): Result<seq<SeriesData>> {
    if |data| < HEADER_SIZE + FOOTER_SIZE then Err(FileTooSmall)
    else if FromLE(data[..4]) != MAGIC then Err(InvalidMagic)
    else
      var end := |data| - FOOTER_SIZE;
      if Checksum(data[..end]) != FromLE(data[end + 4..]) then Err(CrcMismatch)
      else TakeAllSeries(data[HEADER_SIZE..end], data[4], FromLE(data[end..end + 4]))
  }

  /** What reading only the header gives: the time range. */
  function RangeBytes(data: seq<byte>): Result<(int64, int64)> {
    if |data| < HEADER_SIZE then Err(UnexpectedEOF)
    else if FromLE(data[..4]) != MAGIC then Err(InvalidMagic)
    else
      FromLEBound(data[8..16]);
      FromLEBound(data[16..24]);
      Widths();
      Ok((ToInt(FromLE(data[8..16])), ToInt(FromLE(data[16..24]))))
  }

  // ---- round trip ----

  /** All lengths of one series fit their fields; 2^27 points always compress into 32 bits. */
  ghost predicate Fits(s: Record) {
    && s.points != [] && |s.points| <= 0x800_0000
    && ShortLabels(s.labels)
    && |BlockBytes(s.labels)| < 0x1_0000
  }

  ghost predicate AllFit(series: seq<Record>) {
    forall i :: 0 <= i < |series| ==> Fits(series[i])
  }

  /** What a file keeps of a series. */
  function DataOf(s: Record): SeriesData {
    SeriesData(s.labels, s.points)
  }

  function AllData(series: seq<Record>): seq<SeriesData> {
    if series == [] then [] else [DataOf(series[0])] + AllData(series[1..])
  }

  lemma {:induction false} CompressedFits(ps: seq<Point>)
    requires ps != [] && |ps| <= 0x800_0000
    ensures |Encode(ps)| < 0x1_0000_0000
  {
    if |ps| >= 2 {
      SizeBound(ps);
    }
  }

  lemma {:induction false} PointsBack(s: Record, rest: seq<byte>)
    requires Fits(s)
    ensures
      var compressed := Encode(s.points);
      TakeSeriesPoints(LE(|compressed|, 4) + (compressed + rest), VERSION_GORILLA, |s.points|)
        == Ok((s.points, rest))
  {
    hide LE, TakeUint, Encode, Decode, LabelsBytes, ShortLabels, SortedKeys;
    var compressed := Encode(s.points);
    CompressedFits(s.points);
    Take32(|compressed|, compressed + rest);
    TakeBytesBack(compressed, rest);
    RoundTrip(s.points);
  }

  /** A series of version 1 holds its points as they are, 16 bytes each. */
  lemma {:induction false} RawPointsBack(ps: seq<Point>, rest: seq<byte>)
    ensures TakeSeriesPoints(RawBytes(ps) + rest, 1, |ps|) == Ok((ps, rest))
  {
    hide RawBytes, RawPoints, Decode, FromLE;
    RawRoundTrip(ps, |ps|, rest);
    assert ps[..|ps|] == ps;
  }

  lemma {:induction false} SeriesBack(s: Record, rest: seq<byte>)
    requires Fits(s)
    ensures TakeSeries(SeriesBytes(s) + rest, VERSION_GORILLA) == Ok((DataOf(s), rest))
  {
    hide LE, TakeUint, Encode, LabelsBytes, ShortLabels, SortedKeys, TakeSeriesPoints, TakeLabels, Hash;
    var labels := LabelsBytes(s.labels, SortedKeys(s.labels.Keys));
    var compressed := Encode(s.points);
    var r4 := LE(|compressed|, 4) + (compressed + rest);
    var r3 := LE(|s.points|, 4) + r4;
    var r2 := labels + r3;
    var r1 := LE(|labels|, 2) + r2;
    assert SeriesBytes(s) + rest == LE(Hash(s.Key()), 8) + r1 by {
      Regroup6(LE(Hash(s.Key()), 8), LE(|labels|, 2), labels, LE(|s.points|, 4), LE(|compressed|, 4), compressed, rest);
    }
    TakeBytesBack(LE(Hash(s.Key()), 8), r1);
    Take16(|labels|, r2);
    TakeBytesBack(labels, r3);
    LabelsBack(s.labels);
    Take32(|s.points|, r4);
    PointsBack(s, rest);
  }

  lemma {:induction false} LabelsBack(labels: Labels)
    requires ShortLabels(labels)
    ensures TakeLabels(LabelsBytes(labels, SortedKeys(labels.Keys))) == Ok((labels, []))
  {
    hide TakeLabels, LabelsBytes, ShortLabels, SortedKeys;
    CanonicalIsOrder(labels);
    LabelsRoundTrip(labels, SortedKeys(labels.Keys), []);
    assert LabelsBytes(labels, SortedKeys(labels.Keys)) + [] == LabelsBytes(labels, SortedKeys(labels.Keys));
  }

  lemma {:induction false} Regroup6(
    a: seq<byte>, b: seq<byte>, c: seq<byte>, d: seq<byte>, e: seq<byte>, f: seq<byte>, g: seq<byte>)
    ensures a + (b + (c + (d + (e + f)))) + g == a + (b + (c + (d + (e + (f + g)))))
  {
  }

  lemma {:induction false} BodyBack(series: seq<Record>)
    requires AllFit(series)
    ensures TakeAllSeries(BodyBytes(series), VERSION_GORILLA, |series|) == Ok(AllData(series))
    decreases series
  {
    hide SeriesBytes, TakeSeries, Fits;
    if series != [] {
      SeriesBack(series[0], BodyBytes(series[1..]));
      BodyBack(series[1..]);
    }
  }

  lemma {:induction false} HeaderFields(minTS: int64, maxTS: int64)
    ensures
      var h := HeaderBytes(minTS, maxTS);
      && FromLE(h[..4]) == MAGIC && h[4] == VERSION_GORILLA
      && FromLE(h[8..16]) == ToUint(minTS) && FromLE(h[16..24]) == ToUint(maxTS)
  {
    hide LE, FromLE, ToUint;
    var h := HeaderBytes(minTS, maxTS);
    LE32(MAGIC);
    LE64(ToUint(minTS));
    LE64(ToUint(maxTS));
    assert h[..4] == LE(MAGIC, 4);
    assert h[8..16] == LE(ToUint(minTS), 8);
    assert h[16..24] == LE(ToUint(maxTS), 8);
  }

  lemma {:induction false} FooterFields(count: nat, checksum: nat)
    requires count < 0x1_0000_0000 && checksum < 0x1_0000_0000
    ensures
      var f := FooterBytes(count, checksum);
      FromLE(f[..4]) == count && FromLE(f[4..]) == checksum
  {
    hide LE, FromLE;
    var f := FooterBytes(count, checksum);
    LE32(count);
    LE32(checksum);
    assert f[..4] == LE(count, 4) && f[4..] == LE(checksum, 4);
  }

  lemma {:induction false} FileParts(h: seq<byte>, body: seq<byte>, f: seq<byte>)
    requires |h| == HEADER_SIZE && |f| == FOOTER_SIZE
    ensures
      var data := h + body + f;
      var end := |data| - FOOTER_SIZE;
      && data[..4] == h[..4] && data[4] == h[4] && data[8..16] == h[8..16] && data[16..24] == h[16..24]
      && data[..end] == h + body && data[HEADER_SIZE..end] == body
      && data[end..end + 4] == f[..4] && data[end + 4..] == f[4..]
  {
  }

  lemma {:induction false} ReadsBody(series: seq<Record>)
    requires |series| < 0x1_0000_0000
    ensures ReadBytes(FileBytes(series)) == TakeAllSeries(BodyBytes(series), VERSION_GORILLA, |series|)
  {
    hide HeaderBytes, FooterBytes, BodyBytes, Checksum, FromLE, TakeAllSeries, MinTS, MaxTS;
    var minTS, maxTS := MinTS(series, MAX_INT64), MaxTS(series, MIN_INT64);
    var h, body := HeaderBytes(minTS, maxTS), BodyBytes(series);
    ChecksumBound(h + body);
    FileParts(h, body, FooterBytes(|series|, Checksum(h + body)));
    HeaderFields(minTS, maxTS);
    FooterFields(|series|, Checksum(h + body));
  }

  /** Reading back a written file gives exactly its series, in order, with their labels and
      points; the checksum matches. */
  lemma {:induction false} FileRoundTrip(series: seq<Record>)
    requires AllFit(series) && |series| < 0x1_0000_0000
    ensures ReadBytes(FileBytes(series)) == Ok(AllData(series))
  {
    hide FileBytes, ReadBytes, BodyBytes, TakeAllSeries, AllData, AllFit;
    ReadsBody(series);
    BodyBack(series);
  }

  // ---- when a file reads back ----

  /** Every length of the series fits its field, except perhaps that of the label block. */
  ghost predicate FitsButBlock(s: Record) {
    s.points != [] && |s.points| <= 0x800_0000 && ShortLabels(s.labels)
  }

  /** The stored length of an oversized block cuts it short, and reading the series fails. */
  lemma {:induction false} OversizedBlock(s: Record, rest: seq<byte>)
    requires FitsButBlock(s) && |BlockBytes(s.labels)| >= 0x1_0000
    ensures TakeSeries(SeriesBytes(s) + rest, VERSION_GORILLA).Err?
  {
    hide LE, TakeUint, Encode, LabelsBytes, ShortLabels, SortedKeys, TakeSeriesPoints, TakeLabels, Hash;
    var labels := BlockBytes(s.labels);
    var compressed := Encode(s.points);
    var r3 := LE(|s.points|, 4) + (LE(|compressed|, 4) + (compressed + rest));
    var r2 := labels + r3;
    var r1 := LE(|labels|, 2) + r2;
    assert SeriesBytes(s) + rest == LE(Hash(s.Key()), 8) + r1 by {
      Regroup6(LE(Hash(s.Key()), 8), LE(|labels|, 2), labels, LE(|s.points|, 4), LE(|compressed|, 4), compressed, rest);
    }
    TakeBytesBack(LE(Hash(s.Key()), 8), r1);
    Take16(|labels|, r2);
    var size := |labels| % 0x1_0000;
    assert r2[..size] == labels[..size];
    CanonicalIsOrder(s.labels);
    CutLabels(s.labels, SortedKeys(s.labels.Keys), size);
  }

  lemma {:induction false} BodyExactly(series: seq<Record>)
    requires forall i :: 0 <= i < |series| ==> FitsButBlock(series[i])
    ensures TakeAllSeries(BodyBytes(series), VERSION_GORILLA, |series|).Ok? <==> AllFit(series)
    decreases series
  {
    hide SeriesBytes, TakeSeries, LabelsBytes, ShortLabels, SortedKeys;
    if series != [] {
      var rest := BodyBytes(series[1..]);
      if |BlockBytes(series[0].labels)| >= 0x1_0000 {
        OversizedBlock(series[0], rest);
        assert !Fits(series[0]);
      } else {
        assert Fits(series[0]);
        SeriesBack(series[0], rest);
        BodyExactly(series[1..]);
      }
    }
  }

  /** With all other lengths fitting, a written file reads back if and only if every label
      block is shorter than 2^16 bytes; otherwise reading it fails as a whole. */
  lemma {:induction false} ReadsBackExactly(series: seq<Record>)
    requires forall i :: 0 <= i < |series| ==> FitsButBlock(series[i])
    requires |series| < 0x1_0000_0000
    ensures ReadBytes(FileBytes(series)) == Ok(AllData(series))
       <==> forall i :: 0 <= i < |series| ==> |BlockBytes(series[i].labels)| < 0x1_0000
    ensures ReadBytes(FileBytes(series)).Ok?
       <==> forall i :: 0 <= i < |series| ==> |BlockBytes(series[i].labels)| < 0x1_0000
  {
    hide FileBytes, ReadBytes, BodyBytes, TakeAllSeries, AllData, LabelsBytes, ShortLabels, SortedKeys;
    ReadsBody(series);
    BodyExactly(series);
    if forall i :: 0 <= i < |series| ==> |BlockBytes(series[i].labels)| < 0x1_0000 {
      assert AllFit(series);
      FileRoundTrip(series);
    }
  }

  /** The header of a written file reads as the fold of its timestamps. */
  lemma {:induction false} RangeRoundTrip(series: seq<Record>)
    ensures RangeBytes(FileBytes(series)) == Ok((MinTS(series, MAX_INT64), MaxTS(series, MIN_INT64)))
  {
    hide HeaderBytes, FooterBytes, BodyBytes, Checksum, FromLE, MinTS, MaxTS;
    var minTS, maxTS := MinTS(series, MAX_INT64), MaxTS(series, MIN_INT64);
    var h, body := HeaderBytes(minTS, maxTS), BodyBytes(series);
    FileParts(h, body, FooterBytes(|series|, Checksum(h + body)));
    HeaderFields(minTS, maxTS);
  }

  // ---- the time range is exact ----

  lemma {:induction false} MinOfExact(ps: seq<Point>, least: int64)
    ensures MinOf(ps, least) <= least && forall p :: p in ps ==> MinOf(ps, least) <= p.ts
    ensures MinOf(ps, least) == least || exists p :: p in ps && p.ts == MinOf(ps, least)
    decreases ps
  {
    if ps != [] {
      MinOfExact(ps[1..], if ps[0].ts < least then ps[0].ts else least);
      assert ps[0] in ps;
    }
  }

  lemma {:induction false} MaxOfExact(ps: seq<Point>, most: int64)
    ensures MaxOf(ps, most) >= most && forall p :: p in ps ==> MaxOf(ps, most) >= p.ts
    ensures MaxOf(ps, most) == most || exists p :: p in ps && p.ts == MaxOf(ps, most)
    decreases ps
  {
    if ps != [] {
      MaxOfExact(ps[1..], if ps[0].ts > most then ps[0].ts else most);
      assert ps[0] in ps;
    }
  }

  ghost predicate Holds(series: seq<Record>, ts: int64) {
    exists s, p :: s in series && p in s.points && p.ts == ts
  }

  lemma {:induction false} MinExact(series: seq<Record>, least: int64)
    ensures MinTS(series, least) <= least
    ensures forall s, p :: s in series && p in s.points ==> MinTS(series, least) <= p.ts
    ensures MinTS(series, least) == least || Holds(series, MinTS(series, least))
    decreases series
  {
    if series != [] {
      var next := MinOf(series[0].points, least);
      MinOfExact(series[0].points, least);
      MinExact(series[1..], next);
      var m := MinTS(series, least);
      if m == next && next != least {
        var p :| p in series[0].points && p.ts == next;
        assert series[0] in series;
      } else if m != next {
        var s, p :| s in series[1..] && p in s.points && p.ts == m;
        assert s in series;
      }
    }
  }

  lemma {:induction false} MaxExact(series: seq<Record>, most: int64)
    ensures MaxTS(series, most) >= most
    ensures forall s, p :: s in series && p in s.points ==> MaxTS(series, most) >= p.ts
    ensures MaxTS(series, most) == most || Holds(series, MaxTS(series, most))
    decreases series
  {
    if series != [] {
      var next := MaxOf(series[0].points, most);
      MaxOfExact(series[0].points, most);
      MaxExact(series[1..], next);
      var m := MaxTS(series, most);
      if m == next && next != most {
        var p :| p in series[0].points && p.ts == next;
        assert series[0] in series;
      } else if m != next {
        var s, p :| s in series[1..] && p in s.points && p.ts == m;
        assert s in series;
      }
    }
  }

  /** The range in the header is attained at both ends and holds every point of the file. */
  lemma {:induction false} RangeExact(series: seq<Record>)
    requires AllFit(series) && series != []
    ensures RangeBytes(FileBytes(series)).Ok?
    ensures
      var (minTS, maxTS) := RangeBytes(FileBytes(series)).value;
      && Holds(series, minTS) && Holds(series, maxTS)
      && forall s, p :: s in series && p in s.points ==> minTS <= p.ts <= maxTS
  {
    hide FileBytes, MinTS, MaxTS, RangeBytes;
    RangeRoundTrip(series);
    MinExact(series, MAX_INT64);
    MaxExact(series, MIN_INT64);
    var p := series[0].points[0];
    assert series[0] in series && p in series[0].points;
    assert Holds(series, p.ts);
  }
}
