/** Where each field of the two on-disk formats lies and which byte of it is which, said by
    positions and not by the functions that write them. */
module Layouts {
  import opened Words
  import opened Model
  import opened Binary
  import opened Crc
  import opened SeriesKey
  import opened GorillaSpec
  import opened ChunkFormat
  import opened WalFormat

  // ---- fields ----

  /** The field holds the low bytes of the number, least significant first. */
  ghost predicate IsField(b: seq<byte>, v: nat) {
    forall i :: 0 <= i < |b| ==> b[i] == Shr(v, 8 * i) % 0x100
  }

  lemma {:induction false} ShrByte(v: nat, n: nat)
    ensures Shr(v, n + 8) == Shr(v / 0x100, n)
  {
    assert Shr(v, n + 8) == Shr(v / 2 / 2, n + 6);
    assert Shr(v / 2 / 2, n + 6) == Shr(v / 2 / 2 / 2 / 2, n + 4);
    assert Shr(v / 2 / 2 / 2 / 2, n + 4) == Shr(v / 2 / 2 / 2 / 2 / 2 / 2, n + 2);
    assert v / 2 / 2 / 2 / 2 / 2 / 2 / 2 / 2 == v / 0x100;
  }

  lemma {:induction false} LEField(v: nat, k: nat)
    ensures IsField(LE(v, k), v)
    decreases k
  {
    if k > 0 {
      LEField(v / 0x100, k - 1);
      var b, rest := LE(v, k), LE(v / 0x100, k - 1);
      forall i | 0 <= i < k ensures b[i] == Shr(v, 8 * i) % 0x100 {
        if i > 0 {
          ShrByte(v, 8 * i - 8);
          assert b[i] == rest[i - 1];
        }
      }
    }
  }

  /** Each length is in two bytes before its string; the keys come in the given order. */
  ghost predicate PairsLayout(b: seq<byte>, labels: Labels, order: seq<Str>)
    requires forall k :: k in order ==> k in labels
    decreases order
  {
    if order == [] then b == []
    else
      var k, v := order[0], labels[order[0]];
      && |b| >= 4 + |k| + |v|
      && IsField(b[..2], |k|) && b[2..2 + |k|] == k
      && IsField(b[2 + |k|..4 + |k|], |v|) && b[4 + |k|..4 + |k| + |v|] == v
      && PairsLayout(b[4 + |k| + |v|..], labels, order[1..])
  }

  ghost predicate LabelsLayout(b: seq<byte>, labels: Labels, order: seq<Str>)
    requires forall k :: k in order ==> k in labels
  {
    |b| >= 2 && IsField(b[..2], |order|) && PairsLayout(b[2..], labels, order)
  }

  ghost predicate RawLayout(b: seq<byte>, ps: seq<Point>) {
    && |b| == 16 * |ps|
    && forall i :: 0 <= i < |ps| ==>
         IsField(b[16 * i..16 * i + 8], ToUint(ps[i].ts)) && IsField(b[16 * i + 8..16 * i + 16], ps[i].bits)
  }

  lemma {:induction false} PairsLaidOut(labels: Labels, order: seq<Str>)
    requires forall k :: k in order ==> k in labels
    ensures PairsLayout(PairsBytes(labels, order), labels, order)
    decreases order
  {
    hide LE, IsField;
    if order != [] {
      var k, v := order[0], labels[order[0]];
      var b, rest := PairsBytes(labels, order), PairsBytes(labels, order[1..]);
      LEField(|k|, 2);
      LEField(|v|, 2);
      PairsLaidOut(labels, order[1..]);
      assert b[..2] == LE(|k|, 2) && b[2..2 + |k|] == k;
      assert b[2 + |k|..4 + |k|] == LE(|v|, 2) && b[4 + |k|..4 + |k| + |v|] == v;
      assert b[4 + |k| + |v|..] == rest;
    }
  }

  lemma {:induction false} LabelsLaidOut(labels: Labels, order: seq<Str>)
    requires forall k :: k in order ==> k in labels
    ensures LabelsLayout(LabelsBytes(labels, order), labels, order)
  {
    hide LE, IsField, PairsBytes, PairsLayout;
    var b := LabelsBytes(labels, order);
    LEField(|order|, 2);
    PairsLaidOut(labels, order);
    assert b[..2] == LE(|order|, 2) && b[2..] == PairsBytes(labels, order);
  }

  lemma {:induction false} RawLaidOut(ps: seq<Point>)
    ensures RawLayout(RawBytes(ps), ps)
  {
    hide LE, IsField;
    RawLength(ps);
    if ps != [] {
      var b, rest := RawBytes(ps), RawBytes(ps[1..]);
      RawLaidOut(ps[1..]);
      LEField(ToUint(ps[0].ts), 8);
      LEField(ps[0].bits, 8);
      forall i | 0 <= i < |ps|
        ensures IsField(b[16 * i..16 * i + 8], ToUint(ps[i].ts)) && IsField(b[16 * i + 8..16 * i + 16], ps[i].bits)
      {
        if i == 0 {
          assert b[0..8] == LE(ToUint(ps[0].ts), 8) && b[8..16] == LE(ps[0].bits, 8);
        } else {
          assert b[16 * i..16 * i + 8] == rest[16 * (i - 1)..16 * (i - 1) + 8];
          assert b[16 * i + 8..16 * i + 16] == rest[16 * (i - 1) + 8..16 * (i - 1) + 16];
          assert ps[1..][i - 1] == ps[i];
        }
      }
    }
  }

  // ---- the identity of a series ----

  /** Each key, an equals sign, its value and a zero byte, in the given order. */
  ghost predicate EntriesLayout(b: seq<byte>, labels: Labels, order: seq<Str>)
    requires forall k :: k in order ==> k in labels
    decreases order
  {
    if order == [] then b == []
    else
      var k, v := order[0], labels[order[0]];
      && |b| >= |k| + |v| + 2
      && b[..|k|] == k && b[|k|] == 0x3D
      && b[|k| + 1..|k| + 1 + |v|] == v && b[|k| + 1 + |v|] == 0
      && EntriesLayout(b[|k| + |v| + 2..], labels, order[1..])
  }

  lemma {:induction false} EntriesLaidOut(labels: Labels, order: seq<Str>)
    requires forall k :: k in order ==> k in labels
    ensures EntriesLayout(EntryBytes(labels, order), labels, order)
    decreases order
  {
    if order != [] {
      var k, v, b := order[0], labels[order[0]], EntryBytes(labels, order);
      EntriesLaidOut(labels, order[1..]);
      assert b[..|k|] == k && b[|k| + 1..|k| + 1 + |v|] == v;
      assert b[|k| + |v| + 2..] == EntryBytes(labels, order[1..]);
    }
  }

  /** The bytes that are hashed: the metric, a zero byte, and the labels by ascending key. */
  lemma {:induction false} IdentityLaidOut(s: Series) returns (order: seq<Str>)
    ensures IsOrder(order, s.labels) && forall i, j :: 0 <= i < j < |order| ==> AtMost(order[i], order[j])
    ensures
      var b, m := IdentityBytes(s), |s.metric|;
      |b| > m && b[..m] == s.metric && b[m] == 0 && EntriesLayout(b[m + 1..], s.labels, order)
  {
    hide AtMost, EntryBytes, EntriesLayout;
    order := SortedKeys(s.labels.Keys);
    CanonicalIsOrder(s.labels);
    EntriesLaidOut(s.labels, order);
    var b, m := IdentityBytes(s), |s.metric|;
    assert b[..m] == s.metric && b[m + 1..] == EntryBytes(s.labels, order);
  }

  // ---- log records ----

  /** The metric with its length, the labels, the number of points, and 16 bytes for each. */
  ghost predicate RecordLayout(b: seq<byte>, rec: Record, order: seq<Str>)
    requires forall k :: k in order ==> k in rec.labels
  {
    var m, n := |rec.metric|, 16 * |rec.points|;
    && |b| >= 4 + m + n
    && IsField(b[..2], m) && b[2..2 + m] == rec.metric
    && LabelsLayout(b[2 + m..|b| - n - 2], rec.labels, order)
    && IsField(b[|b| - n - 2..|b| - n], |rec.points|)
    && RawLayout(b[|b| - n..], rec.points)
  }

  lemma {:induction false} RecordLaidOut(rec: Record, order: seq<Str>)
    requires forall k :: k in order ==> k in rec.labels
    ensures RecordLayout(RecordBytes(rec, order), rec, order)
  {
    hide LE, IsField, LabelsBytes, RawBytes, LabelsLayout, RawLayout;
    var b, labels := RecordBytes(rec, order), LabelsBytes(rec.labels, order);
    var m, n := |rec.metric|, 16 * |rec.points|;
    RawLength(rec.points);
    LEField(m, 2);
    LEField(|rec.points|, 2);
    LabelsLaidOut(rec.labels, order);
    RawLaidOut(rec.points);
    assert |b| == 2 + m + |labels| + 2 + n;
    assert b[..2] == LE(m, 2) && b[2..2 + m] == rec.metric;
    assert b[2 + m..2 + m + |labels|] == labels;
    assert b[2 + m + |labels|..4 + m + |labels|] == LE(|rec.points|, 2);
    assert b[4 + m + |labels|..] == RawBytes(rec.points);
  }

  /** The length of the payload, its checksum, and the payload. */
  ghost predicate FrameLayout(b: seq<byte>, payload: seq<byte>) {
    && |b| == 8 + |payload|
    && IsField(b[..4], |payload|) && IsField(b[4..8], Checksum(payload)) && b[8..] == payload
  }

  lemma {:induction false} FrameLaidOut(payload: seq<byte>)
    ensures FrameLayout(Frame(payload), payload)
  {
    hide LE, IsField, Checksum;
    var b := Frame(payload);
    LEField(|payload|, 4);
    LEField(Checksum(payload), 4);
    assert b[..4] == LE(|payload|, 4) && b[4..8] == LE(Checksum(payload), 4) && b[8..] == payload;
  }

  // ---- chunk files ----

  /** The id of the series, the length of its label block, the labels by key, the number of points,
      the size of their compressed form, and that. */
  ghost predicate SeriesLayout(b: seq<byte>, s: Record) {
    var order, compressed := SortedKeys(s.labels.Keys), Encode(s.points);
    var m := |b| - 18 - |compressed|;
    && m >= 2
    && IsField(b[..8], Hash(s.Key())) && IsField(b[8..10], m)
    && LabelsLayout(b[10..10 + m], s.labels, order)
    && IsField(b[10 + m..14 + m], |s.points|) && IsField(b[14 + m..18 + m], |compressed|)
    && b[18 + m..] == compressed
  }

  /** One block after the other. */
  ghost predicate BodyLayout(b: seq<byte>, series: seq<Record>)
    decreases series
  {
    if series == [] then b == []
    else exists n :: 0 <= n <= |b| && SeriesLayout(b[..n], series[0]) && BodyLayout(b[n..], series[1..])
  }

  /** The letters SLUP, version 2 and three zeros; the earliest and the latest time; the blocks;
      their number and the checksum of all before the last eight bytes. */
  ghost predicate FileLayout(b: seq<byte>, series: seq<Record>) {
    var end := |b| - 8;
    && end >= 24
    && b[..8] == [0x53, 0x4C, 0x55, 0x50, 2, 0, 0, 0]
    && IsField(b[8..16], ToUint(MinTS(series, MAX_INT64))) && IsField(b[16..24], ToUint(MaxTS(series, MIN_INT64)))
    && BodyLayout(b[24..end], series)
    && IsField(b[end..end + 4], |series|) && IsField(b[end + 4..], Checksum(b[..end]))
  }

  lemma {:induction false} SeriesLaidOut(s: Record)
    ensures SeriesLayout(SeriesBytes(s), s)
  {
    hide LE, IsField, LabelsBytes, LabelsLayout, Encode, Hash, SortedKeys;
    CanonicalIsOrder(s.labels);
    var b, order := SeriesBytes(s), SortedKeys(s.labels.Keys);
    var labels, compressed := LabelsBytes(s.labels, order), Encode(s.points);
    var m := |labels|;
    LEField(Hash(s.Key()), 8);
    LEField(m, 2);
    LEField(|s.points|, 4);
    LEField(|compressed|, 4);
    LabelsLaidOut(s.labels, order);
    BlockPrefix(labels, s.labels, order);
    assert b[..8] == LE(Hash(s.Key()), 8) && b[8..10] == LE(m, 2) && b[10..10 + m] == labels;
    assert b[10 + m..14 + m] == LE(|s.points|, 4) && b[14 + m..18 + m] == LE(|compressed|, 4);
    assert b[18 + m..] == compressed;
  }

  lemma {:induction false} BlockPrefix(b: seq<byte>, labels: Labels, order: seq<Str>)
    requires forall k :: k in order ==> k in labels
    requires LabelsLayout(b, labels, order)
    ensures |b| >= 2
  {
  }

  lemma {:induction false} BodyLaidOut(series: seq<Record>)
    ensures BodyLayout(BodyBytes(series), series)
    decreases series
  {
    hide SeriesBytes, SeriesLayout;
    if series != [] {
      var b, first := BodyBytes(series), SeriesBytes(series[0]);
      SeriesLaidOut(series[0]);
      BodyLaidOut(series[1..]);
      assert b[..|first|] == first && b[|first|..] == BodyBytes(series[1..]);
    }
  }

  lemma {:induction false} Letters()
    ensures LE(MAGIC, 4) == [0x53, 0x4C, 0x55, 0x50]
  {
    assert LE(0x50, 1) == [0x50];
    assert LE(0x5055, 2) == [0x55] + LE(0x50, 1);
    assert LE(0x50_554C, 3) == [0x4C] + LE(0x5055, 2);
    assert LE(MAGIC, 4) == [0x53] + LE(0x50_554C, 3);
  }

  lemma {:induction false} FileLaidOut(series: seq<Record>)
    ensures FileLayout(FileBytes(series), series)
  {
    hide LE, IsField, BodyBytes, BodyLayout, Checksum, MinTS, MaxTS;
    var b, body := FileBytes(series), BodyBytes(series);
    var minTS, maxTS := MinTS(series, MAX_INT64), MaxTS(series, MIN_INT64);
    var end := |b| - 8;
    Letters();
    BodyLaidOut(series);
    LEField(ToUint(minTS), 8);
    LEField(ToUint(maxTS), 8);
    var front := HeaderBytes(minTS, maxTS) + body;
    LEField(|series|, 4);
    LEField(Checksum(front), 4);
    assert b[..end] == front && b[24..end] == body;
    assert b[..8] == LE(MAGIC, 4) + [2, 0, 0, 0];
    assert b[8..16] == LE(ToUint(minTS), 8) && b[16..24] == LE(ToUint(maxTS), 8);
    assert b[end..end + 4] == LE(|series|, 4) && b[end + 4..] == LE(Checksum(front), 4);
  }
}
