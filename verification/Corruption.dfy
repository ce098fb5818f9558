/** What the checksum detects: CRC-32 as the remainder of the bytes read as one number, the bursts
    that it tells apart, and what this means for damaged chunk files and log frames. */
module Corruption {
  import opened Words
  import opened Model
  import opened Binary
  import opened Crc
  import opened SeriesKey
  import opened GorillaSpec
  import opened ChunkFormat
  import opened WalFormat

  // ---- exclusive or ----

  lemma {:induction false} XorCommutes(x: nat, y: nat)
    ensures Xor(x, y) == Xor(y, x)
  {
    if x != 0 || y != 0 {
      XorCommutes(x / 2, y / 2);
    }
  }

  lemma {:induction false} XorHalf(x: nat, y: nat)
    ensures Xor(x, y) / 2 == Xor(x / 2, y / 2) && Xor(x, y) % 2 == (x + y) % 2
  {
  }

  lemma {:induction false} XorAssociates(x: nat, y: nat, z: nat)
    ensures Xor(Xor(x, y), z) == Xor(x, Xor(y, z))
    decreases x + y + z
  {
    if x != 0 || y != 0 || z != 0 {
      XorAssociates(x / 2, y / 2, z / 2);
      XorHalf(x, y);
      XorHalf(y, z);
      XorHalf(Xor(x, y), z);
      XorHalf(x, Xor(y, z));
    }
  }

  lemma {:induction false} XorCancels(c: nat, x: nat, y: nat)
    requires Xor(c, x) == Xor(c, y)
    ensures x == y
  {
    XorCommutes(c, x);
    XorCommutes(c, y);
    XorInvolutive(x, c);
    XorInvolutive(y, c);
  }

  /** Numbers split at bit n are combined part by part. */
  lemma {:induction false} XorParts(a: nat, b: nat, c: nat, d: nat, n: nat)
    requires a < Shl(1, n) && b < Shl(1, n)
    ensures Xor(a + Shl(c, n), b + Shl(d, n)) == Xor(a, b) + Shl(Xor(c, d), n)
    decreases n
  {
    hide Xor;
    if n > 0 {
      XorParts(a / 2, b / 2, c, d, n - 1);
      XorPartsStep(a, b, Shl(c, n - 1), Shl(d, n - 1), Shl(Xor(c, d), n - 1));
    } else {
      XorZero(0);
    }
  }

  lemma {:induction false} XorPartsStep(a: nat, b: nat, x: nat, y: nat, z: nat)
    requires Xor(a / 2 + x, b / 2 + y) == Xor(a / 2, b / 2) + z
    ensures Xor(a + 2 * x, b + 2 * y) == Xor(a, b) + 2 * z
  {
    hide Xor;
    assert (a + 2 * x) / 2 == a / 2 + x && (b + 2 * y) / 2 == b / 2 + y;
    XorHalf(a, b);
    XorHalf(a + 2 * x, b + 2 * y);
  }

  // ---- the remainder ----

  function ShiftOne(c: nat): nat {
    if c % 2 == 1 then Xor(c / 2, POLYNOMIAL) else c / 2
  }

  /** What is combined with the n-th bit from below comes out n steps later. */
  lemma {:induction false} ShiftXor(x: nat, b: nat, n: nat)
    ensures Shift(Xor(x, Shl(b, n)), n) == Xor(Shift(x, n), b)
    decreases n
  {
    if n > 0 {
      var s := Shl(b, n - 1);
      XorHalf(x, Shl(b, n));
      ShiftXor(ShiftOne(x), b, n - 1);
      XorAssociates(x / 2, s, POLYNOMIAL);
      XorCommutes(s, POLYNOMIAL);
      XorAssociates(x / 2, POLYNOMIAL, s);
    }
  }

  lemma {:induction false} ShiftMore(c: nat, m: nat, n: nat)
    ensures Shift(Shift(c, m), n) == Shift(c, m + n)
    decreases m
  {
    if m > 0 {
      ShiftMore(ShiftOne(c), m - 1, n);
    }
  }

  /** The remainder of a byte string is that of its number, read with the first byte lowest. */
  lemma {:induction false} FoldIsShift(c: nat, data: seq<byte>)
    ensures Fold(c, data) == Shift(Xor(c, FromLE(data)), 8 * |data|)
    decreases data
  {
    hide Shift, Xor;
    if data == [] {
      NothingShifted(c);
    } else {
      var b, rest := data[0], data[1..];
      var more := FromLE(rest);
      FoldIsShift(Shift(Xor(c, b), 8), rest);
      ShiftXor(Xor(c, b), more, 8);
      ShiftMore(Xor(Xor(c, b), Shl(more, 8)), 8, 8 * |rest|);
      XorAssociates(c, b, Shl(more, 8));
      BytesApart(b, more);
    }
  }

  lemma {:induction false} NothingShifted(c: nat)
    ensures Shift(Xor(c, FromLE([])), 0) == c
  {
    hide Xor;
    XorInvolutive(c, 0);
    XorInvolutive(Xor(c, 0), 0);
    XorZero(c);
  }

  lemma {:induction false} XorZero(c: nat)
    ensures Xor(c, 0) == c
  {
    if c != 0 {
      XorZero(c / 2);
    }
  }

  lemma {:induction false} BytesApart(b: byte, more: nat)
    ensures Xor(b, Shl(more, 8)) == b + 0x100 * more
  {
    hide Xor;
    ShlByte(more, 0);
    ShlByte(1, 0);
    XorParts(b, 0, 0, more, 8);
    XorZero(b);
    XorZero(more);
    XorCommutes(0, more);
    ShlZero(8);
  }

  lemma {:induction false} ShlZero(n: nat)
    ensures Shl(0, n) == 0
  {
    if n > 0 {
      ShlZero(n - 1);
    }
  }

  // ---- nothing is lost ----

  lemma {:induction false} HighBit(x: nat, y: nat, n: nat)
    requires x < Shl(1, n) <= y
    ensures Xor(x, y) >= Shl(1, n)
    decreases n
  {
    if n > 0 {
      HighBit(x / 2, y / 2, n - 1);
      XorHalf(x, y);
    } else {
      XorZero(y);
      XorCommutes(x, y);
    }
  }

  lemma {:induction false} Size31()
    ensures Shl(1, 31) == 0x8000_0000 && Shl(1, 32) == 0x1_0000_0000
  {
    ShlByte(1, 0);
    ShlByte(1, 8);
    ShlByte(1, 16);
    assert Shl(1, 31) == 128 * Shl(1, 24) by {
      assert Shl(1, 26) == 4 * Shl(1, 24);
      assert Shl(1, 28) == 4 * Shl(1, 26);
      assert Shl(1, 30) == 4 * Shl(1, 28);
    }
  }

  lemma {:induction false} StepInjective(c: nat, d: nat)
    requires c < 0x1_0000_0000 && d < 0x1_0000_0000 && ShiftOne(c) == ShiftOne(d)
    ensures c == d
  {
    hide Xor, Shl;
    Size31();
    HighBit(c / 2, POLYNOMIAL, 31);
    HighBit(d / 2, POLYNOMIAL, 31);
    XorCommutes(c / 2, POLYNOMIAL);
    XorCommutes(d / 2, POLYNOMIAL);
    if c % 2 == 1 && d % 2 == 1 {
      XorCancels(POLYNOMIAL, c / 2, d / 2);
    }
  }

  lemma {:induction false} StepBound(c: nat)
    requires c < 0x1_0000_0000
    ensures ShiftOne(c) < 0x1_0000_0000
  {
    Size32();
    XorBound(c / 2, POLYNOMIAL, 32);
  }

  lemma {:induction false} ShiftInjective(c: nat, d: nat, n: nat)
    requires c < 0x1_0000_0000 && d < 0x1_0000_0000 && Shift(c, n) == Shift(d, n)
    ensures c == d
    decreases n
  {
    hide Xor;
    if n > 0 {
      StepBound(c);
      StepBound(d);
      ShiftInjective(ShiftOne(c), ShiftOne(d), n - 1);
      StepInjective(c, d);
    }
  }

  lemma {:induction false} FoldInjective(c: nat, d: nat, data: seq<byte>)
    requires c < 0x1_0000_0000 && d < 0x1_0000_0000 && Fold(c, data) == Fold(d, data)
    ensures c == d
    decreases data
  {
    hide Xor, Shift;
    if data != [] {
      var b := data[0];
      Size32();
      XorBound(c, b, 32);
      XorBound(d, b, 32);
      ShiftBound(Xor(c, b), 8);
      ShiftBound(Xor(d, b), 8);
      FoldInjective(Shift(Xor(c, b), 8), Shift(Xor(d, b), 8), data[1..]);
      ShiftInjective(Xor(c, b), Xor(d, b), 8);
      XorCommutes(c, b);
      XorCommutes(d, b);
      XorCancels(b, c, d);
    }
  }

  lemma {:induction false} SameNumber(u: seq<byte>, v: seq<byte>)
    requires |u| == |v| && FromLE(u) == FromLE(v)
    ensures u == v
  {
    if u != [] {
      SameNumber(u[1..], v[1..]);
      assert u == [u[0]] + u[1..] && v == [v[0]] + v[1..];
    }
  }

  lemma {:induction false} ShortNumber(u: seq<byte>)
    requires |u| <= 4
    ensures FromLE(u) < 0x1_0000_0000
  {
    FromLEBound(u);
    assert Bytes(0) == 1 && Bytes(1) == 0x100 && Bytes(2) == 0x1_0000 && Bytes(3) == 0x100_0000;
  }

  lemma {:induction false} ShortBurst(c: nat, u: seq<byte>, v: seq<byte>)
    requires c < 0x1_0000_0000 && |u| == |v| <= 4 && Fold(c, u) == Fold(c, v)
    ensures u == v
  {
    hide Xor, Shift, Fold, FromLE;
    Size32();
    ShortNumber(u);
    ShortNumber(v);
    FoldIsShift(c, u);
    FoldIsShift(c, v);
    XorBound(c, FromLE(u), 32);
    XorBound(c, FromLE(v), 32);
    ShiftInjective(Xor(c, FromLE(u)), Xor(c, FromLE(v)), 8 * |u|);
    XorCancels(c, FromLE(u), FromLE(v));
    SameNumber(u, v);
  }

  /** Two byte strings that differ only within four neighbouring bytes have different checksums. */
  lemma {:induction false} BurstDetected(a: seq<byte>, u: seq<byte>, v: seq<byte>, b: seq<byte>)
    requires |u| == |v| <= 4 && u != v
    ensures Checksum(a + u + b) != Checksum(a + v + b)
  {
    hide Xor, Fold;
    Size32();
    XorBound(0, MASK, 32);
    var start := Xor(0, MASK);
    var c := Fold(start, a);
    FoldBound(start, a);
    FoldBound(c, u);
    FoldBound(c, v);
    FoldAppend(start, a + u, b);
    FoldAppend(start, a, u);
    FoldAppend(start, a + v, b);
    FoldAppend(start, a, v);
    if Checksum(a + u + b) == Checksum(a + v + b) {
      XorCommutes(Fold(Fold(c, u), b), MASK);
      XorCommutes(Fold(Fold(c, v), b), MASK);
      XorCancels(MASK, Fold(Fold(c, u), b), Fold(Fold(c, v), b));
      FoldInjective(Fold(c, u), Fold(c, v), b);
      ShortBurst(c, u, v);
    }
  }

  // ---- check values ----

  /** Xor with a number of n ones is the complement to it. */
  lemma {:induction false} XorOnes(x: nat, n: nat)
    requires x < Shl(1, n)
    ensures Xor(x, Shl(1, n) - 1) == Shl(1, n) - 1 - x
    decreases n
  {
    if n > 0 {
      XorOnes(x / 2, n - 1);
      XorHalf(x, Shl(1, n) - 1);
    }
  }

  lemma {:induction false} Complement(x: nat)
    requires x < 0x1_0000_0000
    ensures Xor(x, MASK) == MASK - x
  {
    Size32();
    XorOnes(x, 32);
  }

  /** Three checksums of the standard: they fix the polynomial, the direction of the shift, and the
      complement before and after. */
  lemma {:induction false} CheckValues()
    ensures Checksum([]) == 0
    ensures Checksum([0xFF]) == 0xFF00_0000
    ensures Checksum([0x7F]) == 0x12B8_8320
  {
    hide Xor, Shift, Shl;
    XorInvolutive(0, MASK);
    Complement(0);
    OneByte(0xFF);
    OneByte(0x7F);
    Complement(0xFF);
    Complement(0x7F);
    XorCommutes(0xFF, MASK);
    XorCommutes(0x7F, MASK);
    Halves();
    PolynomialOnes();
    Complement(0x00FF_FFFF);
    Complement(0xED47_7CDF);
  }

  lemma {:induction false} OneByte(b: byte)
    ensures Checksum([b]) == Xor(Shift(Xor(Xor(0, MASK), b), 8), MASK)
  {
    hide Xor, Shift;
    var c := Xor(0, MASK);
    assert [b][1..] == [];
    assert Fold(c, [b]) == Fold(Shift(Xor(c, b), 8), []);
  }

  lemma {:induction false} Halves()
    ensures Shift(0xFFFF_FF00, 8) == 0x00FF_FFFF
    ensures Shift(0xFFFF_FF80, 8) == Xor(0x00FF_FFFF, POLYNOMIAL)
  {
    hide Xor;
    ShlByte(0x00FF_FFFF, 0);
    ZerosShiftedOut(0x00FF_FFFF, 8);
    assert Shl(0x01FF_FFFF, 7) == 0xFFFF_FF80 by {
      assert Shl(0x01FF_FFFF, 3) == 0x0FFF_FFF8;
      assert Shl(0x01FF_FFFF, 5) == 4 * Shl(0x01FF_FFFF, 3);
    }
    ZerosShiftedOut(0x01FF_FFFF, 7);
    ShiftMore(0xFFFF_FF80, 7, 1);
    assert Shift(0x01FF_FFFF, 1) == Xor(0x00FF_FFFF, POLYNOMIAL);
  }

  lemma {:induction false} ZerosShiftedOut(c: nat, n: nat)
    ensures Shift(Shl(c, n), n) == c
  {
    hide Xor;
    if n > 0 {
      ZerosShiftedOut(c, n - 1);
    }
  }

  lemma {:induction false} PolynomialOnes()
    ensures Xor(0x00FF_FFFF, POLYNOMIAL) == 0xED47_7CDF
  {
    hide Xor, Shl;
    ShlByte(1, 0);
    ShlByte(1, 8);
    ShlByte(1, 16);
    ShlByte(0xED, 0);
    ShlByte(0xED, 8);
    ShlByte(0xED, 16);
    assert Shl(1, 0) == 1 && Shl(0xED, 0) == 0xED by { NoShift(); }
    ShlZero(24);
    XorParts(0x00FF_FFFF, 0x00B8_8320, 0, 0xED, 24);
    XorOnes(0x00B8_8320, 24);
    XorCommutes(0x00FF_FFFF, 0x00B8_8320);
    XorZero(0xED);
    XorCommutes(0, 0xED);
  }

  lemma {:induction false} NoShift()
    ensures forall x: nat :: Shl(x, 0) == x
  {
  }

  /** The hashes of the empty string and of "a" that the authors of FNV-1a publish. */
  lemma {:induction false} FnvValues()
    ensures Fnv(FNV_OFFSET, []) == 0xCBF2_9CE4_8422_2325
    ensures Fnv(FNV_OFFSET, [0x61]) == 0xAF63_DC4C_8601_EC8C
  {
    hide Xor, Shl;
    SmallXor();
    ShlByte(0x00CB_F29C_E484_2223, 0);
    ShlByte(1, 0);
    NoShift();
    ShlZero(8);
    XorParts(0x25, 0x61, 0x00CB_F29C_E484_2223, 0, 8);
    XorZero(0x00CB_F29C_E484_2223);
    assert Xor64(FNV_OFFSET, 0x61) == 0xCBF2_9CE4_8422_2344;
    assert [0x61 as byte][1..] == [];
    assert Fnv(FNV_OFFSET, [0x61]) == Fnv(0xCBF2_9CE4_8422_2344 * FNV_PRIME % TWO_64, []);
  }

  lemma {:induction false} SmallXor()
    ensures Xor(0x25, 0x61) == 0x44
  {
    assert Xor(0x1, 0x3) == 0x2;
    assert Xor(0x4, 0xC) == 0x8;
    assert Xor(0x9, 0x18) == 0x11;
  }

  // ---- chunk files ----

  /** The bytes with those from i on replaced. */
  function Patched(data: seq<byte>, i: nat, u: seq<byte>): (r: seq<byte>)
    requires i + |u| <= |data|
    ensures |r| == |data|
  {
    data[..i] + u + data[i + |u|..]
  }

  lemma {:induction false} PartDiffers(data: seq<byte>, i: nat, u: seq<byte>, k: nat, m: nat)
    requires k <= i && i + |u| <= m <= |data| && u != data[i..i + |u|]
    ensures Patched(data, i, u)[k..m] != data[k..m]
  {
    var bad := Patched(data, i, u);
    SliceOfSlice(data, k, m, i, i + |u|);
    SliceOfSlice(bad, k, m, i, i + |u|);
    assert bad[i..i + |u|] == u;
  }

  lemma {:induction false} SliceOfSlice(s: seq<byte>, k: nat, m: nat, i: nat, j: nat)
    requires k <= i <= j <= m <= |s|
    ensures s[k..m][i - k..j - k] == s[i..j]
  {
    var t := s[k..m];
    forall x | 0 <= x < j - i ensures t[i - k..j - k][x] == s[i..j][x] {
      assert t[i - k + x] == s[i + x];
    }
  }

  /** A readable chunk file with up to four neighbouring bytes changed cannot be read any more,
      wherever they are before the number of series or in the checksum after it. */
  lemma {:induction false} DamagedFile(data: seq<byte>, i: nat, u: seq<byte>)
    requires ReadBytes(data).Ok? && |u| <= 4 && i + |u| <= |data| && u != data[i..i + |u|]
    requires i + |u| <= |data| - FOOTER_SIZE || |data| - 4 <= i
    ensures ReadBytes(Patched(data, i, u)).Err?
  {
    hide FromLE, Checksum, TakeAllSeries, Patched;
    if i + |u| <= |data| - FOOTER_SIZE {
      DamagedFront(data, i, u, |data| - FOOTER_SIZE);
    } else {
      DamagedFooter(data, i, u, |data| - FOOTER_SIZE);
    }
  }

  lemma {:induction false} DamagedFront(data: seq<byte>, i: nat, u: seq<byte>, end: nat)
    requires |u| <= 4 && i + |u| <= end <= |data| && u != data[i..i + |u|]
    ensures
      var bad := Patched(data, i, u);
      Checksum(bad[..end]) != Checksum(data[..end])
      && forall k :: end <= k <= |data| ==> bad[k..] == data[k..]
  {
    hide Checksum;
    var bad, j := Patched(data, i, u), i + |u|;
    assert data[..end] == data[..i] + data[i..j] + data[j..end];
    assert bad[..end] == data[..i] + u + data[j..end];
    BurstDetected(data[..i], data[i..j], u, data[j..end]);
  }

  lemma {:induction false} DamagedFooter(data: seq<byte>, i: nat, u: seq<byte>, end: nat)
    requires end + FOOTER_SIZE == |data| && end + 4 <= i && i + |u| <= |data| && u != data[i..i + |u|]
    ensures
      var bad := Patched(data, i, u);
      bad[..end] == data[..end] && FromLE(bad[end + 4..]) != FromLE(data[end + 4..])
  {
    hide FromLE;
    var bad := Patched(data, i, u);
    assert forall x :: 0 <= x < end ==> bad[x] == data[x];
    var a, b := data[end + 4..], bad[end + 4..];
    PartDiffers(data, i, u, end + 4, |data|);
    assert a == data[end + 4..|data|] && b == bad[end + 4..|data|];
    if FromLE(a) == FromLE(b) {
      SameNumber(a, b);
    }
  }

  /** The file with another number of series in its footer, under the same checksum. */
  ghost function Recounted(series: seq<Record>, count: nat): seq<byte> {
    var front := HeaderBytes(MinTS(series, MAX_INT64), MaxTS(series, MIN_INT64)) + BodyBytes(series);
    front + FooterBytes(count, Checksum(front))
  }

  /** The number of series is the one field that the checksum does not cover: changed in a written
      file, the file is still read if and only if the number is not larger, and without the series
      at its end. */
  lemma {:induction false} CountUnchecked(series: seq<Record>, count: nat)
    requires AllFit(series) && count < 0x1_0000_0000
    ensures ReadBytes(Recounted(series, count)).Ok? <==> count <= |series|
    ensures count <= |series| ==> ReadBytes(Recounted(series, count)) == Ok(AllData(series[..count]))
  {
    hide HeaderBytes, FooterBytes, BodyBytes, Checksum, FromLE, TakeAllSeries, MinTS, MaxTS, AllFit;
    var minTS, maxTS := MinTS(series, MAX_INT64), MaxTS(series, MIN_INT64);
    var h, body := HeaderBytes(minTS, maxTS), BodyBytes(series);
    ChecksumBound(h + body);
    FileParts(h, body, FooterBytes(count, Checksum(h + body)));
    HeaderFields(minTS, maxTS);
    FooterFields(count, Checksum(h + body));
    BodyCounted(series, count);
  }

  lemma {:induction false} BodyCounted(series: seq<Record>, count: nat)
    requires AllFit(series)
    ensures TakeAllSeries(BodyBytes(series), VERSION_GORILLA, count).Ok? <==> count <= |series|
    ensures count <= |series| ==>
              TakeAllSeries(BodyBytes(series), VERSION_GORILLA, count) == Ok(AllData(series[..count]))
    decreases series
  {
    hide SeriesBytes, TakeSeries, Fits, DataOf;
    if count > 0 && series == [] {
      NoSeriesLeft();
    } else if count > 0 {
      SeriesBack(series[0], BodyBytes(series[1..]));
      BodyCounted(series[1..], count - 1);
      if count <= |series| {
        assert series[..count][1..] == series[1..][..count - 1];
      }
    }
  }

  lemma {:induction false} NoSeriesLeft()
    ensures TakeSeries([], VERSION_GORILLA).Err?
  {
  }

  // ---- log frames ----

  /** The frame of a payload, damaged in its payload or in its checksum. */
  ghost predicate DamagedFrame(payload: seq<byte>, frame: seq<byte>, i: nat, u: seq<byte>) {
    && |u| <= 4 && 4 <= i && i + |u| <= |Frame(payload)| && (i + |u| <= 8 || 8 <= i)
    && u != Frame(payload)[i..i + |u|] && frame == Patched(Frame(payload), i, u)
  }

  lemma {:induction false} DamagedRecord(
    payload: seq<byte>, frame: seq<byte>, i: nat, u: seq<byte>, rest: seq<byte>)
    requires |payload| < 0x1_0000_0000 && DamagedFrame(payload, frame, i, u)
    ensures frame != [] && TakeRecord(frame + rest) == Err(CrcMismatch)
  {
    hide FromLE, LE, Checksum, DecodeBytes;
    var j, data := i + |u|, frame + rest;
    LE32(|payload|);
    assert Frame(payload)[..4] == LE(|payload|, 4);
    assert data[..8][..4] == LE(|payload|, 4) && data[8..][..|payload|] == frame[8..];
    assert data[..8][4..] == frame[4..8];
    if j <= 8 {
      DamagedChecksum(payload, frame, i, u);
    } else {
      DamagedPayload(payload, frame, i, u);
    }
  }

  lemma {:induction false} DamagedChecksum(payload: seq<byte>, frame: seq<byte>, i: nat, u: seq<byte>)
    requires |payload| < 0x1_0000_0000 && DamagedFrame(payload, frame, i, u) && i + |u| <= 8
    ensures frame[8..] == payload && FromLE(frame[4..8]) != Checksum(payload)
  {
    hide FromLE, LE, Checksum;
    var good := Frame(payload);
    ChecksumBound(payload);
    LE32(Checksum(payload));
    PartDiffers(good, i, u, 4, 8);
    assert good[4..8] == LE(Checksum(payload), 4);
    assert frame[8..] == good[8..] == payload by {
      assert good[8..|good|] == payload && frame[8..|good|] == frame[8..];
    }
    if FromLE(frame[4..8]) == Checksum(payload) {
      SameNumber(frame[4..8], good[4..8]);
    }
  }

  lemma {:induction false} DamagedPayload(payload: seq<byte>, frame: seq<byte>, i: nat, u: seq<byte>)
    requires |payload| < 0x1_0000_0000 && DamagedFrame(payload, frame, i, u) && 8 <= i
    ensures FromLE(frame[4..8]) == Checksum(payload) && Checksum(frame[8..]) != Checksum(payload)
  {
    hide FromLE, LE, Checksum;
    var good, k, l := Frame(payload), i - 8, i + |u| - 8;
    ChecksumBound(payload);
    LE32(Checksum(payload));
    assert frame[4..8] == good[4..8] == LE(Checksum(payload), 4);
    assert payload == payload[..k] + payload[k..l] + payload[l..];
    assert good[i..i + |u|] == payload[k..l];
    assert frame[8..] == payload[..k] + u + payload[l..];
    BurstDetected(payload[..k], payload[k..l], u, payload[l..]);
  }

  /** A log with one damaged frame does not replay, whatever comes before and after it. */
  lemma {:induction false} DamagedLog(
    log: seq<Entry>, payload: seq<byte>, frame: seq<byte>, i: nat, u: seq<byte>, rest: seq<byte>)
    requires AllValid(log) && |payload| < 0x1_0000_0000 && DamagedFrame(payload, frame, i, u)
    ensures ReplayBytes(LogBytes(log) + (frame + rest)) == Err(CrcMismatch)
    decreases log
  {
    hide TakeRecord, FrameOf, DamagedFrame, Valid;
    if log == [] {
      DamagedRecord(payload, frame, i, u, rest);
      assert LogBytes(log) + (frame + rest) == frame + rest;
    } else {
      var more := LogBytes(log[1..]) + (frame + rest);
      FirstRecord(log[0], more);
      assert LogBytes(log) + (frame + rest) == FrameOf(log[0]) + more;
      DamagedLog(log[1..], payload, frame, i, u, rest);
    }
  }
}
