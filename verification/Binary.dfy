/** Little-endian integers, length-prefixed strings, label blocks and the CRC-32 checksum:
    the pieces of both on-disk formats. Each encoder has a decoder that takes its part off
    the front of the input and returns the rest. */
module Binary {
  import opened Words
  import opened Model

  type uint32 = x: int | 0 <= x < 0x1_0000_0000

  // ---- integers ----

  /** The k low bytes of v, least significant first. */
  function LE(v: nat, k: nat): (s: seq<byte>)
    ensures |s| == k
    decreases k, v
  {
    if k == 0 then [] else [v % 0x100] + LE(v / 0x100, k - 1)
  }

  function FromLE(s: seq<byte>): nat {
    if s == [] then 0 else s[0] + 0x100 * FromLE(s[1..])
  }

  /** 256 to the power k. */
  function Bytes(k: nat): nat
    decreases k, 0
  {
    if k == 0 then 1 else 0x100 * Bytes(k - 1)
  }

  lemma {:induction false} LERoundTrip(v: nat, k: nat)
    requires v < Bytes(k)
    ensures FromLE(LE(v, k)) == v
    decreases k
  {
    if k > 0 {
      LERoundTrip(v / 0x100, k - 1);
    }
  }

  lemma {:induction false} FromLEBound(s: seq<byte>)
    ensures FromLE(s) < Bytes(|s|)
  {
    if s != [] {
      FromLEBound(s[1..]);
    }
  }

  lemma {:induction false} Widths()
    ensures Bytes(2) == 0x1_0000
    ensures Bytes(4) == 0x1_0000_0000
    ensures Bytes(8) == TWO_64
  {
    assert Bytes(1) == 0x100 && Bytes(3) == 0x100_0000;
    assert Bytes(5) == 0x100 * Bytes(4) && Bytes(6) == 0x100 * Bytes(5) && Bytes(7) == 0x100 * Bytes(6);
  }

  /** A 16-bit field keeps the value modulo 2^16. */
  lemma {:induction false} LEStep(v: nat, n: nat)
    ensures FromLE(LE(v, n + 1)) == v % 0x100 + 0x100 * FromLE(LE(v / 0x100, n))
    ensures FromLE(LE(v, 0)) == 0
  {
    assert LE(v, n + 1)[1..] == LE(v / 0x100, n);
  }

  lemma {:induction false} LE16(v: nat)
    ensures FromLE(LE(v, 2)) == v % 0x1_0000
  {
    hide LE, FromLE;
    var b := v / 0x100;
    LEStep(v, 1);
    LEStep(b, 0);
  }

  lemma {:induction false} LE32(v: nat)
    requires v < 0x1_0000_0000
    ensures FromLE(LE(v, 4)) == v
  {
    Widths();
    LERoundTrip(v, 4);
  }

  lemma {:induction false} LE64(v: nat)
    requires v < TWO_64
    ensures FromLE(LE(v, 8)) == v
  {
    Widths();
    LERoundTrip(v, 8);
  }

  // ---- taking fields off the front of a byte string ----

  function TakeBytes(data: seq<byte>, n: nat): Result<(seq<byte>, seq<byte>)> {
    if |data| < n then Err(UnexpectedEOF) else Ok((data[..n], data[n..]))
  }

  function TakeUint(data: seq<byte>, k: nat): Result<(nat, seq<byte>)> {
    var (b, rest) :- TakeBytes(data, k);
    Ok((FromLE(b), rest))
  }

  lemma {:induction false} TakeBytesBack(b: seq<byte>, rest: seq<byte>)
    ensures TakeBytes(b + rest, |b|) == Ok((b, rest))
  {
  }

  lemma {:induction false} Take16(v: nat, rest: seq<byte>)
    ensures TakeUint(LE(v, 2) + rest, 2) == Ok((v % 0x1_0000, rest))
  {
    hide LE, FromLE;
    LE16(v);
    TakeBytesBack(LE(v, 2), rest);
  }

  lemma {:induction false} Take32(v: nat, rest: seq<byte>)
    requires v < 0x1_0000_0000
    ensures TakeUint(LE(v, 4) + rest, 4) == Ok((v, rest))
  {
    hide LE, FromLE;
    LE32(v);
    TakeBytesBack(LE(v, 4), rest);
  }

  // ---- strings ----

  /** [len: uint16][bytes] */
  function StrBytes(s: Str): seq<byte> {
    LE(|s|, 2) + s
  }

  function TakeStr(data: seq<byte>): Result<(Str, seq<byte>)> {
    var (n, rest) :- TakeUint(data, 2);
    TakeBytes(rest, n)
  }

  predicate Short(s: seq<byte>) {
    |s| < 0x1_0000
  }

  lemma {:induction false} StrRoundTrip(s: Str, rest: seq<byte>)
    requires Short(s)
    ensures TakeStr(StrBytes(s) + rest) == Ok((s, rest))
  {
    hide LE, TakeUint;
    assert StrBytes(s) + rest == LE(|s|, 2) + (s + rest);
    Take16(|s|, s + rest);
    TakeBytesBack(s, rest);
  }

  // ---- labels ----

  /** `order` lists every key of `labels` once, in whatever order. */
  ghost predicate IsOrder(order: seq<Str>, labels: Labels) {
    && (forall i, j :: 0 <= i < j < |order| ==> order[i] != order[j])
    && (forall k :: k in order <==> k in labels)
  }

  function PairsBytes(labels: Labels, order: seq<Str>): seq<byte>
    requires forall k :: k in order ==> k in labels
  {
    if order == [] then []
    else StrBytes(order[0]) + StrBytes(labels[order[0]]) + PairsBytes(labels, order[1..])
  }

  /** [count: uint16] then [key][value] for each label. */
  function LabelsBytes(labels: Labels, order: seq<Str>): seq<byte>
    requires forall k :: k in order ==> k in labels
  {
    LE(|order|, 2) + PairsBytes(labels, order)
  }

  function TakePairs(data: seq<byte>, n: nat, acc: Labels): Result<(Labels, seq<byte>)>
    decreases n
  {
    if n == 0 then Ok((acc, data))
    else
      var (k, r1) :- TakeStr(data);
      var (v, r2) :- TakeStr(r1);
      TakePairs(r2, n - 1, acc[k := v])
  }

  function TakeLabels(data: seq<byte>): Result<(Labels, seq<byte>)> {
    var (n, rest) :- TakeUint(data, 2);
    TakePairs(rest, n, map[])
  }

  /** Every length fits its 16-bit field. */
  predicate ShortLabels(labels: Labels) {
    |labels| < 0x1_0000 && forall k :: k in labels ==> Short(k) && Short(labels[k])
  }

  /** The labels with a key in `order`. */
  ghost function Pick(labels: Labels, order: seq<Str>): Labels {
    map k | k in order && k in labels :: labels[k]
  }

  lemma {:induction false} PickStep(labels: Labels, order: seq<Str>, acc: Labels)
    requires order != [] && order[0] in labels
    ensures acc[order[0] := labels[order[0]]] + Pick(labels, order[1..]) == acc + Pick(labels, order)
  {
    assert forall k :: k in order <==> k == order[0] || k in order[1..];
  }

  lemma {:induction false} PairsRoundTrip(labels: Labels, order: seq<Str>, acc: Labels, rest: seq<byte>)
    requires forall k :: k in order ==> k in labels && Short(k) && Short(labels[k])
    ensures TakePairs(PairsBytes(labels, order) + rest, |order|, acc) == Ok((acc + Pick(labels, order), rest))
    decreases order
  {
    hide StrBytes, TakeStr, Pick, Short;
    if order == [] {
      assert [] + rest == rest;
      assert acc + Pick(labels, []) == acc by {
        PickNone(labels);
      }
    } else {
      var k, v := order[0], labels[order[0]];
      var more := PairsBytes(labels, order[1..]) + rest;
      assert PairsBytes(labels, order) + rest == StrBytes(k) + (StrBytes(v) + more);
      StrRoundTrip(k, StrBytes(v) + more);
      StrRoundTrip(v, more);
      PairsRoundTrip(labels, order[1..], acc[k := v], rest);
      PickStep(labels, order, acc);
    }
  }

  lemma {:induction false} PickNone(labels: Labels)
    ensures Pick(labels, []) == map[]
  {
  }

  lemma {:induction false} OrderLength(order: seq<Str>, labels: Labels)
    requires IsOrder(order, labels)
    ensures |order| == |labels|
    decreases order
  {
    if order == [] {
      assert labels.Keys == {};
    } else {
      var less := labels - {order[0]};
      OrderLength(order[1..], less);
      assert labels.Keys == less.Keys + {order[0]};
    }
  }

  lemma {:induction false} PickAll(labels: Labels, order: seq<Str>)
    requires IsOrder(order, labels)
    ensures map[] + Pick(labels, order) == labels
  {
  }

  /** A label block decodes to its labels, whatever order they were written in. */
  lemma {:induction false} LabelsRoundTrip(labels: Labels, order: seq<Str>, rest: seq<byte>)
    requires IsOrder(order, labels) && ShortLabels(labels)
    ensures TakeLabels(LabelsBytes(labels, order) + rest) == Ok((labels, rest))
  {
    OrderLength(order, labels);
    PickAll(labels, order);
    LabelsFields(labels, order, rest);
    PairsRoundTrip(labels, order, map[], rest);
  }

  lemma {:induction false} LabelsFields(labels: Labels, order: seq<Str>, rest: seq<byte>)
    requires |order| < 0x1_0000 && forall k :: k in order ==> k in labels
    ensures TakeLabels(LabelsBytes(labels, order) + rest)
         == TakePairs(PairsBytes(labels, order) + rest, |order|, map[])
  {
    hide LE, PairsBytes, TakePairs, TakeUint;
    var pairs := PairsBytes(labels, order) + rest;
    assert LabelsBytes(labels, order) + rest == LE(|order|, 2) + pairs;
    Take16(|order|, pairs);
  }

  /** Of two values for one key the later one is kept. */
  lemma {:induction false} RepeatedKey(k: Str, v: Str, w: Str, rest: seq<byte>)
    requires Short(k) && Short(v) && Short(w)
    ensures TakeLabels(LE(2, 2) + (StrBytes(k) + (StrBytes(v) + (StrBytes(k) + (StrBytes(w) + rest)))))
         == Ok((map[k := w], rest))
  {
    hide LE, TakeUint, StrBytes, TakeStr, Short;
    var r3 := StrBytes(k) + (StrBytes(w) + rest);
    var r1 := StrBytes(k) + (StrBytes(v) + r3);
    Take16(2, r1);
    StrRoundTrip(k, StrBytes(v) + r3);
    StrRoundTrip(v, r3);
    StrRoundTrip(k, StrBytes(w) + rest);
    StrRoundTrip(w, rest);
    assert TakePairs(r1, 2, map[]) == TakePairs(r3, 1, map[k := v]);
    assert TakePairs(r3, 1, map[k := v]) == TakePairs(rest, 0, map[k := v][k := w]);
    assert map[k := v][k := w] == map[k := w];
  }

  // ---- cut label blocks ----

  lemma {:induction false} CutStr(s: Str, k: nat)
    requires Short(s) && k < |StrBytes(s)|
    ensures TakeStr(StrBytes(s)[..k]).Err?
  {
    hide LE, FromLE;
    if k >= 2 {
      var rest := s[..k - 2];
      assert StrBytes(s)[..k] == LE(|s|, 2) + rest;
      Take16(|s|, rest);
    }
  }

  lemma {:induction false} CutPairs(labels: Labels, order: seq<Str>, acc: Labels, k: nat)
    requires forall key :: key in order ==> key in labels && Short(key) && Short(labels[key])
    requires k < |PairsBytes(labels, order)|
    ensures TakePairs(PairsBytes(labels, order)[..k], |order|, acc).Err?
    decreases order
  {
    hide StrBytes, TakeStr, Short;
    var key, val := order[0], labels[order[0]];
    var a, b, c := StrBytes(key), StrBytes(val), PairsBytes(labels, order[1..]);
    var data := PairsBytes(labels, order)[..k];
    if k < |a| {
      assert data == a[..k];
      CutStr(key, k);
    } else if k < |a| + |b| {
      assert data == a + b[..k - |a|];
      StrRoundTrip(key, b[..k - |a|]);
      CutStr(val, k - |a|);
    } else {
      var more := c[..k - |a| - |b|];
      assert data == a + (b + more);
      StrRoundTrip(key, b + more);
      StrRoundTrip(val, more);
      CutPairs(labels, order[1..], acc[key := val], |more|);
    }
  }

  /** A label block that is cut short is an error, wherever the cut is. */
  lemma {:induction false} CutLabels(labels: Labels, order: seq<Str>, k: nat)
    requires IsOrder(order, labels) && ShortLabels(labels) && k < |LabelsBytes(labels, order)|
    ensures TakeLabels(LabelsBytes(labels, order)[..k]).Err?
  {
    hide LE, FromLE, PairsBytes, TakePairs;
    OrderLength(order, labels);
    if k >= 2 {
      var cut := PairsBytes(labels, order)[..k - 2];
      assert LabelsBytes(labels, order)[..k] == LE(|order|, 2) + cut;
      Take16(|order|, cut);
      CutPairs(labels, order, map[], k - 2);
    }
  }

  // ---- raw points ----

  /** [timestamp: int64][value: float64] per point. */
  function RawBytes(ps: seq<Point>): seq<byte> {
    if ps == [] then [] else LE(ToUint(ps[0].ts), 8) + LE(ps[0].bits, 8) + RawBytes(ps[1..])
  }

  function RawPoints(data: seq<byte>, n: nat): seq<Point>
    requires |data| >= 16 * n
    decreases n
  {
    if n == 0 then []
    else
      FromLEBound(data[..8]);
      FromLEBound(data[8..16]);
      Widths();
      [Point(ToInt(FromLE(data[..8])), FromLE(data[8..16]))] + RawPoints(data[16..], n - 1)
  }

  function TakeRaw(data: seq<byte>, n: nat): Result<(seq<Point>, seq<byte>)> {
    if |data| < 16 * n then Err(UnexpectedEOF) else Ok((RawPoints(data, n), data[16 * n..]))
  }

  lemma {:induction false} RawLength(ps: seq<Point>)
    ensures |RawBytes(ps)| == 16 * |ps|
  {
    if ps != [] {
      RawLength(ps[1..]);
    }
  }

  lemma {:induction false} RawRoundTrip(ps: seq<Point>, n: nat, rest: seq<byte>)
    requires n <= |ps|
    ensures |RawBytes(ps)| == 16 * |ps|
    ensures RawPoints(RawBytes(ps) + rest, n) == ps[..n]
    decreases n
  {
    RawLength(ps);
    if n > 0 {
      var data := RawBytes(ps) + rest;
      LE64(ToUint(ps[0].ts));
      LE64(ps[0].bits);
      assert data[..8] == LE(ToUint(ps[0].ts), 8);
      assert data[8..16] == LE(ps[0].bits, 8);
      assert data[16..] == RawBytes(ps[1..]) + rest;
      RawRoundTrip(ps[1..], n - 1, rest);
      assert ps[..n] == [ps[0]] + ps[1..][..n - 1];
    }
  }
}

/** CRC-32 with the IEEE 802.3 polynomial, reflected. */
module Crc {
  import opened Words
  import opened Binary

  const POLYNOMIAL: nat := 0xEDB8_8320
  const MASK: nat := 0xFFFF_FFFF

  function Shift(c: nat, n: nat): nat
    decreases n, c
  {
    if n == 0 then c else Shift(if c % 2 == 1 then Xor(c / 2, POLYNOMIAL) else c / 2, n - 1)
  }

  function Fold(c: nat, data: seq<byte>): nat
    decreases data
  {
    if data == [] then c else Fold(Shift(Xor(c, data[0]), 8), data[1..])
  }

  /** Continues a checksum over more bytes. */
  function Update(sum: nat, data: seq<byte>): nat {
    Xor(Fold(Xor(sum, MASK), data), MASK)
  }

  /** The checksum of a byte string. */
  function Checksum(data: seq<byte>): nat {
    Update(0, data)
  }

  lemma {:induction false} FoldAppend(c: nat, a: seq<byte>, b: seq<byte>)
    ensures Fold(c, a + b) == Fold(Fold(c, a), b)
    decreases a
  {
    if a == [] {
      assert a + b == b;
    } else {
      FoldAppend(Shift(Xor(c, a[0]), 8), a[1..], b);
      assert (a + b)[1..] == a[1..] + b;
    }
  }

  /** Feeding two parts one after the other sums their concatenation. */
  lemma {:induction false} UpdateAppend(sum: nat, a: seq<byte>, b: seq<byte>)
    ensures Update(Update(sum, a), b) == Update(sum, a + b)
  {
    XorInvolutive(Fold(Xor(sum, MASK), a), MASK);
    FoldAppend(Xor(sum, MASK), a, b);
  }

  lemma {:induction false} Size32()
    ensures Shl(1, 32) == 0x1_0000_0000
  {
    ShlByte(1, 0);
    ShlByte(1, 8);
    ShlByte(1, 16);
    ShlByte(1, 24);
  }

  lemma {:induction false} ShiftBound(c: nat, n: nat)
    requires c < 0x1_0000_0000
    ensures Shift(c, n) < 0x1_0000_0000
    decreases n
  {
    if n > 0 {
      Size32();
      XorBound(c / 2, POLYNOMIAL, 32);
      ShiftBound(if c % 2 == 1 then Xor(c / 2, POLYNOMIAL) else c / 2, n - 1);
    }
  }

  lemma {:induction false} FoldBound(c: nat, data: seq<byte>)
    requires c < 0x1_0000_0000
    ensures Fold(c, data) < 0x1_0000_0000
    decreases data
  {
    if data != [] {
      Size32();
      XorBound(c, data[0], 32);
      ShiftBound(Xor(c, data[0]), 8);
      FoldBound(Shift(Xor(c, data[0]), 8), data[1..]);
    }
  }

  lemma {:induction false} UpdateBound(sum: nat, data: seq<byte>)
    requires sum < 0x1_0000_0000
    ensures Update(sum, data) < 0x1_0000_0000
  {
    Size32();
    XorBound(sum, MASK, 32);
    FoldBound(Xor(sum, MASK), data);
    XorBound(Fold(Xor(sum, MASK), data), MASK, 32);
  }

  lemma {:induction false} ChecksumBound(data: seq<byte>)
    ensures Checksum(data) < 0x1_0000_0000
  {
    UpdateBound(0, data);
  }

  /** The running checksum of the chunk writer. */
  class Digest {
    var crc: nat
    ghost var fed: seq<byte>

    ghost predicate Valid()
      reads this
    {
      crc == Checksum(fed) && crc < 0x1_0000_0000
    }

    constructor ()
      ensures Valid() && fed == []
    {
      crc, fed := 0, [];
      XorInvolutive(0, MASK);
    }

    method Write(data: seq<byte>)
      requires Valid()
      modifies this
      ensures Valid() && fed == old(fed) + data
    {
      UpdateAppend(0, fed, data);
      UpdateBound(crc, data);
      crc := Update(crc, data);
      fed := fed + data;
    }
  }
}
