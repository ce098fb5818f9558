/** The MSB-first bit writer and reader of the chunk codec. */
module BitStream {
  import opened Words
  import opened Model

  /** The n low bits of v, most significant first. */
  function Bits(v: nat, n: nat): (s: seq<bool>)
    ensures |s| == n
    decreases n, v
  {
    if n == 0 then [] else Bits(v / 2, n - 1) + [v % 2 == 1]
  }

  /** The number whose binary digits are s. */
  function FromBits(s: seq<bool>): nat {
    if s == [] then 0
    else 2 * FromBits(s[..|s| - 1]) + (if s[|s| - 1] then 1 else 0)
  }

  function Zeros(n: nat): (s: seq<bool>)
    ensures |s| == n
  {
    if n == 0 then [] else Zeros(n - 1) + [false]
  }

  /** The bits of a byte string. */
  function BytesBits(bs: seq<byte>): (s: seq<bool>)
    ensures |s| == 8 * |bs|
  {
    if bs == [] then [] else Bits(bs[0], 8) + BytesBits(bs[1..])
  }

  /** The bytes that hold a bit string, the last one padded with zero bits. */
  function Pack(bits: seq<bool>): (bs: seq<byte>)
    ensures |bs| == (|bits| + 7) / 8
  {
    if bits == [] then []
    else if |bits| <= 8 then
      PaddedByte(bits);
      [Shl(FromBits(bits), 8 - |bits|)]
    else
      FromBitsBound(bits[..8]);
      WordSize();
      [FromBits(bits[..8])] + Pack(bits[8..])
  }

  lemma {:induction false} FromBitsPush(s: seq<bool>, b: bool)
    ensures FromBits(s + [b]) == 2 * FromBits(s) + (if b then 1 else 0)
  {
    assert (s + [b])[..|s|] == s;
  }

  lemma {:induction false} FromBitsBound(s: seq<bool>)
    ensures FromBits(s) < Shl(1, |s|)
  {
    if s != [] {
      FromBitsBound(s[..|s| - 1]);
    }
  }

  lemma {:induction false} PaddedByte(s: seq<bool>)
    requires |s| <= 8
    ensures Shl(FromBits(s), 8 - |s|) < 0x100
  {
    FromBitsBound(s);
    ShlBound(FromBits(s), |s|, 8 - |s|);
    WordSize();
  }

  /** A number that fits n bits is recovered from them. */
  lemma {:induction false} FromBitsOfBits(v: nat, n: nat)
    requires BitLen(v) <= n
    ensures FromBits(Bits(v, n)) == v
    decreases n
  {
    if n > 0 {
      FromBitsOfBits(v / 2, n - 1);
      assert Bits(v, n)[..n - 1] == Bits(v / 2, n - 1);
    }
  }

  lemma {:induction false} BitsOfFromBits(s: seq<bool>, n: nat)
    ensures Bits(Shl(FromBits(s), n), |s| + n) == s + Zeros(n)
    decreases |s| + n
  {
    if n > 0 {
      BitsOfFromBits(s, n - 1);
    } else if s != [] {
      var t := s[..|s| - 1];
      BitsOfFromBits(t, 0);
      assert s == t + [s[|s| - 1]];
    }
  }

  lemma {:induction false} BitAt(v: nat, n: nat, i: nat)
    requires i < n
    ensures Bits(v, n)[i] == (Shr(v, n - 1 - i) % 2 == 1)
    decreases n
  {
    if i < n - 1 {
      BitAt(v / 2, n - 1, i);
    }
  }

  lemma {:induction false} ByteBits(b: byte)
    ensures BytesBits([b]) == Bits(b, 8)
  {
    assert [b][1..] == [];
  }

  lemma {:induction false} BytesBitsAppend(a: seq<byte>, b: seq<byte>)
    ensures BytesBits(a + b) == BytesBits(a) + BytesBits(b)
  {
    if a == [] {
      assert a + b == b;
    } else {
      BytesBitsAppend(a[1..], b);
      assert (a + b)[1..] == a[1..] + b;
    }
  }

  lemma {:induction false} BytesBitsInjective(a: seq<byte>, b: seq<byte>)
    requires BytesBits(a) == BytesBits(b)
    ensures a == b
  {
    hide Bits, FromBits;
    assert |a| == |b|;
    if a != [] {
      assert BytesBits(a)[..8] == Bits(a[0], 8) && BytesBits(b)[..8] == Bits(b[0], 8);
      assert BytesBits(a)[8..] == BytesBits(a[1..]) && BytesBits(b)[8..] == BytesBits(b[1..]);
      WordSize();
      BitLenBound(a[0], 8);
      BitLenBound(b[0], 8);
      FromBitsOfBits(a[0], 8);
      FromBitsOfBits(b[0], 8);
      BytesBitsInjective(a[1..], b[1..]);
    }
  }

  /** The number of padding bits in the last byte. */
  function Padding(bits: seq<bool>): (n: nat)
    ensures n < 8
  {
    if |bits| % 8 == 0 then 0 else 8 - |bits| % 8
  }

  lemma {:induction false} PackLastByte(bits: seq<bool>)
    requires 0 < |bits| <= 8
    ensures BytesBits(Pack(bits)) == bits + Zeros(8 - |bits|)
  {
    PaddedByte(bits);
    var b: byte := Shl(FromBits(bits), 8 - |bits|);
    assert Pack(bits) == [b];
    ByteBits(b);
    BitsOfFromBits(bits, 8 - |bits|);
  }

  lemma {:induction false} WholeByte(s: seq<bool>)
    requires |s| == 8
    ensures FromBits(s) < 0x100 && Bits(FromBits(s), 8) == s
  {
    hide Bits, FromBits;
    FromBitsBound(s);
    WordSize();
    BitsOfFromBits(s, 0);
  }

  lemma {:induction false} PackFirstByte(bits: seq<bool>)
    requires |bits| > 8
    ensures BytesBits(Pack(bits)) == bits[..8] + BytesBits(Pack(bits[8..]))
  {
    hide Bits, FromBits, BytesBits;
    WholeByte(bits[..8]);
    var b: byte := FromBits(bits[..8]);
    assert Pack(bits) == [b] + Pack(bits[8..]);
    BytesBitsAppend([b], Pack(bits[8..]));
    ByteBits(b);
  }

  /** Packing adds less than a byte of zero bits and loses nothing. */
  lemma {:induction false} PackBits(bits: seq<bool>)
    ensures BytesBits(Pack(bits)) == bits + Zeros(Padding(bits))
  {
    hide BytesBits, Pack, Zeros;
    if |bits| > 8 {
      var n := Padding(bits);
      assert n == Padding(bits[8..]);
      PackFirstByte(bits);
      PackBits(bits[8..]);
      assert bits[..8] + (bits[8..] + Zeros(n)) == bits + Zeros(n);
    } else if bits != [] {
      PackLastByte(bits);
    } else {
      PackNothing();
    }
  }

  lemma {:induction false} PackNothing()
    ensures Pack([]) == [] && BytesBits([]) == [] && Zeros(0) == []
  {
  }

  lemma {:induction false} EmptyByte(pending: seq<bool>)
    requires pending == []
    ensures Shl(FromBits(pending), 8) == 0
  {
    assert Shl(0, 2) == 0;
    assert Shl(0, 4) == 0;
    assert Shl(0, 6) == 0;
    assert Shl(0, 8) == 0;
  }

  /** Setting bit 7 - n of a byte that holds n bits appends that bit. */
  lemma {:induction false} PushedBit(pending: seq<bool>, b: bool)
    requires |pending| < 8
    ensures
      var n := |pending|;
      var cur := Shl(FromBits(pending), 8 - n);
      var next := Shl(FromBits(pending + [b]), 7 - n);
      && next < 0x100
      && next == if b then Or(cur, Shl(1, 7 - n)) else cur
  {
    hide Shl, Or, FromBits;
    FromBitsPush(pending, b);
    PaddedByte(pending + [b]);
    ShlDouble(FromBits(pending), 7 - |pending|);
    OrSetsBit(FromBits(pending), 7 - |pending|);
  }

  /** Bytes that spell a bit string followed by less than a byte of zeros are its packing. */
  lemma {:induction false} PackUnique(bs: seq<byte>, bits: seq<bool>, n: nat)
    requires BytesBits(bs) == bits + Zeros(n) && n < 8
    ensures bs == Pack(bits)
  {
    hide BytesBits, Pack, Zeros;
    PackBits(bits);
    assert 8 * |bs| == |bits| + n && 8 * |Pack(bits)| == |bits| + Padding(bits);
    assert n == Padding(bits);
    BytesBitsInjective(bs, Pack(bits));
  }

  /** Whole bytes followed by a partly filled one pack into themselves. */
  lemma {:induction false} PackedParts(buf: seq<byte>, pending: seq<bool>, last: byte)
    requires 0 < |pending| <= 8 && last == Shl(FromBits(pending), 8 - |pending|)
    ensures BytesBits(buf + [last]) == BytesBits(buf) + pending + Zeros(8 - |pending|)
  {
    BitsOfFromBits(pending, 8 - |pending|);
    BytesBitsAppend(buf, [last]);
    ByteBits(last);
    assert Bits(last, 8) == pending + Zeros(8 - |pending|);
  }

  class BitWriter {
    var buf: seq<byte>
    var cur: byte
    var nBits: nat // bits filled in cur
    ghost var written: seq<bool>

    ghost predicate Valid()
      reads this
    {
      && nBits <= 8
      && |written| == 8 * |buf| + nBits
      && BytesBits(buf) == written[..8 * |buf|]
      && cur == Shl(FromBits(written[8 * |buf|..]), 8 - nBits)
    }

    constructor ()
      ensures Valid() && written == []
    {
      buf, cur, nBits, written := [], 0, 0, [];
      assert Shl(0, 8) == 0;
    }

    /** Moves a full current byte to the buffer. */
    method Spill()
      requires Valid()
      modifies this
      ensures Valid() && nBits < 8 && written == old(written)
    {
      if nBits == 8 {
        ghost var pending := written[8 * |buf|..];
        PackedParts(buf, pending, cur);
        assert Zeros(0) == [];
        assert written == written[..8 * |buf|] + pending;
        buf := buf + [cur];
        cur := 0;
        nBits := 0;
        EmptyByte(written[8 * |buf|..]);
      }
    }

    method WriteBit(b: bool)
      requires Valid()
      modifies this
      ensures Valid() && written == old(written) + [b]
    {
      hide Bits, BytesBits, Shl, Or, FromBits;
      Spill();
      PushedBit(written[8 * |buf|..], b);
      assert (written + [b])[8 * |buf|..] == written[8 * |buf|..] + [b];
      if b {
        cur := Or(cur, Shl(1, 7 - nBits));
      }
      nBits := nBits + 1;
      written := written + [b];
      assert written[..8 * |buf|] == old(written)[..8 * |buf|];
    }

    method WriteBits(v: uint64, n: nat)
      requires Valid()
      modifies this
      ensures Valid() && written == old(written) + Bits(v, n)
    {
      hide BytesBits, BitWriter.Valid, Shl;
      var i := n - 1;
      while i >= 0
        invariant -1 <= i < n
        invariant Valid()
        invariant written == old(written) + Bits(v, n)[..n - 1 - i]
      {
        BitAt(v, n, n - 1 - i);
        WriteBit(Shr(v, i) % 2 == 1);
        i := i - 1;
        assert Bits(v, n)[..n - 1 - i] == Bits(v, n)[..n - 2 - i] + [Bits(v, n)[n - 2 - i]];
      }
      assert Bits(v, n)[..n] == Bits(v, n);
    }

    method Bytes() returns (out: seq<byte>)
      requires Valid()
      ensures out == Pack(written)
    {
      out := buf;
      if nBits > 0 {
        out := out + [cur];
      }
      ghost var pending := written[8 * |buf|..];
      assert written == written[..8 * |buf|] + pending;
      if nBits > 0 {
        PackedParts(buf, pending, cur);
        PackUnique(out, written, 8 - nBits);
      } else {
        PackUnique(out, written, 0);
      }
    }
  }

  /** What a read of one bit gives: the bit and the bits after it. */
  function TakeBit(bits: seq<bool>): Result<(bool, seq<bool>)> {
    if bits == [] then Err(UnexpectedEOF) else Ok((bits[0], bits[1..]))
  }

  /** What a read of n bits gives; the accumulator is a 64-bit word. */
  function TakeBits(bits: seq<bool>, n: nat): Result<(uint64, seq<bool>)> {
    if |bits| < n then Err(UnexpectedEOF) else Ok((FromBits(bits[..n]) % TWO_64, bits[n..]))
  }

  /** The outcome r, with the bits `left` after it, is the one `spec` gives. */
  ghost predicate Reads<T(!new)>(r: Result<T>, left: seq<bool>, spec: Result<(T, seq<bool>)>) {
    match spec
    case Ok((v, rest)) => r == Ok(v) && left == rest
    case Err(e) => r == Err(e)
  }

  lemma {:induction false} NoBits(s: seq<bool>)
    requires s == []
    ensures FromBits(s) == 0
  {
  }

  lemma {:induction false} TakeStep(bits: seq<bool>, i: nat)
    requires i < |bits|
    ensures 2 * (FromBits(bits[..i]) % TWO_64) % TWO_64 + (if bits[i] then 1 else 0)
         == FromBits(bits[..i + 1]) % TWO_64
  {
    hide FromBits;
    assert bits[..i + 1] == bits[..i] + [bits[i]];
    FromBitsPush(bits[..i], bits[i]);
    WrapDouble(FromBits(bits[..i]), if bits[i] then 1 else 0);
  }

  class BitReader {
    var buf: seq<byte>
    var pos: nat // next byte to load
    var cur: byte
    var nBits: nat // bits left in cur
    ghost var left: seq<bool>

    ghost predicate Valid()
      reads this
    {
      && pos <= |buf|
      && nBits <= 8
      && left == Bits(cur, 8)[8 - nBits..] + BytesBits(buf[pos..])
    }

    constructor (data: seq<byte>)
      ensures Valid() && left == BytesBits(data)
    {
      buf, pos, cur, nBits, left := data, 0, 0, 0, BytesBits(data);
      assert data[0..] == data;
    }

    method ReadBit() returns (r: Result<bool>)
      requires Valid()
      modifies this
      ensures Valid() && Reads(r, left, TakeBit(old(left)))
    {
      if nBits == 0 {
        if pos >= |buf| {
          return Err(UnexpectedEOF);
        }
        assert buf[pos..][1..] == buf[pos + 1..];
        cur := buf[pos];
        pos := pos + 1;
        nBits := 8;
        assert Bits(cur, 8)[0..] == Bits(cur, 8);
      }
      BitAt(cur, 8, 8 - nBits);
      var b := Shr(cur, nBits - 1) % 2;
      nBits := nBits - 1;
      left := left[1..];
      r := Ok(b == 1);
    }

    method ReadBits(n: nat) returns (r: Result<uint64>)
      requires Valid()
      modifies this
      ensures Valid() && Reads(r, left, TakeBits(old(left), n))
    {
      hide Bits, BytesBits, BitReader.Valid, FromBits;
      NoBits(left[..0]);
      var v: uint64 := 0;
      var i := 0;
      while i < n
        invariant 0 <= i <= n
        invariant Valid()
        invariant |old(left)| >= i && left == old(left)[i..]
        invariant v == FromBits(old(left)[..i]) % TWO_64
      {
        var b :- ReadBit();
        TakeStep(old(left), i);
        v := 2 * v % TWO_64 + (if b then 1 else 0);
        i := i + 1;
      }
      r := Ok(v);
    }
  }
}
