/** The Gorilla encoder and decoder as they run: one pass over the points, writing to or
    reading from a bit stream and updating the XOR block in place. */
module Gorilla {
  import opened Words
  import opened Model
  import opened BitStream
  import opened GorillaSpec
  import opened GorillaCodes

  class XorBlock {
    var prev: uint64
    var leading: byte
    var trailing: byte
    var hasBlock: bool

    constructor (bits: uint64)
      ensures State() == XorState(bits, 0, 0, false)
    {
      prev, leading, trailing, hasBlock := bits, 0, 0, false;
    }

    function State(): XorState
      reads this
    {
      XorState(prev, leading, trailing, hasBlock)
    }
  }

  /** Emits the code of a delta of deltas: 1, 9, 12, 16 or 68 bits, by the range it lies in. */
  method EncodeDod(w: BitWriter, dod: int64)
    requires w.Valid()
    modifies w
    ensures w.Valid() && w.written == old(w.written) + DodBits(dod)
    ensures EmitsDod(old(w.written), w.written, dod)
  {
    hide Bits, BitWriter.Valid, EmitsDod;
    DodEmitted(w.written, dod);
    if dod == 0 {
      w.WriteBit(false);
    } else if dod >= -63 && dod <= 64 {
      w.WriteBit(true);
      w.WriteBit(false);
      w.WriteBits(dod + 63, 7);
    } else if dod >= -255 && dod <= 256 {
      w.WriteBit(true);
      w.WriteBit(true);
      w.WriteBit(false);
      w.WriteBits(dod + 255, 9);
    } else {
      EncodeWideDod(w, dod);
    }
  }

  method EncodeWideDod(w: BitWriter, dod: int64)
    requires w.Valid() && !(-255 <= dod <= 256)
    modifies w
    ensures w.Valid() && w.written == old(w.written) + DodBits(dod)
  {
    hide Bits, BitWriter.Valid, DodBits;
    WidePrefix(w.written, dod);
    w.WriteBit(true);
    w.WriteBit(true);
    w.WriteBit(true);
    if dod >= -2047 && dod <= 2048 {
      w.WriteBit(false);
      w.WriteBits(dod + 2047, 12);
    } else {
      w.WriteBit(true);
      w.WriteBits(ToUint(dod), 64);
    }
  }

  lemma {:induction false} WidePrefix(s: seq<bool>, dod: int64)
    requires !(-255 <= dod <= 256)
    ensures -2047 <= dod <= 2048 ==>
              s + DodBits(dod) == s + [true] + [true] + [true] + [false] + Bits(dod + 2047, 12)
    ensures !(-2047 <= dod <= 2048) ==>
              s + DodBits(dod) == s + [true] + [true] + [true] + [true] + Bits(ToUint(dod), 64)
  {
    hide Bits;
  }

  method DecodeDod(r: BitReader) returns (dod: Result<int64>)
    requires r.Valid()
    modifies r
    ensures r.Valid() && Reads(dod, r.left, ReadDod(old(r.left)))
  {
    hide TakeBits, BitReader.Valid, Wrap;
    var b :- r.ReadBit();
    if !b {
      return Ok(0);
    }
    b :- r.ReadBit();
    if !b {
      var v :- r.ReadBits(7);
      return Ok(Wrap(ToInt(v) - 63));
    }
    b :- r.ReadBit();
    if !b {
      var v :- r.ReadBits(9);
      return Ok(Wrap(ToInt(v) - 255));
    }
    b :- r.ReadBit();
    if !b {
      var v :- r.ReadBits(12);
      return Ok(Wrap(ToInt(v) - 2047));
    }
    var v :- r.ReadBits(64);
    dod := Ok(ToInt(v));
  }

  /** Emits the code of a value: 1 bit when it is the value before; 2 bits and the bits of the block
      when there is one and all changed bits lie inside; otherwise 13 bits and those of a new block
      that reaches from the highest changed bit, or bit 32 when it is lower, to the lowest. */
  method EncodeValue(w: BitWriter, bits: uint64, st: XorBlock)
    requires w.Valid()
    modifies w, st
    ensures w.Valid() && w.written == old(w.written) + ValueBits(bits, old(st.State()))
    ensures st.State() == NextState(bits, old(st.State()))
    ensures EmitsValue(old(w.written), w.written, bits, old(st.State()), st.State())
  {
    hide EmitsValue, Xor, ValueBits, NextState, BitWriter.Valid;
    ghost var before, was := w.written, st.State();
    ValueEmitted(before, bits, was);
    var x := Xor64(bits, st.prev);
    st.prev := bits;
    if x == 0 {
      UnchangedValue(bits, was);
      w.WriteBit(false);
    } else {
      EncodeChanged(w, x, st, was);
    }
  }

  lemma {:induction false} UnchangedValue(bits: uint64, st: XorState)
    requires Xor64(bits, st.prev) == 0
    ensures ValueBits(bits, st) == [false] && NextState(bits, st) == st.(prev := bits)
  {
  }

  /** The code of a value that differs from the one before by x. */
  method EncodeChanged(w: BitWriter, x: uint64, st: XorBlock, ghost was: XorState)
    requires w.Valid() && x != 0 && x == Xor64(st.prev, was.prev) && st.State() == was.(prev := st.prev)
    modifies w, st
    ensures w.Valid() && w.written == old(w.written) + ValueBits(old(st.prev), was)
    ensures st.State() == NextState(old(st.prev), was)
  {
    hide Bits, Shr, Xor, LeadingZeros, TrailingZeros, BitWriter.Valid, ValueBits, NextState, BlockBits;
    ValueSteps(st.prev, was);
    w.WriteBit(true);
    var leading, trailing := LeadingZeros(x), TrailingZeros(x);
    if !st.hasBlock || leading < st.leading || trailing < st.trailing {
      w.WriteBit(true);
      if leading > MAX_LEADING {
        leading := MAX_LEADING;
      }
      WriteBlock(w, x, leading, trailing);
      st.leading := leading;
      st.trailing := trailing;
      st.hasBlock := true;
    } else {
      w.WriteBit(false);
      ShiftedWord(x, st.trailing);
      w.WriteBits(Shr(x, st.trailing), Width(st.leading, st.trailing));
    }
  }

  method WriteBlock(w: BitWriter, x: uint64, leading: byte, trailing: byte)
    requires w.Valid() && x != 0 && leading == CappedLeading(x) && trailing == TrailingZeros(x)
    modifies w
    ensures w.Valid() && w.written == old(w.written) + BlockBits(x)
  {
    hide Bits, Shr, LeadingZeros, TrailingZeros, BitWriter.Valid;
    TrailingBound(x);
    var meaningful := Width(leading, trailing);
    w.WriteBits(leading, 5);
    w.WriteBits(meaningful - 1, 6);
    ShiftedWord(x, trailing);
    w.WriteBits(Shr(x, trailing), meaningful);
  }

  /** The emitted value field and the next state, by the encoder's three cases. */
  lemma {:induction false} ValueSteps(bits: uint64, st: XorState)
    ensures
      var x := Xor64(bits, st.prev);
      ValueBits(bits, st) ==
        (if x == 0 then [false]
         else if NewBlock(x, st) then [true] + [true] + BlockBits(x)
         else [true] + [false] + Bits(Shr(x, st.trailing), Width(st.leading, st.trailing)))
    ensures
      var x := Xor64(bits, st.prev);
      if x != 0 && NewBlock(x, st) then
        && TrailingZeros(x) < 0x100
        && NextState(bits, st) == XorState(bits, CappedLeading(x), TrailingZeros(x), true)
      else NextState(bits, st) == st.(prev := bits)
  {
    hide Bits, Shr, Xor, Xor64, LeadingZeros, TrailingZeros;
    if Xor64(bits, st.prev) != 0 {
      TrailingBound(Xor64(bits, st.prev));
    }
  }

  lemma {:induction false} ShiftedWord(x: nat, n: nat)
    ensures Shr(x, n) <= x
    decreases n
  {
    if n > 0 {
      ShiftedWord(x / 2, n - 1);
    }
  }

  /** Reads a new block and moves the state to it. */
  method DecodeBlock(r: BitReader, st: XorBlock) returns (x: Result<uint64>)
    requires r.Valid()
    modifies r, st
    ensures r.Valid() && st.prev == old(st.prev)
    ensures match ReadBlock(old(r.left), old(st.State()))
            case Ok(((value, st'), rest)) =>
              x.Ok? && value == Xor64(x.value, st.prev) && st' == st.State().(prev := value) && r.left == rest
            case Err(e) => x == Err(e)
  {
    hide Shl64, Xor64, TakeBits;
    var l :- r.ReadBits(5);
    var m :- r.ReadBits(6);
    var leading := l % 0x100;
    var meaningful := (m % 0x100 + 1) % 0x100;
    var trailing := Width(leading, meaningful);
    var payload :- r.ReadBits(meaningful);
    st.leading := leading;
    st.trailing := trailing;
    st.hasBlock := true;
    x := Ok(Shl64(payload, trailing));
  }

  /** Reads a payload of the block in the state, if there is one. */
  method DecodeReused(r: BitReader, st: XorBlock) returns (x: Result<uint64>)
    requires r.Valid()
    modifies r
    ensures r.Valid()
    ensures match ReadReused(old(r.left), st.State())
            case Ok(((value, st'), rest)) =>
              x.Ok? && value == Xor64(x.value, st.prev) && st' == st.State().(prev := value) && r.left == rest
            case Err(e) => x == Err(e)
  {
    hide Shl64, Xor64, TakeBits;
    if !st.hasBlock {
      return Err(ReuseBeforeBlock);
    }
    var payload :- r.ReadBits(Width(st.leading, st.trailing));
    x := Ok(Shl64(payload, st.trailing));
  }

  /** A block cannot be reused before there is one. */
  lemma {:induction false} ReuseRefused(bits: seq<bool>, st: XorState)
    ensures [true, false] <= bits && !st.hasBlock ==> ReadValue(bits, st) == Err(ReuseBeforeBlock)
  {
    hide TakeBits, Xor64;
  }

  method DecodeValue(r: BitReader, st: XorBlock) returns (v: Result<uint64>)
    requires r.Valid()
    modifies r, st
    ensures r.Valid()
    ensures match ReadValue(old(r.left), old(st.State()))
            case Ok(((value, st'), rest)) => v == Ok(value) && st.State() == st' && r.left == rest
            case Err(e) => v == Err(e)
    ensures [true, false] <= old(r.left) && !old(st.hasBlock) ==> v == Err(ReuseBeforeBlock)
    ensures |old(r.left)| < 2 && old(r.left) != [false] ==> v == Err(UnexpectedEOF)
    ensures [false] <= old(r.left) ==> v == Ok(old(st.prev)) && st.State() == old(st.State())
  {
    hide Xor64, ReadBlock, ReadReused, BitReader.Valid;
    ReuseRefused(r.left, st.State());
    var changed :- r.ReadBit();
    if !changed {
      return Ok(st.prev);
    }
    var isNew :- r.ReadBit();
    var x: uint64;
    if isNew {
      x :- DecodeBlock(r, st);
    } else {
      x :- DecodeReused(r, st);
    }
    var result := Xor64(x, st.prev);
    st.prev := result;
    v := Ok(result);
  }

  /** The bit string of at least two points, read from the left. */
  lemma {:induction false} PointsSteps(ps: seq<Point>)
    requires |ps| >= 2
    ensures
      var delta := Wrap(ps[1].ts - ps[0].ts);
      PointsBits(ps) == Bits(ToUint(ps[0].ts), 64) + Bits(ps[0].bits, 64) + Bits(ToUint(delta), 64)
                        + ValueBits(ps[1].bits, FirstState(ps[0]))
                        + TailBits(ps[1].ts, delta, NextState(ps[1].bits, FirstState(ps[0])), ps[2..])
  {
    hide Bits, ValueBits, TailBits, NextState, Wrap;
  }

  lemma {:induction false} TailStep(prevTS: int64, prevDelta: int64, st: XorState, ps: seq<Point>, i: nat)
    requires i < |ps|
    ensures
      var delta := Wrap(ps[i].ts - prevTS);
      TailBits(prevTS, prevDelta, st, ps[i..])
        == DodBits(Wrap(delta - prevDelta)) + ValueBits(ps[i].bits, st)
           + TailBits(ps[i].ts, delta, NextState(ps[i].bits, st), ps[i + 1..])
  {
    hide DodBits, ValueBits, NextState, Wrap;
    assert ps[i..][0] == ps[i] && ps[i..][1..] == ps[i + 1..];
  }

  method EncodePoints(ps: seq<Point>) returns (out: seq<byte>)
    ensures out == Encode(ps)
  {
    hide Pack, ValueBits, NextState, DodBits, Wrap, BitWriter.Valid, Bits, TailBits, EmitsValue;
    if |ps| == 0 {
      assert PointsBits(ps) == [];
      EmptyPack();
      return [];
    }
    var w := new BitWriter();
    w.WriteBits(ToUint(ps[0].ts), 64);
    w.WriteBits(ps[0].bits, 64);
    if |ps| == 1 {
      assert w.written == PointsBits(ps);
      out := w.Bytes();
      return;
    }
    hide PointsBits;
    PointsSteps(ps);
    var delta1 := Wrap(ps[1].ts - ps[0].ts);
    w.WriteBits(ToUint(delta1), 64);
    var st := new XorBlock(ps[0].bits);
    EncodeValue(w, ps[1].bits, st);
    EncodeTail(w, st, ps, delta1);
    assert w.written == PointsBits(ps);
    out := w.Bytes();
  }

  /** The points from the third on. */
  method EncodeTail(w: BitWriter, st: XorBlock, ps: seq<Point>, delta1: int64)
    requires w.Valid() && |ps| >= 2
    modifies w, st
    ensures w.Valid()
    ensures w.written == old(w.written) + TailBits(ps[1].ts, delta1, old(st.State()), ps[2..])
  {
    hide ValueBits, NextState, DodBits, Wrap, BitWriter.Valid, EmitsDod, EmitsValue;
    ghost var all := w.written + TailBits(ps[1].ts, delta1, st.State(), ps[2..]);
    var prevTS, prevDelta := ps[1].ts, delta1;
    var i := 2;
    while i < |ps|
      invariant 2 <= i <= |ps|
      invariant w.Valid()
      invariant w.written + TailBits(prevTS, prevDelta, st.State(), ps[i..]) == all
    {
      hide TailBits;
      TailStep(prevTS, prevDelta, st.State(), ps, i);
      var delta := Wrap(ps[i].ts - prevTS);
      EncodeDod(w, Wrap(delta as int - prevDelta));
      EncodeValue(w, ps[i].bits, st);
      prevDelta := delta;
      prevTS := ps[i].ts;
      i := i + 1;
    }
    assert ps[i..] == [];
  }

  lemma {:induction false} EmptyPack()
    ensures Pack([]) == []
  {
  }

  /** The decoded prefix followed by what the rest of the input decodes to. */
  ghost function Resume(prefix: seq<Point>, r: Result<(seq<Point>, seq<bool>)>): Result<(seq<Point>, seq<bool>)> {
    match r
    case Ok((ps, rest)) => Ok((prefix + ps, rest))
    case Err(e) => Err(e)
  }

  method DecodePoints(data: seq<byte>, n: nat) returns (r: Result<seq<Point>>)
    ensures r == Decode(data, n)
  {
    hide BytesBits, TakeBits, ReadDod, ReadValue, Wrap, BitReader.Valid;
    if n == 0 {
      return Ok([]);
    }
    var br := new BitReader(data);
    var tsBits :- br.ReadBits(64);
    var valBits :- br.ReadBits(64);
    var ps := [Point(ToInt(tsBits), valBits)];
    if n == 1 {
      return Ok(ps);
    }
    var deltaBits :- br.ReadBits(64);
    var delta := ToInt(deltaBits);
    var st := new XorBlock(valBits);
    var vb :- DecodeValue(br, st);
    ps := ps + [Point(Wrap(ps[0].ts + delta), vb)];
    assert ps == [ps[0], ps[1]];
    r := DecodeTail(br, st, ps, delta, n);
  }

  /** The points from the third on, after the first two. */
  method DecodeTail(br: BitReader, st: XorBlock, first: seq<Point>, delta1: int64, n: nat)
    returns (r: Result<seq<Point>>)
    requires br.Valid() && |first| == 2 <= n
    modifies br, st
    ensures match ReadTail(old(br.left), first[1].ts, delta1, old(st.State()), n - 2)
            case Ok((ps, _)) => r == Ok(first + ps)
            case Err(e) => r == Err(e)
  {
    hide BytesBits, TakeBits, ReadDod, ReadValue, Wrap, BitReader.Valid;
    var ps, prevDelta := first, delta1;
    ghost var all := Resume(first, ReadTail(br.left, first[1].ts, delta1, st.State(), n - 2));
    var i := 2;
    while i < n
      invariant 2 <= i <= n && |ps| == i && br.Valid()
      invariant all == Resume(ps, ReadTail(br.left, ps[i - 1].ts, prevDelta, st.State(), n - i))
    {
      var dod :- DecodeDod(br);
      var delta := Wrap(dod as int + prevDelta);
      var ts := Wrap(ps[i - 1].ts + delta);
      prevDelta := delta;
      var vb :- DecodeValue(br, st);
      ghost var more := ReadTail(br.left, ts, delta, st.State(), n - i - 1);
      if more.Ok? {
        assert ps + ([Point(ts, vb)] + more.value.0) == ps + [Point(ts, vb)] + more.value.0;
      }
      ps := ps + [Point(ts, vb)];
      i := i + 1;
    }
    assert ps + [] == ps;
    r := Ok(ps);
  }
}
