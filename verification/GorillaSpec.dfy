/** The Gorilla bit format: what the encoder emits and what the decoder reads, as functions
    on bit strings. Sections 4.1.1 and 4.1.2 of Pelkonen et al., "Gorilla: A Fast, Scalable,
    In-Memory Time Series Database" (VLDB 2015), with 64-bit escapes. */
module GorillaSpec {
  import opened Words
  import opened Model
  import opened BitStream

  const MAX_LEADING: byte := 31

  /** The XOR block shared by consecutive values: the encoder's and the decoder's state. */
  datatype XorState = XorState(prev: uint64, leading: byte, trailing: byte, hasBlock: bool)

  /** 64 - leading - trailing in uint8 arithmetic. */
  function Width(leading: byte, trailing: byte): byte {
    (64 - leading - trailing) % 0x100
  }

  function FirstState(p: Point): XorState {
    XorState(p.bits, 0, 0, false)
  }

  function CappedLeading(x: uint64): byte {
    if LeadingZeros(x) > MAX_LEADING then MAX_LEADING else LeadingZeros(x)
  }

  /** The encoder opens a new block when there is none or the nonzero bits leave it. */
  predicate NewBlock(x: uint64, st: XorState) {
    !st.hasBlock || LeadingZeros(x) < st.leading || TrailingZeros(x) < st.trailing
  }

  // ---- encoder ----

  function DodBits(dod: int64): seq<bool> {
    if dod == 0 then [false]
    else if -63 <= dod <= 64 then [true, false] + Bits(dod + 63, 7)
    else if -255 <= dod <= 256 then [true, true, false] + Bits(dod + 255, 9)
    else if -2047 <= dod <= 2048 then [true, true, true, false] + Bits(dod + 2047, 12)
    else [true, true, true, true] + Bits(ToUint(dod), 64)
  }

  function BlockBits(x: uint64): seq<bool>
    requires x != 0
  {
    TrailingBound(x);
    var leading, trailing := CappedLeading(x), TrailingZeros(x);
    var meaningful := Width(leading, trailing);
    Bits(leading, 5) + Bits(meaningful - 1, 6) + Bits(Shr(x, trailing), meaningful)
  }

  function ValueBits(v: uint64, st: XorState): seq<bool> {
    var x := Xor64(v, st.prev);
    if x == 0 then [false]
    else if NewBlock(x, st) then [true, true] + BlockBits(x)
    else [true, false] + Bits(Shr(x, st.trailing), Width(st.leading, st.trailing))
  }

  function NextState(v: uint64, st: XorState): XorState {
    var x := Xor64(v, st.prev);
    if x != 0 && NewBlock(x, st) then
      TrailingBound(x);
      XorState(v, CappedLeading(x), TrailingZeros(x), true)
    else
      st.(prev := v)
  }

  function TailBits(prevTS: int64, prevDelta: int64, st: XorState, ps: seq<Point>): seq<bool>
    decreases ps
  {
    if ps == [] then []
    else
      var delta := Wrap(ps[0].ts - prevTS);
      DodBits(Wrap(delta - prevDelta)) + ValueBits(ps[0].bits, st)
      + TailBits(ps[0].ts, delta, NextState(ps[0].bits, st), ps[1..])
  }

  function PointsBits(ps: seq<Point>): seq<bool> {
    if ps == [] then []
    else
      var first := Bits(ToUint(ps[0].ts), 64) + Bits(ps[0].bits, 64);
      if |ps| == 1 then first
      else
        var delta := Wrap(ps[1].ts - ps[0].ts);
        var st := FirstState(ps[0]);
        first + Bits(ToUint(delta), 64) + ValueBits(ps[1].bits, st)
        + TailBits(ps[1].ts, delta, NextState(ps[1].bits, st), ps[2..])
  }

  /** The compressed form of a list of points. */
  function Encode(ps: seq<Point>): seq<byte> {
    Pack(PointsBits(ps))
  }

  // ---- decoder ----

  function ReadDod(bits: seq<bool>): Result<(int64, seq<bool>)> {
    var (b, r1) :- TakeBit(bits);
    if !b then Ok((0, r1))
    else
      var (b, r2) :- TakeBit(r1);
      if !b then
        var (v, rest) :- TakeBits(r2, 7);
        Ok((Wrap(ToInt(v) - 63), rest))
      else
        var (b, r3) :- TakeBit(r2);
        if !b then
          var (v, rest) :- TakeBits(r3, 9);
          Ok((Wrap(ToInt(v) - 255), rest))
        else
          var (b, r4) :- TakeBit(r3);
          if !b then
            var (v, rest) :- TakeBits(r4, 12);
            Ok((Wrap(ToInt(v) - 2047), rest))
          else
            var (v, rest) :- TakeBits(r4, 64);
            Ok((ToInt(v), rest))
  }

  /** A value and the state after it. */
  function ReadValue(bits: seq<bool>, st: XorState): Result<((uint64, XorState), seq<bool>)> {
    var (changed, r1) :- TakeBit(bits);
    if !changed then Ok(((st.prev, st), r1))
    else
      var (isNew, r2) :- TakeBit(r1);
      if isNew then ReadBlock(r2, st) else ReadReused(r2, st)
  }

  function ReadBlock(bits: seq<bool>, st: XorState): Result<((uint64, XorState), seq<bool>)> {
    var (l, r1) :- TakeBits(bits, 5);
    var (m, r2) :- TakeBits(r1, 6);
    var leading := l % 0x100;
    var meaningful := (m % 0x100 + 1) % 0x100;
    var trailing := Width(leading, meaningful);
    var (payload, rest) :- TakeBits(r2, meaningful);
    var v := Xor64(Shl64(payload, trailing), st.prev);
    Ok(((v, XorState(v, leading, trailing, true)), rest))
  }

  function ReadReused(bits: seq<bool>, st: XorState): Result<((uint64, XorState), seq<bool>)> {
    if !st.hasBlock then Err(ReuseBeforeBlock)
    else
      var (payload, rest) :- TakeBits(bits, Width(st.leading, st.trailing));
      var v := Xor64(Shl64(payload, st.trailing), st.prev);
      Ok(((v, st.(prev := v)), rest))
  }

  function ReadTail(bits: seq<bool>, prevTS: int64, prevDelta: int64, st: XorState, n: nat):
    Result<(seq<Point>, seq<bool>)>
    decreases n
  {
    if n == 0 then Ok(([], bits))
    else
      var (dod, r1) :- ReadDod(bits);
      var delta := Wrap(dod + prevDelta);
      var ts := Wrap(prevTS + delta);
      var ((v, st'), r2) :- ReadValue(r1, st);
      var (ps, rest) :- ReadTail(r2, ts, delta, st', n - 1);
      Ok(([Point(ts, v)] + ps, rest))
  }

  function ReadPoints(bits: seq<bool>, n: nat): Result<(seq<Point>, seq<bool>)> {
    if n == 0 then Ok(([], bits))
    else
      var (ts, r1) :- TakeBits(bits, 64);
      var (v, r2) :- TakeBits(r1, 64);
      var p := Point(ToInt(ts), v);
      if n == 1 then Ok(([p], r2))
      else
        var (d, r3) :- TakeBits(r2, 64);
        var delta := ToInt(d);
        var ts1 := Wrap(p.ts + delta);
        var ((v1, st), r4) :- ReadValue(r3, FirstState(p));
        var (ps, rest) :- ReadTail(r4, ts1, delta, st, n - 2);
        Ok(([p, Point(ts1, v1)] + ps, rest))
  }

  /** What decompressing n points from data gives. */
  function Decode(data: seq<byte>, n: nat): Result<seq<Point>> {
    var (ps, _) :- ReadPoints(BytesBits(data), n);
    Ok(ps)
  }

  // ---- bounds the definitions need ----

  lemma {:induction false} TrailingBound(x: uint64)
    requires x != 0
    ensures TrailingZeros(x) < BitLen(x) == 64 - LeadingZeros(x) <= 64
    ensures 1 <= Width(CappedLeading(x), TrailingZeros(x)) <= 64
    ensures Width(CappedLeading(x), TrailingZeros(x)) == 64 - CappedLeading(x) - TrailingZeros(x)
  {
    ZerosLeaveABit(x);
  }
}
