/** The codec's laws: round trip, detection of truncation, and size bounds. */
module GorillaProofs {
  import opened Words
  import opened Model
  import opened BitStream
  import opened GorillaSpec

  /** What the encoder keeps about its block. */
  ghost predicate Good(st: XorState) {
    st.hasBlock ==> st.leading <= MAX_LEADING && st.leading + st.trailing <= 63
  }

  lemma {:induction false} TakeWord(v: uint64, n: nat, rest: seq<bool>)
    requires BitLen(v) <= n
    ensures TakeBits(Bits(v, n) + rest, n) == Ok((v, rest))
  {
    FromBitsOfBits(v, n);
    assert (Bits(v, n) + rest)[..n] == Bits(v, n);
    assert (Bits(v, n) + rest)[n..] == rest;
  }

  lemma {:induction false} WordFits(v: uint64)
    ensures BitLen(v) <= 64
  {
    WordSize();
    BitLenBound(v, 64);
  }

  lemma {:induction false} SmallFits(v: nat)
    ensures v < 0x20 ==> BitLen(v) <= 5
    ensures v < 0x40 ==> BitLen(v) <= 6
    ensures v < 0x80 ==> BitLen(v) <= 7
    ensures v < 0x200 ==> BitLen(v) <= 9
    ensures v < 0x1000 ==> BitLen(v) <= 12
  {
    assert Shl(1, 5) == 0x20 && Shl(1, 6) == 0x40 && Shl(1, 7) == 0x80;
    assert Shl(1, 9) == 0x200 && Shl(1, 12) == 0x1000;
    if v < 0x20 { BitLenBound(v, 5); }
    if v < 0x40 { BitLenBound(v, 6); }
    if v < 0x80 { BitLenBound(v, 7); }
    if v < 0x200 { BitLenBound(v, 9); }
    if v < 0x1000 { BitLenBound(v, 12); }
  }

  lemma {:induction false} TakeOne(b: bool, rest: seq<bool>)
    ensures TakeBit([b] + rest) == Ok((b, rest))
  {
  }

  lemma {:induction false} DodShort(w: seq<bool>, rest: seq<bool>)
    ensures ReadDod([true, false] + w + rest) == (var (v, r) :- TakeBits(w + rest, 7); Ok((Wrap(ToInt(v) - 63), r)))
  {
    var r2 := w + rest;
    TakeOne(true, [false] + r2);
    TakeOne(false, r2);
    assert [true, false] + w + rest == [true] + ([false] + r2);
  }

  lemma {:induction false} DodMedium(w: seq<bool>, rest: seq<bool>)
    ensures ReadDod([true, true, false] + w + rest)
         == (var (v, r) :- TakeBits(w + rest, 9); Ok((Wrap(ToInt(v) - 255), r)))
  {
    var r3 := w + rest;
    TakeOne(true, [true] + ([false] + r3));
    TakeOne(true, [false] + r3);
    TakeOne(false, r3);
    assert [true, true, false] + w + rest == [true] + ([true] + ([false] + r3));
  }

  lemma {:induction false} DodLong(b: bool, w: seq<bool>, rest: seq<bool>)
    ensures ReadDod([true, true, true, b] + w + rest)
         == if b then (var (v, r) :- TakeBits(w + rest, 64); Ok((ToInt(v), r)))
            else (var (v, r) :- TakeBits(w + rest, 12); Ok((Wrap(ToInt(v) - 2047), r)))
  {
    var r4 := w + rest;
    TakeOne(true, [true] + ([true] + ([b] + r4)));
    TakeOne(true, [true] + ([b] + r4));
    TakeOne(true, [b] + r4);
    TakeOne(b, r4);
    assert [true, true, true, b] + w + rest == [true] + ([true] + ([true] + ([b] + r4)));
  }

  lemma {:induction false} DodRoundTrip(dod: int64, rest: seq<bool>)
    ensures ReadDod(DodBits(dod) + rest) == Ok((dod, rest))
  {
    if dod == 0 {
      TakeOne(false, rest);
    } else {
      DodEscapes(dod, rest);
    }
  }

  lemma {:induction false} DodEscapes(dod: int64, rest: seq<bool>)
    requires dod != 0
    ensures ReadDod(DodBits(dod) + rest) == Ok((dod, rest))
  {
    hide ReadDod, Bits, TakeBits, BitLen;
    if -63 <= dod <= 64 {
      SmallFits(dod + 63);
      DodShort(Bits(dod + 63, 7), rest);
      TakeWord(dod + 63, 7, rest);
    } else if -255 <= dod <= 256 {
      SmallFits(dod + 255);
      DodMedium(Bits(dod + 255, 9), rest);
      TakeWord(dod + 255, 9, rest);
    } else if -2047 <= dod <= 2048 {
      SmallFits(dod + 2047);
      DodLong(false, Bits(dod + 2047, 12), rest);
      TakeWord(dod + 2047, 12, rest);
    } else {
      WordFits(ToUint(dod));
      DodLong(true, Bits(ToUint(dod), 64), rest);
      TakeWord(ToUint(dod), 64, rest);
    }
  }

  /** The significant bits of x, written without its trailing zeros, give x back. */
  lemma {:induction false} PayloadRoundTrip(x: uint64, leading: nat, trailing: nat, rest: seq<bool>)
    requires leading <= LeadingZeros(x) && trailing <= TrailingZeros(x) && leading + trailing <= 63
    ensures
      var n := 64 - leading - trailing;
      var payload := Shr(x, trailing);
      && payload < TWO_64
      && TakeBits(Bits(payload, n) + rest, n) == Ok((payload, rest))
      && Shl64(payload, trailing) == x
  {
    hide Bits, Shr, Shl, TakeBits, BitLen, TrailingZeros;
    var n, payload := 64 - leading - trailing, Shr(x, trailing);
    WordFits(x);
    BitLenShr(x, trailing);
    BelowShl(payload, 64);
    WordSize();
    TakeWord(payload, n, rest);
    ShiftBack(x, trailing);
  }

  lemma {:induction false} Assoc4(a: seq<bool>, b: seq<bool>, c: seq<bool>, d: seq<bool>)
    ensures a + b + c + d == a + (b + (c + d))
  {
  }

  lemma {:induction false} BlockFields(leading: byte, m: byte, payload: seq<bool>, st: XorState, rest: seq<bool>)
    requires leading <= MAX_LEADING && 1 <= m <= 64
    ensures ReadBlock(Bits(leading, 5) + Bits(m - 1, 6) + payload + rest, st)
         == (var trailing := Width(leading, m);
             var (word, r) :- TakeBits(payload + rest, m);
             var v := Xor64(Shl64(word, trailing), st.prev);
             Ok(((v, XorState(v, leading, trailing, true)), r)))
  {
    hide Bits, FromBits, TakeBits, ReadBlock;
    var r2 := payload + rest;
    var r1 := Bits(m - 1, 6) + r2;
    Assoc4(Bits(leading, 5), Bits(m - 1, 6), payload, rest);
    SmallFits(leading);
    TakeWord(leading, 5, r1);
    SmallFits(m - 1);
    TakeWord(m - 1, 6, r2);
    BlockRead(Bits(leading, 5) + r1, leading, r1, m, r2, st);
  }

  /** What a block reads as once its two fields are taken. */
  lemma {:induction false} BlockRead(
    bits: seq<bool>, leading: byte, r1: seq<bool>, m: byte, r2: seq<bool>, st: XorState)
    requires leading <= MAX_LEADING && 1 <= m <= 64
    requires TakeBits(bits, 5) == Ok((leading, r1)) && TakeBits(r1, 6) == Ok((m - 1, r2))
    ensures ReadBlock(bits, st)
         == (var trailing := Width(leading, m);
             var (word, r) :- TakeBits(r2, m);
             var v := Xor64(Shl64(word, trailing), st.prev);
             Ok(((v, XorState(v, leading, trailing, true)), r)))
  {
    hide Xor64, Shl64, TakeBits, Xor, Shl;
    assert leading % 0x100 == leading && ((m - 1) % 0x100 + 1) % 0x100 == m;
  }

  lemma {:induction false} BlockRoundTrip(v: uint64, st: XorState, rest: seq<bool>)
    requires v != st.prev && NewBlock(Xor64(v, st.prev), st)
    ensures Xor64(v, st.prev) != 0
    ensures ReadBlock(BlockBits(Xor64(v, st.prev)) + rest, st) == Ok(((v, NextState(v, st)), rest))
    ensures Good(NextState(v, st))
  {
    hide ReadBlock, Bits, TakeBits, Shl64, Shr, LeadingZeros, TrailingZeros, Xor;
    XorInvolutive(v, st.prev);
    var x := Xor64(v, st.prev);
    TrailingBound(x);
    var leading, trailing := CappedLeading(x), TrailingZeros(x);
    var m := Width(leading, trailing);
    BlockFields(leading, m, Bits(Shr(x, trailing), m), st, rest);
    PayloadRoundTrip(x, leading, trailing, rest);
    assert Width(leading, m) == trailing;
  }

  lemma {:induction false} ReuseRoundTrip(v: uint64, st: XorState, rest: seq<bool>)
    requires v != st.prev && !NewBlock(Xor64(v, st.prev), st) && Good(st)
    ensures ReadReused(Bits(Shr(Xor64(v, st.prev), st.trailing), Width(st.leading, st.trailing)) + rest, st)
         == Ok(((v, NextState(v, st)), rest))
  {
    hide Bits, TakeBits, Shl64, Shr, LeadingZeros, TrailingZeros, Xor;
    XorInvolutive(v, st.prev);
    PayloadRoundTrip(Xor64(v, st.prev), st.leading, st.trailing, rest);
  }

  /** Encoder and decoder stay in the same state, value by value. */
  lemma {:induction false} ValueRoundTrip(v: uint64, st: XorState, rest: seq<bool>)
    requires Good(st)
    ensures ReadValue(ValueBits(v, st) + rest, st) == Ok(((v, NextState(v, st)), rest))
    ensures Good(NextState(v, st))
  {
    hide Xor, BlockBits, Bits, ReadBlock, ReadReused, Shr, LeadingZeros, TrailingZeros;
    XorInvolutive(v, st.prev);
    var x := Xor64(v, st.prev);
    var bits := ValueBits(v, st) + rest;
    if x == 0 {
      assert bits[1..] == rest;
    } else if NewBlock(x, st) {
      assert bits[1..][1..] == BlockBits(x) + rest;
      BlockRoundTrip(v, st, rest);
    } else {
      assert bits[1..][1..] == Bits(Shr(x, st.trailing), Width(st.leading, st.trailing)) + rest;
      ReuseRoundTrip(v, st, rest);
    }
  }

  lemma {:induction false} TailRoundTrip(
    prevTS: int64, prevDelta: int64, st: XorState, ps: seq<Point>, rest: seq<bool>)
    requires Good(st)
    ensures ReadTail(TailBits(prevTS, prevDelta, st, ps) + rest, prevTS, prevDelta, st, |ps|) == Ok((ps, rest))
    decreases ps
  {
    hide DodBits, ReadDod, ValueBits, ReadValue, NextState, Wrap, Good;
    if ps == [] {
      assert [] + rest == rest;
    } else {
      var p := ps[0];
      var delta := Wrap(p.ts - prevTS);
      var st' := NextState(p.bits, st);
      var more := TailBits(p.ts, delta, st', ps[1..]) + rest;
      var r1 := ValueBits(p.bits, st) + more;
      assert TailBits(prevTS, prevDelta, st, ps) + rest == DodBits(Wrap(delta - prevDelta)) + r1;
      DodRoundTrip(Wrap(delta - prevDelta), r1);
      ValueRoundTrip(p.bits, st, more);
      TailRoundTrip(p.ts, delta, st', ps[1..], rest);
      WrapBack(delta, prevDelta);
      WrapBack(p.ts, prevTS);
      assert [Point(p.ts, p.bits)] + ps[1..] == ps;
    }
  }

  /** What the first point of a list reads as, and the rest when there is one. */
  lemma {:induction false} FirstRead(bits: seq<bool>, n: nat, p: Point, r1: seq<bool>, r2: seq<bool>)
    requires n > 0 && TakeBits(bits, 64) == Ok((ToUint(p.ts), r1)) && TakeBits(r1, 64) == Ok((p.bits, r2))
    ensures n == 1 ==> ReadPoints(bits, n) == Ok(([p], r2))
    ensures n > 1 ==> ReadPoints(bits, n) == ReadSecond(p, r2, n)
  {
    hide TakeBits, ReadValue, ReadTail, Wrap;
  }

  /** The part of the decoder after the first point. */
  ghost function ReadSecond(p: Point, r2: seq<bool>, n: nat): Result<(seq<Point>, seq<bool>)>
    requires n > 1
  {
    var (d, r3) :- TakeBits(r2, 64);
    var delta := ToInt(d);
    var ts1 := Wrap(p.ts + delta);
    var ((v1, st), r4) :- ReadValue(r3, FirstState(p));
    var (ps, rest) :- ReadTail(r4, ts1, delta, st, n - 2);
    Ok(([p, Point(ts1, v1)] + ps, rest))
  }

  /** The bits after the first point. */
  function RestBits(ps: seq<Point>): seq<bool>
    requires ps != []
  {
    if |ps| == 1 then []
    else
      var delta := Wrap(ps[1].ts - ps[0].ts);
      var st := FirstState(ps[0]);
      Bits(ToUint(delta), 64) + ValueBits(ps[1].bits, st)
      + TailBits(ps[1].ts, delta, NextState(ps[1].bits, st), ps[2..])
  }

  lemma {:induction false} FirstBits(ps: seq<Point>, rest: seq<bool>)
    requires ps != []
    ensures PointsBits(ps) + rest == Bits(ToUint(ps[0].ts), 64) + (Bits(ps[0].bits, 64) + (RestBits(ps) + rest))
  {
    hide Bits, ValueBits, NextState, TailBits, Wrap;
  }

  lemma {:induction false} PointsRoundTrip(ps: seq<Point>, rest: seq<bool>)
    ensures ReadPoints(PointsBits(ps) + rest, |ps|) == Ok((ps, rest))
  {
    if ps == [] {
      assert PointsBits(ps) + rest == rest;
    } else {
      hide ReadPoints, PointsBits, ReadSecond, RestBits, Bits, TakeBits;
      var p, r2 := ps[0], RestBits(ps) + rest;
      FirstBits(ps, rest);
      WordFits(ToUint(p.ts));
      WordFits(p.bits);
      TakeWord(ToUint(p.ts), 64, Bits(p.bits, 64) + r2);
      TakeWord(p.bits, 64, r2);
      FirstRead(PointsBits(ps) + rest, |ps|, p, Bits(p.bits, 64) + r2, r2);
      if |ps| == 1 {
        NoRest(ps, rest);
      } else {
        MoreRoundTrip(ps, r2, rest);
      }
    }
  }

  lemma {:induction false} NoRest(ps: seq<Point>, rest: seq<bool>)
    requires |ps| == 1
    ensures RestBits(ps) + rest == rest && [ps[0]] == ps
  {
  }

  lemma {:induction false} MoreRoundTrip(ps: seq<Point>, r2: seq<bool>, rest: seq<bool>)
    requires |ps| >= 2 && r2 == RestBits(ps) + rest
    ensures ReadSecond(ps[0], r2, |ps|) == Ok((ps, rest))
  {
    hide PointsBits, ValueBits, ReadValue, NextState, TailBits, ReadTail, Wrap, Bits, TakeBits;
    SecondRoundTrip(ps[0], ps[1], ps[2..], r2, rest);
    assert [ps[0], Point(ps[1].ts, ps[1].bits)] + ps[2..] == ps;
    WrapBack(ps[1].ts, ps[0].ts);
  }

  lemma {:induction false} SecondRoundTrip(p: Point, q: Point, ps: seq<Point>, r2: seq<bool>, rest: seq<bool>)
    requires
      var delta := Wrap(q.ts - p.ts);
      var st := FirstState(p);
      r2 == Bits(ToUint(delta), 64) + ValueBits(q.bits, st) + TailBits(q.ts, delta, NextState(q.bits, st), ps) + rest
    ensures
      var delta := Wrap(q.ts - p.ts);
      && TakeBits(r2, 64) == Ok((ToUint(delta), r2[64..]))
      && var value := ReadValue(r2[64..], FirstState(p));
      && value.Ok?
      && value.value.0 == (q.bits, NextState(q.bits, FirstState(p)))
      && ReadTail(value.value.1, q.ts, delta, value.value.0.1, |ps|) == Ok((ps, rest))
  {
    hide ValueBits, ReadValue, NextState, TailBits, ReadTail, Wrap, TakeBits;
    var delta := Wrap(q.ts - p.ts);
    var st := FirstState(p);
    var tail := TailBits(q.ts, delta, NextState(q.bits, st), ps) + rest;
    var r3 := ValueBits(q.bits, st) + tail;
    assert r2 == Bits(ToUint(delta), 64) + r3;
    assert r2[64..] == r3;
    WordFits(ToUint(delta));
    TakeWord(ToUint(delta), 64, r3);
    ValueRoundTrip(q.bits, st, tail);
    TailRoundTrip(q.ts, delta, NextState(q.bits, st), ps, rest);
  }

  /** Decompressing what was compressed gives every point back, for every list of points. */
  lemma {:induction false} RoundTrip(ps: seq<Point>)
    ensures Decode(Encode(ps), |ps|) == Ok(ps)
  {
    PackBits(PointsBits(ps));
    PointsRoundTrip(ps, Zeros(Padding(PointsBits(ps))));
  }

  // ---- truncation ----

  lemma {:induction false} TakeMore(bits: seq<bool>, n: nat, more: seq<bool>)
    requires TakeBits(bits, n).Ok?
    ensures TakeBits(bits + more, n) == Ok((TakeBits(bits, n).value.0, TakeBits(bits, n).value.1 + more))
  {
    assert (bits + more)[..n] == bits[..n];
    assert (bits + more)[n..] == bits[n..] + more;
  }

  lemma {:induction false} TakeOneMore(bits: seq<bool>, more: seq<bool>)
    requires bits != []
    ensures (bits + more)[0] == bits[0] && (bits + more)[1..] == bits[1..] + more
  {
  }

  /** A successful read is not changed by bits that follow. */
  lemma {:induction false} DodMore(bits: seq<bool>, more: seq<bool>)
    requires ReadDod(bits).Ok?
    ensures ReadDod(bits + more) == Ok((ReadDod(bits).value.0, ReadDod(bits).value.1 + more))
  {
    TakeOneMore(bits, more);
    if bits[0] {
      var r1 := bits[1..];
      TakeOneMore(r1, more);
      if !r1[0] {
        TakeMore(r1[1..], 7, more);
      } else {
        var r2 := r1[1..];
        TakeOneMore(r2, more);
        if !r2[0] {
          TakeMore(r2[1..], 9, more);
        } else {
          var r3 := r2[1..];
          TakeOneMore(r3, more);
          TakeMore(r3[1..], if r3[0] then 64 else 12, more);
        }
      }
    }
  }

  lemma {:induction false} BlockMore(bits: seq<bool>, st: XorState, more: seq<bool>)
    requires ReadBlock(bits, st).Ok?
    ensures ReadBlock(bits + more, st) == Ok((ReadBlock(bits, st).value.0, ReadBlock(bits, st).value.1 + more))
  {
    TakeMore(bits, 5, more);
    var (l, r1) := TakeBits(bits, 5).value;
    TakeMore(r1, 6, more);
    var (m, r2) := TakeBits(r1, 6).value;
    TakeMore(r2, (m % 0x100 + 1) % 0x100, more);
  }

  lemma {:induction false} ValueMore(bits: seq<bool>, st: XorState, more: seq<bool>)
    requires ReadValue(bits, st).Ok?
    ensures ReadValue(bits + more, st) == Ok((ReadValue(bits, st).value.0, ReadValue(bits, st).value.1 + more))
  {
    TakeOneMore(bits, more);
    if bits[0] {
      TakeOneMore(bits[1..], more);
      var r2 := bits[1..][1..];
      if bits[1..][0] {
        BlockMore(r2, st, more);
      } else {
        TakeMore(r2, Width(st.leading, st.trailing), more);
      }
    }
  }

  lemma {:induction false} TailMore(
    bits: seq<bool>, prevTS: int64, prevDelta: int64, st: XorState, n: nat, more: seq<bool>)
    requires ReadTail(bits, prevTS, prevDelta, st, n).Ok?
    ensures
      var r := ReadTail(bits, prevTS, prevDelta, st, n).value;
      ReadTail(bits + more, prevTS, prevDelta, st, n) == Ok((r.0, r.1 + more))
    decreases n
  {
    hide ReadDod, ReadValue, Wrap;
    if n > 0 {
      var (dod, r1) := ReadDod(bits).value;
      DodMore(bits, more);
      var delta := Wrap(dod + prevDelta);
      var ((v, st'), r2) := ReadValue(r1, st).value;
      ValueMore(r1, st, more);
      TailMore(r2, Wrap(prevTS + delta), delta, st', n - 1, more);
    }
  }

  lemma {:induction false} PointsMore(bits: seq<bool>, n: nat, more: seq<bool>)
    requires ReadPoints(bits, n).Ok?
    ensures ReadPoints(bits + more, n) == Ok((ReadPoints(bits, n).value.0, ReadPoints(bits, n).value.1 + more))
  {
    hide ReadTail, ReadValue, Wrap, TakeBits;
    if n > 0 {
      TakeMore(bits, 64, more);
      var (ts, r1) := TakeBits(bits, 64).value;
      TakeMore(r1, 64, more);
      var (v, r2) := TakeBits(r1, 64).value;
      if n > 1 {
        var p := Point(ToInt(ts), v);
        TakeMore(r2, 64, more);
        var (d, r3) := TakeBits(r2, 64).value;
        ValueMore(r3, FirstState(p), more);
        var ((v1, st), r4) := ReadValue(r3, FirstState(p)).value;
        TailMore(r4, Wrap(p.ts + ToInt(d)), ToInt(d), st, n - 2, more);
      }
    }
  }

  /** No strict byte prefix of a compressed list decodes to that many points. */
  lemma {:induction false} TruncationDetected(ps: seq<Point>, k: nat)
    requires ps != [] && k < |Encode(ps)|
    ensures Decode(Encode(ps)[..k], |ps|).Err?
  {
    var data := Encode(ps);
    var bits, cut := BytesBits(data[..k]), BytesBits(data[k..]);
    assert data == data[..k] + data[k..];
    BytesBitsAppend(data[..k], data[k..]);
    PackBits(PointsBits(ps));
    PointsRoundTrip(ps, Zeros(Padding(PointsBits(ps))));
    if ReadPoints(bits, |ps|).Ok? {
      PointsMore(bits, |ps|, cut);
      assert false;
    }
  }

  // ---- sizes ----

  lemma {:induction false} DodSize(dod: int64)
    ensures 1 <= |DodBits(dod)| <= 68
    ensures |DodBits(dod)| == 1 <==> dod == 0
  {
  }

  lemma {:induction false} ValueSize(v: uint64, st: XorState)
    requires Good(st)
    ensures 1 <= |ValueBits(v, st)| <= 77
    ensures |ValueBits(v, st)| == 1 <==> v == st.prev
  {
    XorInvolutive(v, st.prev);
    if v != st.prev && NewBlock(Xor64(v, st.prev), st) {
      TrailingBound(Xor64(v, st.prev));
    }
  }

  lemma {:induction false} TailSize(prevTS: int64, prevDelta: int64, st: XorState, ps: seq<Point>)
    requires Good(st)
    ensures 2 * |ps| <= |TailBits(prevTS, prevDelta, st, ps)| <= 145 * |ps|
    decreases ps
  {
    if ps != [] {
      var delta := Wrap(ps[0].ts - prevTS);
      DodSize(Wrap(delta - prevDelta));
      ValueSize(ps[0].bits, st);
      ValueRoundTrip(ps[0].bits, st, []);
      TailSize(ps[0].ts, delta, NextState(ps[0].bits, st), ps[1..]);
    }
  }

  /** n points take at most 145n - 21 bits, so fewer than 2^32 bytes for n up to 2^27. */
  lemma {:induction false} SizeBound(ps: seq<Point>)
    requires |ps| >= 2
    ensures 193 + 2 * (|ps| - 2) <= |PointsBits(ps)| <= 145 * |ps| - 21
    ensures |ps| <= 0x800_0000 ==> |Encode(ps)| < 0x1_0000_0000
  {
    var delta := Wrap(ps[1].ts - ps[0].ts);
    var st := FirstState(ps[0]);
    ValueSize(ps[1].bits, st);
    ValueRoundTrip(ps[1].bits, st, []);
    TailSize(ps[1].ts, delta, NextState(ps[1].bits, st), ps[2..]);
  }

  /** Evenly spaced (in wrapped arithmetic) with one repeated value. */
  ghost predicate Regular(ps: seq<Point>, delta: int64) {
    forall i :: 0 < i < |ps| ==> Wrap(ps[i].ts - ps[i - 1].ts) == delta && ps[i].bits == ps[i - 1].bits
  }

  lemma {:induction false} RegularStep(p: Point, q: Point, ps: seq<Point>, delta: int64)
    requires Regular([p, q] + ps, delta)
    ensures Regular([q] + ps, delta) && Wrap(q.ts - p.ts) == delta && q.bits == p.bits
  {
    var all := [p, q] + ps;
    assert all[0] == p && all[1] == q;
    forall i | 0 < i < |[q] + ps|
      ensures Wrap(([q] + ps)[i].ts - ([q] + ps)[i - 1].ts) == delta && ([q] + ps)[i].bits == ([q] + ps)[i - 1].bits
    {
      assert all[i + 1] == ([q] + ps)[i] && all[i] == ([q] + ps)[i - 1];
    }
  }

  lemma {:induction false} RegularCons(p: Point, q: Point, ps: seq<Point>, delta: int64)
    requires Regular([q] + ps, delta) && Wrap(q.ts - p.ts) == delta && q.bits == p.bits
    ensures Regular([p, q] + ps, delta)
  {
    var all, tail := [p, q] + ps, [q] + ps;
    forall i | 0 < i < |all| ensures Wrap(all[i].ts - all[i - 1].ts) == delta && all[i].bits == all[i - 1].bits {
      if i > 1 {
        assert all[i] == tail[i - 1] && all[i - 1] == tail[i - 2];
      }
    }
  }

  lemma {:induction false} RegularTail(p: Point, delta: int64, st: XorState, ps: seq<Point>)
    requires Good(st) && st.prev == p.bits
    ensures |TailBits(p.ts, delta, st, ps)| >= 2 * |ps|
    ensures |TailBits(p.ts, delta, st, ps)| == 2 * |ps| <==> Regular([p] + ps, delta)
    decreases ps
  {
    hide DodBits, ValueBits, Regular, Wrap, Xor, LeadingZeros, TrailingZeros;
    if ps == [] {
      AloneIsRegular(p, delta);
    } else {
      var q := ps[0];
      var next := Wrap(q.ts - p.ts);
      assert [p] + ps == [p, q] + ps[1..];
      WrapSame(next, delta);
      DodSize(Wrap(next - delta));
      ValueSize(q.bits, st);
      ValueRoundTrip(q.bits, st, []);
      RegularTail(q, next, NextState(q.bits, st), ps[1..]);
      if Regular([p] + ps, delta) {
        RegularStep(p, q, ps[1..], delta);
        XorInvolutive(q.bits, st.prev);
      }
      if |TailBits(p.ts, delta, st, ps)| == 2 * |ps| {
        RegularCons(p, q, ps[1..], delta);
      }
    }
  }

  lemma {:induction false} AloneIsRegular(p: Point, delta: int64)
    ensures Regular([p] + [], delta) && |TailBits(p.ts, delta, FirstState(p), [])| == 0
  {
  }

  lemma {:induction false} WrapSame(x: int64, y: int64)
    ensures Wrap(x - y) == 0 <==> x == y
  {
  }

  /** The least size is met exactly by the series that are evenly spaced and constant: 49 bytes
      for 100 points. */
  lemma {:induction false} RegularSize(ps: seq<Point>)
    requires |ps| >= 2
    ensures |PointsBits(ps)| == 193 + 2 * (|ps| - 2) <==> Regular(ps, Wrap(ps[1].ts - ps[0].ts))
    ensures |ps| == 100 && Regular(ps, Wrap(ps[1].ts - ps[0].ts)) ==> |Encode(ps)| == 49
  {
    hide DodBits, ValueBits, TailBits, Regular, Wrap, Xor, LeadingZeros, TrailingZeros;
    var st, delta := FirstState(ps[0]), Wrap(ps[1].ts - ps[0].ts);
    ValueSize(ps[1].bits, st);
    ValueRoundTrip(ps[1].bits, st, []);
    assert [ps[1]] + ps[2..] == ps[1..] && ps == [ps[0], ps[1]] + ps[2..];
    RegularTail(ps[1], delta, NextState(ps[1].bits, st), ps[2..]);
    if Regular(ps, delta) {
      RegularStep(ps[0], ps[1], ps[2..], delta);
      XorInvolutive(ps[1].bits, st.prev);
    }
    if |PointsBits(ps)| == 193 + 2 * (|ps| - 2) {
      RegularCons(ps[0], ps[1], ps[2..], delta);
    }
  }
}
