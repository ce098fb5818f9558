/** What each code of the Gorilla format looks like: its size, its prefix, and the bits of the
    value that it spells, said by bit positions and not by the functions that emit it. */
module GorillaCodes {
  import opened Words
  import opened Model
  import opened BitStream
  import opened GorillaSpec

  // ---- bit positions ----

  /** Bit i of a word, counted from the least significant. */
  predicate BitOf(x: nat, i: nat) {
    Shr(x, i) % 2 == 1
  }

  /** The two words differ in bit i. */
  predicate Differ(x: nat, y: nat, i: nat) {
    BitOf(x, i) != BitOf(y, i)
  }

  lemma {:induction false} XorBit(x: nat, y: nat, i: nat)
    ensures BitOf(Xor(x, y), i) <==> Differ(x, y, i)
    decreases i
  {
    if i == 0 {
      assert x == 0 && y == 0 ==> Xor(x, y) == 0;
    } else if x == 0 && y == 0 {
      ShrZero(i);
    } else {
      XorBit(x / 2, y / 2, i - 1);
      assert Xor(x, y) / 2 == Xor(x / 2, y / 2);
    }
  }

  lemma {:induction false} ShrZero(n: nat)
    ensures Shr(0, n) == 0
  {
    if n > 0 {
      ShrZero(n - 1);
    }
  }

  lemma {:induction false} ShrShr(x: nat, m: nat, n: nat)
    ensures Shr(Shr(x, m), n) == Shr(x, m + n)
    decreases m
  {
    if m > 0 {
      ShrShr(x / 2, m - 1, n);
    }
  }

  /** The highest set bit of a number. */
  lemma {:induction false} HighestBit(x: nat)
    requires x > 0
    ensures BitOf(x, BitLen(x) - 1)
    ensures forall i: nat :: BitOf(x, i) ==> i < BitLen(x)
  {
    if x > 1 {
      HighestBit(x / 2);
    }
    forall i: nat | BitOf(x, i) ensures i < BitLen(x) {
      if x > 1 && i > 0 {
        assert BitOf(x / 2, i - 1);
      } else if i > 0 {
        ShrZero(i - 1);
      }
    }
  }

  /** The lowest set bit of a number. */
  lemma {:induction false} LowestBit(x: nat)
    requires x > 0
    ensures BitOf(x, TrailingZeros(x))
    ensures forall i: nat :: BitOf(x, i) ==> TrailingZeros(x) <= i
  {
    if x % 2 == 0 {
      LowestBit(x / 2);
      forall i: nat | BitOf(x, i) ensures TrailingZeros(x) <= i {
        if i > 0 {
          assert BitOf(x / 2, i - 1);
        }
      }
    }
  }

  // ---- deltas of deltas ----

  /** The code of a delta of deltas: its size is that of the range it lies in, after the prefix of
      the range comes the distance from the lower end, or the 64-bit word. */
  ghost predicate DodCode(code: seq<bool>, dod: int64) {
    && (|code| == 1 <==> dod == 0)
    && (|code| == 9 <==> dod != 0 && -63 <= dod <= 64)
    && (|code| == 12 <==> !(-63 <= dod <= 64) && -255 <= dod <= 256)
    && (|code| == 16 <==> !(-255 <= dod <= 256) && -2047 <= dod <= 2048)
    && (|code| == 68 <==> !(-2047 <= dod <= 2048))
    && (|code| == 1 ==> code == [false])
    && (|code| == 9 ==> code[..2] == [true, false] && FromBits(code[2..]) - 63 == dod)
    && (|code| == 12 ==> code[..3] == [true, true, false] && FromBits(code[3..]) - 255 == dod)
    && (|code| == 16 ==> code[..4] == [true, true, true, false] && FromBits(code[4..]) - 2047 == dod)
    && (|code| == 68 ==> code[..4] == [true, true, true, true] && FromBits(code[4..]) == dod % TWO_64)
  }

  lemma {:induction false} DodCodes(dod: int64)
    ensures DodCode(DodBits(dod), dod)
  {
    hide Bits, FromBits;
    var code := DodBits(dod);
    if dod == 0 {
    } else if -63 <= dod <= 64 {
      assert code[2..] == Bits(dod + 63, 7);
      Field(dod + 63, 7);
    } else if -255 <= dod <= 256 {
      assert code[3..] == Bits(dod + 255, 9);
      Field(dod + 255, 9);
    } else if -2047 <= dod <= 2048 {
      assert code[4..] == Bits(dod + 2047, 12);
      Field(dod + 2047, 12);
    } else {
      assert code[4..] == Bits(ToUint(dod), 64);
      WordSize();
      Field(ToUint(dod), 64);
    }
  }

  /** The delta of deltas is emitted: its code is appended, of 1, 9, 12, 16 or 68 bits. */
  ghost predicate EmitsDod(before: seq<bool>, after: seq<bool>, dod: int64) {
    && before <= after && DodCode(after[|before|..], dod)
    && |after| - |before|
       == (if dod == 0 then 1
           else if -63 <= dod <= 64 then 9
           else if -255 <= dod <= 256 then 12
           else if -2047 <= dod <= 2048 then 16
           else 68)
  }

  lemma {:induction false} DodEmitted(before: seq<bool>, dod: int64)
    ensures EmitsDod(before, before + DodBits(dod), dod)
  {
    hide DodBits;
    DodCodes(dod);
    assert (before + DodBits(dod))[|before|..] == DodBits(dod);
  }

  lemma {:induction false} Field(v: nat, n: nat)
    requires v < Shl(1, n)
    ensures FromBits(Bits(v, n)) == v
  {
    BitLenBound(v, n);
    FromBitsOfBits(v, n);
  }

  // ---- values ----

  /** The bits spell, from the most significant down to bit `low`, where the two words differ. */
  ghost predicate Spells(code: seq<bool>, x: nat, y: nat, low: nat) {
    forall i :: 0 <= i < |code| ==> code[i] == Differ(x, y, low + |code| - 1 - i)
  }

  /** All bits that differ lie inside the block of the state. */
  ghost predicate Inside(v: uint64, st: XorState) {
    forall i: nat :: Differ(v, st.prev, i) ==> st.trailing <= i < 64 - st.leading
  }

  /** The words differ in bits `low` and `high` and in no bit outside. */
  ghost predicate Between(x: nat, y: nat, low: nat, high: nat) {
    Differ(x, y, low) && Differ(x, y, high) && forall i: nat :: Differ(x, y, i) ==> low <= i <= high
  }

  /** The block that reaches from the highest of the changed bits to the lowest: of the zeros before
      it no more than 31 can be written. */
  ghost predicate NewCode(code: seq<bool>, v: uint64, st: XorState, st': XorState, low: nat, high: nat) {
    var top := if high < 32 then 32 else high;
    && low <= top < 64
    && |code| == 13 + (top - low + 1)
    && code[..2] == [true, true]
    && FromBits(code[2..7]) == 63 - top
    && FromBits(code[7..13]) == top - low
    && Spells(code[13..], v, st.prev, low)
    && st' == XorState(v, 63 - top, low, true)
  }

  /** The code of a value and the state after it: one bit for the value before; the bits of the
      block when there is one and all changed bits lie inside; otherwise a new block of just these. */
  ghost predicate ValueCode(code: seq<bool>, v: uint64, st: XorState, st': XorState) {
    if v == st.prev then code == [false] && st' == st
    else if st.hasBlock && Inside(v, st) then
      && |code| == 2 + (64 - st.leading - st.trailing) && |code| > 2
      && code[..2] == [true, false]
      && Spells(code[2..], v, st.prev, st.trailing)
      && st' == st.(prev := v)
    else exists low, high :: Between(v, st.prev, low, high) && NewCode(code, v, st, st', low, high)
  }

  lemma {:induction false} ShiftedSpells(x: uint64, y: uint64, low: nat, n: nat)
    ensures Spells(Bits(Shr(Xor64(x, y), low), n), x, y, low)
  {
    hide Bits, Shr, Xor;
    var z := Shr(Xor64(x, y), low);
    var code := Bits(z, n);
    forall i | 0 <= i < |code| ensures code[i] == Differ(x, y, low + |code| - 1 - i) {
      BitAt(z, n, i);
      ShrShr(Xor64(x, y), low, n - 1 - i);
      XorBit(x, y, low + n - 1 - i);
    }
  }

  /** The changed bits reach from the leading to the trailing zeros of the exclusive or. */
  lemma {:induction false} ChangedBits(x: uint64, y: uint64)
    requires x != y
    ensures
      var z := Xor64(x, y);
      z != 0 && TrailingZeros(z) <= 63 - LeadingZeros(z) && Between(x, y, TrailingZeros(z), 63 - LeadingZeros(z))
  {
    hide Shr, Xor, TrailingZeros, BitLen;
    var z := Xor64(x, y);
    XorInvolutive(x, y);
    TrailingBound(z);
    HighestBit(z);
    LowestBit(z);
    forall i: nat ensures BitOf(z, i) <==> Differ(x, y, i) {
      XorBit(x, y, i);
    }
  }

  /** A block is opened exactly when there is none or a changed bit lies outside it. */
  lemma {:induction false} NewBlockExactly(v: uint64, st: XorState)
    requires v != st.prev
    ensures NewBlock(Xor64(v, st.prev), st) <==> !(st.hasBlock && Inside(v, st))
  {
    hide Shr, Xor, TrailingZeros, BitLen;
    ChangedBits(v, st.prev);
  }

  lemma {:induction false} NewCodes(v: uint64, st: XorState)
    requires v != st.prev && !(st.hasBlock && Inside(v, st))
    ensures ValueCode(ValueBits(v, st), v, st, NextState(v, st))
  {
    hide Bits, Shr, Xor, TrailingZeros, BitLen, Inside, Differ, FromBits, Spells, NewBlock;
    var x := Xor64(v, st.prev);
    ChangedBits(v, st.prev);
    NewBlockExactly(v, st);
    TrailingBound(x);
    var low, high := TrailingZeros(x), 63 - LeadingZeros(x);
    var leading, n := CappedLeading(x), Width(CappedLeading(x), TrailingZeros(x));
    var code := ValueBits(v, st);
    BlockFits(leading, n);
    assert code[2..7] == Bits(leading, 5);
    assert code[7..13] == Bits(n - 1, 6);
    assert code[13..] == Bits(Shr(x, low), n);
    ShiftedSpells(v, st.prev, low, n);
    assert NewCode(code, v, st, NextState(v, st), low, high);
  }

  lemma {:induction false} BlockFits(leading: byte, n: byte)
    requires leading <= 31 && 1 <= n <= 64
    ensures FromBits(Bits(leading, 5)) == leading && FromBits(Bits(n - 1, 6)) == n - 1
  {
    hide Bits, FromBits;
    assert Shl(1, 5) == 32 && Shl(1, 6) == 64;
    Field(leading, 5);
    Field(n - 1, 6);
  }

  lemma {:induction false} ReusedCodes(v: uint64, st: XorState)
    requires v != st.prev && st.hasBlock && Inside(v, st)
    ensures ValueCode(ValueBits(v, st), v, st, NextState(v, st))
  {
    hide Bits, Shr, Xor, TrailingZeros, BitLen, Spells, NewBlock;
    var x := Xor64(v, st.prev);
    ChangedBits(v, st.prev);
    NewBlockExactly(v, st);
    var n := Width(st.leading, st.trailing);
    ShiftedSpells(v, st.prev, st.trailing, n);
    assert st.trailing <= TrailingZeros(x) < 64 - st.leading;
    assert ValueBits(v, st)[2..] == Bits(Shr(x, st.trailing), n);
  }

  /** Every value gets its code. */
  lemma {:induction false} ValueCodes(v: uint64, st: XorState)
    ensures ValueCode(ValueBits(v, st), v, st, NextState(v, st))
  {
    hide Bits, Shr, Xor, TrailingZeros, BitLen, Inside, NewCode, Between, Spells, NewBlock;
    XorInvolutive(v, st.prev);
    if v != st.prev {
      if st.hasBlock && Inside(v, st) {
        ReusedCodes(v, st);
      } else {
        NewCodes(v, st);
      }
    }
  }

  /** The value is emitted: its code is appended, of 1 bit for the value before, 2 and the width of
      the block, or 13 and the width of the new block. */
  ghost predicate EmitsValue(before: seq<bool>, after: seq<bool>, v: uint64, st: XorState, st': XorState) {
    && before <= after && ValueCode(after[|before|..], v, st, st')
    && var n := |after| - |before|;
       if v == st.prev then n == 1
       else if st.hasBlock && Inside(v, st) then n == 2 + (64 - st.leading - st.trailing)
       else exists low: nat, high: nat :: Between(v, st.prev, low, high)
              && n == 13 + if high < 32 then 33 - low else high - low + 1
  }

  lemma {:induction false} ValueEmitted(before: seq<bool>, v: uint64, st: XorState)
    ensures EmitsValue(before, before + ValueBits(v, st), v, st, NextState(v, st))
  {
    hide ValueBits, NextState, Inside, Spells, Between;
    ValueCodes(v, st);
    assert (before + ValueBits(v, st))[|before|..] == ValueBits(v, st);
  }

  // ---- points ----

  /** The state after values that follow a state. */
  function StateOver(st: XorState, ps: seq<Point>): XorState {
    if ps == [] then st else NextState(ps[|ps| - 1].bits, StateOver(st, ps[..|ps| - 1]))
  }

  /** The state after the values of a list. */
  function StateAfter(ps: seq<Point>): XorState
    requires ps != []
  {
    StateOver(FirstState(ps[0]), ps[1..])
  }

  /** What one more point adds to the bits of a list: the words of the first point; the difference
      of the second timestamp as a word; from then on the code of its delta of deltas; and from the
      second point on the code of its value after the values before. */
  ghost predicate PointCode(code: seq<bool>, ps: seq<Point>, p: Point) {
    if ps == [] then
      |code| == 128 && FromBits(code[..64]) == p.ts % TWO_64 && FromBits(code[64..]) == p.bits
    else
      var last := ps[|ps| - 1];
      var delta := Wrap(p.ts - last.ts);
      exists n :: 0 <= n <= |code|
        && ValueCode(code[n..], p.bits, StateAfter(ps), StateAfter(ps + [p]))
        && if |ps| == 1 then n == 64 && FromBits(code[..n]) == delta % TWO_64
           else DodCode(code[..n], Wrap(delta - Wrap(last.ts - ps[|ps| - 2].ts)))
  }

  lemma {:induction false} OverFirst(st: XorState, q: Point, ps: seq<Point>)
    ensures StateOver(st, [q] + ps) == StateOver(NextState(q.bits, st), ps)
    decreases ps
  {
    hide NextState;
    var all := [q] + ps;
    if ps != [] {
      OverFirst(st, q, ps[..|ps| - 1]);
      assert all[..|all| - 1] == [q] + ps[..|ps| - 1];
    } else {
      assert all[..|all| - 1] == [];
    }
  }

  lemma {:induction false} TailGrows(prevTS: int64, prevDelta: int64, st: XorState, ps: seq<Point>, p: Point)
    ensures
      var lastTS := if ps == [] then prevTS else ps[|ps| - 1].ts;
      var beforeTS := if |ps| <= 1 then prevTS else ps[|ps| - 2].ts;
      var lastDelta := if ps == [] then prevDelta else Wrap(lastTS - beforeTS);
      TailBits(prevTS, prevDelta, st, ps + [p])
      == TailBits(prevTS, prevDelta, st, ps)
         + (DodBits(Wrap(Wrap(p.ts - lastTS) - lastDelta)) + ValueBits(p.bits, StateOver(st, ps)))
    decreases ps
  {
    hide DodBits, ValueBits, NextState, Wrap, StateOver;
    if ps == [] {
      NothingOver(st);
      assert [] + [p] == [p] && [p][1..] == [];
    } else {
      var delta := Wrap(ps[0].ts - prevTS);
      TailGrows(ps[0].ts, delta, NextState(ps[0].bits, st), ps[1..], p);
      assert (ps + [p])[1..] == ps[1..] + [p];
      OverFirst(st, ps[0], ps[1..]);
      assert ps == [ps[0]] + ps[1..];
    }
  }

  lemma {:induction false} NothingOver(st: XorState)
    ensures StateOver(st, []) == st
  {
  }

  lemma {:induction false} OverMore(ps: seq<Point>, p: Point)
    requires ps != []
    ensures StateAfter(ps + [p]) == NextState(p.bits, StateAfter(ps))
  {
    hide NextState;
    var all := ps + [p];
    assert all[1..][..|ps| - 1] == ps[1..] && all[0] == ps[0];
  }

  /** The bits of a list with one more point are those of the list and the code of the point. */
  lemma {:induction false} PointCodes(ps: seq<Point>, p: Point)
    ensures PointsBits(ps) <= PointsBits(ps + [p])
    ensures PointCode(PointsBits(ps + [p])[|PointsBits(ps)|..], ps, p)
  {
    hide Bits, FromBits, PointCode, StateAfter, TailBits, ValueBits;
    if ps == [] {
      FirstCodes(p);
      assert ps + [p] == [p];
    } else if |ps| == 1 {
      SecondCodes(ps[0], p);
      assert ps == [ps[0]] && ps + [p] == [ps[0], p];
    } else {
      LaterCodes(ps, p);
    }
  }

  lemma {:induction false} FirstCodes(p: Point)
    ensures PointsBits([]) == [] && PointCode(PointsBits([p]), [], p)
  {
    hide Bits, FromBits;
    var code := PointsBits([p]);
    assert code[..64] == Bits(ToUint(p.ts), 64) && code[64..] == Bits(p.bits, 64);
    WordSize();
    Field(ToUint(p.ts), 64);
    Field(p.bits, 64);
  }

  lemma {:induction false} SecondCodes(q: Point, p: Point)
    ensures
      var bits, before := PointsBits([q, p]), PointsBits([q]);
      before <= bits && PointCode(bits[|before|..], [q], p)
  {
    hide Bits, FromBits, ValueBits, ValueCode, NextState;
    var bits, before := PointsBits([q, p]), PointsBits([q]);
    var delta := Wrap(p.ts - q.ts);
    var st := FirstState(q);
    assert [q, p][2..] == [];
    assert bits == before + Bits(ToUint(delta), 64) + ValueBits(p.bits, st);
    var code := bits[|before|..];
    assert code[..64] == Bits(ToUint(delta), 64) && code[64..] == ValueBits(p.bits, st);
    WordSize();
    Field(ToUint(delta), 64);
    ValueCodes(p.bits, st);
    assert [q] + [p] == [q, p];
    OverMore([q], p);
    NothingOver(st);
    assert [q][1..] == [];
  }

  lemma {:induction false} LaterCodes(ps: seq<Point>, p: Point)
    requires |ps| >= 2
    ensures
      var bits, before := PointsBits(ps + [p]), PointsBits(ps);
      before <= bits && PointCode(bits[|before|..], ps, p)
  {
    hide Bits, FromBits, ValueBits, DodBits, ValueCode, DodCode, NextState, TailBits, StateOver, Wrap;
    var bits, before := PointsBits(ps + [p]), PointsBits(ps);
    var delta, st := Wrap(ps[1].ts - ps[0].ts), FirstState(ps[0]);
    var last := ps[|ps| - 1];
    TailGrows(ps[1].ts, delta, NextState(ps[1].bits, st), ps[2..], p);
    assert (ps + [p])[2..] == ps[2..] + [p];
    OverFirst(st, ps[1], ps[2..]);
    assert ps[1..] == [ps[1]] + ps[2..];
    var dod := Wrap(Wrap(p.ts - last.ts) - Wrap(last.ts - ps[|ps| - 2].ts));
    assert bits == before + (DodBits(dod) + ValueBits(p.bits, StateAfter(ps)));
    var code := bits[|before|..];
    var n := |DodBits(dod)|;
    assert code[..n] == DodBits(dod) && code[n..] == ValueBits(p.bits, StateAfter(ps));
    DodCodes(dod);
    ValueCodes(p.bits, StateAfter(ps));
    OverMore(ps, p);
  }
}
