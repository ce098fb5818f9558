/** Fixed-width integers and the bit operations the program applies to them.
    A machine word is an integer in its range; shifts, exclusive or and inclusive or
    are defined bit by bit, from the least significant bit up. */
module Words {

  const TWO_63 := 0x8000_0000_0000_0000
  const TWO_64 := 0x1_0000_0000_0000_0000

  type byte = x: int | 0 <= x < 0x100
  type int64 = x: int | -TWO_63 <= x < TWO_63
  type uint64 = x: int | 0 <= x < TWO_64

  /** Two's complement wrap-around of an int64 sum or difference. */
  function Wrap(x: int): int64 {
    (x + TWO_63) % TWO_64 - TWO_63
  }

  /** Adding back what was subtracted undoes it, whatever wraps. */
  lemma {:induction false} WrapBack(x: int64, y: int64)
    ensures Wrap(Wrap(x - y) + y) == x
    ensures Wrap(y + Wrap(x - y)) == x
  {
  }

  /** The conversion uint64(x) of a signed word. */
  function ToUint(x: int64): uint64 {
    if x < 0 then x + TWO_64 else x
  }

  /** The conversion int64(x) of an unsigned word. */
  function ToInt(x: uint64): int64 {
    if x < TWO_63 then x else x - TWO_64
  }

  lemma {:induction false} Remainder(x: nat, q: nat, r: uint64)
    requires x == TWO_64 * q + r
    ensures x % TWO_64 == r
  {
  }

  /** Doubling and adding a bit can be done in a 64-bit word. */
  lemma {:induction false} WrapDouble(x: nat, b: nat)
    requires b <= 1
    ensures 2 * (x % TWO_64) % TWO_64 + b == (2 * x + b) % TWO_64
  {
    var q, r := x / TWO_64, x % TWO_64;
    if r < TWO_63 {
      Remainder(2 * r, 0, 2 * r);
      Remainder(2 * x + b, 2 * q, 2 * r + b);
    } else {
      Remainder(2 * r, 1, 2 * r - TWO_64);
      Remainder(2 * x + b, 2 * q + 1, 2 * r + b - TWO_64);
    }
  }

  /** x >> n */
  function Shr(x: nat, n: nat): nat
    decreases n, x
  {
    if n == 0 then x else Shr(x / 2, n - 1)
  }

  /** x << n, before truncation to a word. */
  function Shl(x: nat, n: nat): nat
    decreases n, x
  {
    if n == 0 then x else 2 * Shl(x, n - 1)
  }

  /** x ^ y */
  function Xor(x: nat, y: nat): nat {
    if x == 0 && y == 0 then 0
    else 2 * Xor(x / 2, y / 2) + (if x % 2 != y % 2 then 1 else 0)
  }

  /** x | y */
  function Or(x: nat, y: nat): nat {
    if x == 0 && y == 0 then 0
    else 2 * Or(x / 2, y / 2) + (if x % 2 == 1 || y % 2 == 1 then 1 else 0)
  }

  /** The number of bits needed to write x. */
  function BitLen(x: nat): nat {
    if x == 0 then 0 else 1 + BitLen(x / 2)
  }

  /** The number of leading zero bits of a 64-bit word. */
  function LeadingZeros(x: uint64): nat {
    WordSize();
    BitLenBound(x, 64);
    64 - BitLen(x)
  }

  /** The number of trailing zero bits of a 64-bit word; 64 for zero. */
  function TrailingZeros(x: nat): nat {
    if x == 0 then 64 else if x % 2 == 1 then 0 else 1 + TrailingZeros(x / 2)
  }

  lemma {:induction false} ShlByte(x: nat, n: nat)
    ensures Shl(x, n + 8) == 0x100 * Shl(x, n)
  {
    assert Shl(x, n + 2) == 4 * Shl(x, n);
    assert Shl(x, n + 4) == 4 * Shl(x, n + 2);
    assert Shl(x, n + 6) == 4 * Shl(x, n + 4);
    assert Shl(x, n + 8) == 4 * Shl(x, n + 6);
  }

  lemma {:induction false} WordSize()
    ensures Shl(1, 8) == 0x100
    ensures Shl(1, 64) == TWO_64
  {
    ShlByte(1, 0);
    ShlByte(1, 8);
    ShlByte(1, 16);
    ShlByte(1, 24);
    ShlByte(1, 32);
    ShlByte(1, 40);
    ShlByte(1, 48);
    ShlByte(1, 56);
  }

  lemma {:induction false} BitLenBound(x: nat, n: nat)
    requires x < Shl(1, n)
    ensures BitLen(x) <= n
  {
    if n > 0 && x > 0 {
      BitLenBound(x / 2, n - 1);
    }
  }

  lemma {:induction false} BitLenShr(x: nat, n: nat)
    ensures BitLen(Shr(x, n)) == if BitLen(x) <= n then 0 else BitLen(x) - n
    decreases n
  {
    if n > 0 {
      BitLenShr(x / 2, n - 1);
    }
  }

  lemma {:induction false} BelowShl(x: nat, n: nat)
    requires BitLen(x) <= n
    ensures x < Shl(1, n)
  {
    if x == 0 {
      ShlGrows(1, n);
    } else {
      BelowShl(x / 2, n - 1);
    }
  }

  lemma {:induction false} ShlGrows(x: nat, n: nat)
    ensures x <= Shl(x, n)
  {
    if n > 0 {
      ShlGrows(x, n - 1);
    }
  }

  lemma {:induction false} ShlDouble(x: nat, n: nat)
    ensures Shl(2 * x, n) == Shl(x, n + 1)
  {
    if n > 0 {
      ShlDouble(x, n - 1);
    }
  }

  lemma {:induction false} ShlBound(x: nat, m: nat, n: nat)
    requires x < Shl(1, m)
    ensures Shl(x, n) < Shl(1, m + n)
  {
    if n > 0 {
      ShlBound(x, m, n - 1);
    }
  }

  /** A nonzero word has a set bit between its leading and its trailing zeros. */
  lemma {:induction false} ZerosLeaveABit(x: nat)
    requires x > 0
    ensures TrailingZeros(x) < BitLen(x)
  {
    if x % 2 == 0 {
      ZerosLeaveABit(x / 2);
    }
  }

  /** Shifting out zero bits only and back again loses nothing. */
  lemma {:induction false} ShiftBack(x: nat, n: nat)
    requires n <= TrailingZeros(x)
    ensures Shl(Shr(x, n), n) == x
    decreases n
  {
    if n > 0 {
      ShiftBack(x / 2, n - 1);
    }
  }

  lemma {:induction false} XorInvolutive(x: nat, y: nat)
    ensures Xor(Xor(x, y), y) == x
    ensures Xor(x, y) == 0 <==> x == y
  {
    if x != 0 || y != 0 {
      XorInvolutive(x / 2, y / 2);
      var z := Xor(x, y);
      assert z / 2 == Xor(x / 2, y / 2);
    }
  }

  lemma {:induction false} XorBound(x: nat, y: nat, n: nat)
    requires x < Shl(1, n) && y < Shl(1, n)
    ensures Xor(x, y) < Shl(1, n)
  {
    if n > 0 {
      XorBound(x / 2, y / 2, n - 1);
    }
  }

  lemma {:induction false} OrZero(x: nat)
    ensures Or(x, 0) == x
  {
    if x != 0 {
      OrZero(x / 2);
    }
  }

  /** Setting a clear bit above which the word is a multiple of twice that bit. */
  lemma {:induction false} OrSetsBit(q: nat, n: nat)
    ensures Or(Shl(2 * q, n), Shl(1, n)) == Shl(2 * q + 1, n)
  {
    if n == 0 {
      OrZero(q);
    } else {
      OrSetsBit(q, n - 1);
      ShlGrows(1, n - 1);
    }
  }

  /** The exclusive or of two 64-bit words. */
  function Xor64(x: uint64, y: uint64): uint64 {
    WordSize();
    XorBound(x, y, 64);
    Xor(x, y)
  }

  /** payload << n in a 64-bit word: shifts of 64 and more give zero. */
  function Shl64(x: uint64, n: nat): uint64 {
    if n >= 64 then 0 else Shl(x, n) % TWO_64
  }
}
