/** Integer facts the index arithmetic of the model relies on. */
module Arithmetic {
  import opened Wrappers

  lemma MulLe(a: nat, b: nat, c: nat)
    requires a <= b
    ensures a * c <= b * c
  {
  }

  lemma MulSign(d: int, c: int)
    requires c >= 0
    ensures d >= 1 ==> d * c >= c
    ensures d <= -1 ==> d * c <= 0 - c
  {
  }

  lemma MulSucc(q: int, c: int)
    ensures (q + 1) * c == q * c + c
  {
  }

  /** Euclidean division is determined by any quotient and remainder in range. */
  lemma DivModUnique(a: int, c: int, q: int, r: int)
    requires c >= 1 && a == q * c + r && 0 <= r < c
    ensures a / c == q && a % c == r
  {
    var q0, r0 := a / c, a % c;
    assert q0 * c + r0 == a && 0 <= r0 < c;
    assert (q - q0) * c == r0 - r;
    MulSign(q - q0, c);
  }

  /** Math.floor of an exact quotient is integer division. */
  lemma FloorOfQuotient(a: int, b: int)
    requires b >= 1
    ensures (a as real / b as real).Floor == a / b
  {
    var q, r := a / b, a % b;
    assert a == q * b + r && 0 <= r < b;
    var x := a as real / b as real;
    assert x * b as real == a as real;
    assert (q as real) * (b as real) <= a as real < (q + 1) as real * (b as real);
    assert q as real <= x < (q + 1) as real;
  }

  /** C and C++ integer division: the quotient truncated toward zero. */
  function TruncDiv(a: int, b: int): (q: int)
    requires b != 0
  {
    var m := (if a < 0 then -a else a) / (if b < 0 then -b else b);
    if (a < 0) == (b < 0) then m else -m
  }

  /** The remainder of C's and JavaScript's `%`: the remainder of the sizes,
      with the sign of the dividend. */
  function TruncRem(a: int, b: int): (r: int)
    requires b != 0
    ensures a >= 0 && b > 0 ==> r == a % b
  {
    var m := (if a < 0 then -a else a) % (if b < 0 then -b else b);
    if a < 0 then -m else m
  }

  /** The truncated quotient leaves a remainder of the dividend's sign that is
      smaller than the divisor in size, and agrees with Euclidean division on a
      non-negative dividend and a positive divisor. */
  lemma TruncDivRemainder(a: int, b: int)
    requires b != 0
    ensures var r := a - TruncDiv(a, b) * b;
      (a >= 0 ==> 0 <= r) && (a <= 0 ==> r <= 0) && -(if b < 0 then -b else b) < r < (if b < 0 then -b else b)
    ensures a >= 0 && b > 0 ==> TruncDiv(a, b) == a / b
  {
    var ua, ub := if a < 0 then -a else a, if b < 0 then -b else b;
    var m, rem := ua / ub, ua % ub;
    assert ua == m * ub + rem && 0 <= rem < ub;
    TruncDivTimes(a, b, m, ub);
    assert a - TruncDiv(a, b) * b == (if a < 0 then -rem else rem);
  }

  /** The truncated quotient times the divisor is the product of the sizes,
      with the sign of the dividend. */
  lemma TruncDivTimes(a: int, b: int, m: int, ub: int)
    requires b != 0 && ub == (if b < 0 then -b else b) && m == (if a < 0 then -a else a) / ub
    ensures TruncDiv(a, b) * b == (if a < 0 then -(m * ub) else m * ub)
  {
    var t := TruncDiv(a, b);
    if b < 0 {
      assert b == -ub;
      if a < 0 {
        assert t == m;
        assert t * b == m * -ub == -(m * ub);
      } else {
        assert t == -m;
        assert t * b == -m * -ub == m * ub;
      }
    } else {
      assert b == ub;
      if a < 0 {
        assert t == -m;
        assert t * b == -m * ub == -(m * ub);
      } else {
        assert t == m;
      }
    }
  }

  function Pow2(k: nat): (r: nat)
    ensures r >= 1
  {
    if k == 0 then 1 else 2 * Pow2(k - 1)
  }

  /** Bitwise exclusive or of two naturals, lowest bit first. */
  function Xor(a: nat, b: nat): nat
    decreases a + b
  {
    if a == 0 then b
    else if b == 0 then a
    else 2 * Xor(a / 2, b / 2) + (if a % 2 == b % 2 then 0 else 1)
  }

  /** The exclusive or of two k-bit numbers is a k-bit number. */
  lemma {:induction false} XorBelow(a: nat, b: nat, k: nat)
    requires a < Pow2(k) && b < Pow2(k)
    ensures Xor(a, b) < Pow2(k)
    decreases a + b
  {
    if a != 0 && b != 0 {
      XorBelow(a / 2, b / 2, k - 1);
    }
  }

  lemma Pow2Values()
    ensures Pow2(8) == 0x100 && Pow2(12) == 0x1000 && Pow2(14) == 0x4000 && Pow2(15) == 0x8000 && Pow2(16) == 0x1_0000
    ensures Pow2(19) == 0x8_0000 && Pow2(20) == 0x10_0000
    ensures Pow2(31) == 0x8000_0000 && Pow2(32) == 0x1_0000_0000
  {
    assert Pow2(4) == 16;
    assert Pow2(8) == 256;
    assert Pow2(12) == 0x1000;
    assert Pow2(16) == 0x1_0000;
    assert Pow2(20) == 0x10_0000;
    assert Pow2(24) == 0x100_0000;
    assert Pow2(28) == 0x1000_0000;
  }

  /** One bit of an exclusive or: the lowest bit, then the rest shifted down. */
  lemma XorStep(a: nat, b: nat)
    ensures Xor(a, b) == 2 * Xor(a / 2, b / 2) + (if a % 2 == b % 2 then 0 else 1)
  {
    if a == 0 {
      assert Xor(0, b / 2) == b / 2;
    } else if b == 0 {
      assert Xor(a / 2, 0) == a / 2;
    }
  }

  /** Exclusive or does not depend on the order of its operands. */
  lemma {:induction false} XorSymmetric(a: nat, b: nat)
    ensures Xor(a, b) == Xor(b, a)
    decreases a + b
  {
    if a != 0 && b != 0 {
      XorSymmetric(a / 2, b / 2);
    }
  }

  /** A number exclusive-or itself is zero. */
  lemma {:induction false} XorSelf(a: nat)
    ensures Xor(a, a) == 0
  {
    if a != 0 {
      XorSelf(a / 2);
    }
  }

  /** An exclusive or, given its operands as twice a half plus a low bit. */
  lemma XorHalves(x: nat, y: nat, hx: nat, hy: nat, lowX: nat, lowY: nat)
    requires lowX < 2 && lowY < 2 && x == 2 * hx + lowX && y == 2 * hy + lowY
    ensures Xor(x, y) == 2 * Xor(hx, hy) + (if lowX == lowY then 0 else 1)
  {
    DivModUnique(x, 2, hx, lowX);
    DivModUnique(y, 2, hy, lowY);
    XorStep(x, y);
  }

  /** c shifted left by k bits. */
  function Shl(c: nat, k: nat): nat
  {
    if k == 0 then c else 2 * Shl(c, k - 1)
  }

  lemma {:induction false} ShlIsMul(c: nat, k: nat)
    ensures Shl(c, k) == c * Pow2(k)
  {
    if k > 0 {
      ShlIsMul(c, k - 1);
      assert c * Pow2(k) == 2 * (c * Pow2(k - 1));
    }
  }

  /** Exclusive or works on the bits above the first k and on the first k
      separately. */
  lemma {:induction false} XorSplit(c: nat, a: nat, d: nat, b: nat, k: nat)
    requires a < Pow2(k) && b < Pow2(k)
    ensures Xor(Shl(c, k) + a, Shl(d, k) + b) == Shl(Xor(c, d), k) + Xor(a, b)
  {
    if k == 0 {
      assert a == 0 && b == 0;
      assert Xor(a, b) == 0;
    } else {
      XorSplitStep(c, a, d, b, k);
      XorSplit(c, a / 2, d, b / 2, k - 1);
    }
  }

  /** The step of XorSplit from k - 1 to k. */
  lemma XorSplitStep(c: nat, a: nat, d: nat, b: nat, k: nat)
    requires 1 <= k && a < Pow2(k) && b < Pow2(k)
    ensures a / 2 < Pow2(k - 1) && b / 2 < Pow2(k - 1)
    ensures Xor(Shl(c, k - 1) + a / 2, Shl(d, k - 1) + b / 2) == Shl(Xor(c, d), k - 1) + Xor(a / 2, b / 2)
      ==> Xor(Shl(c, k) + a, Shl(d, k) + b) == Shl(Xor(c, d), k) + Xor(a, b)
  {
    var ha, la, hb, lb := a / 2, a % 2, b / 2, b % 2;
    var hx, hy := Shl(c, k - 1) + ha, Shl(d, k - 1) + hb;
    XorHalves(Shl(c, k) + a, Shl(d, k) + b, hx, hy, la, lb);
    XorHalves(a, b, ha, hb, la, lb);
  }
  lemma {:induction false} ShlZero(k: nat)
    ensures Shl(0, k) == 0
  {
    if k > 0 {
      ShlZero(k - 1);
    }
  }

  lemma {:induction false} ShlOne(k: nat)
    ensures Shl(1, k) == Pow2(k)
  {
    if k > 0 {
      ShlOne(k - 1);
    }
  }

  lemma {:induction false} Pow2Less(j: nat, m: nat)
    requires j < m
    ensures Pow2(j) < Pow2(m)
    decreases m
  {
    if j < m - 1 {
      Pow2Less(j, m - 1);
    }
  }

  /** Two distinct single bits combine by exclusive or as by addition. */
  lemma XorTwoBits(j: nat, t: nat)
    requires j < t
    ensures Xor(Pow2(t), Pow2(j)) == Pow2(t) + Pow2(j)
    ensures Xor(Pow2(j), Pow2(t)) == Pow2(t) + Pow2(j)
  {
    Pow2Less(j, t);
    var zero: nat, pj, pt := 0, Pow2(j), Pow2(t);
    XorHighBit(t, zero, pj);
    XorSymmetric(pj, pt);
  }

  /** ... and so do three. */
  lemma XorThreeBits(j: nat, m: nat, t: nat)
    requires j < m < t
    ensures Xor(Pow2(t) + Pow2(j), Pow2(m)) == Pow2(t) + Pow2(m) + Pow2(j)
  {
    Pow2Less(j, m);
    Pow2Less(m, t);
    var pj, pm := Pow2(j), Pow2(m);
    XorHighBit(t, pj, pm);
    XorTwoBits(j, m);
  }

  /** Bit k passes through an exclusive or of two k-bit numbers. */
  lemma XorHighBit(k: nat, a: nat, b: nat)
    requires a < Pow2(k) && b < Pow2(k)
    ensures Xor(Pow2(k) + a, b) == Pow2(k) + Xor(a, b)
  {
    ShlOne(k);
    ShlZero(k);
    XorSplit(1, a, 0, b, k);
    assert Xor(1, 0) == 1;
  }

  /** Bit k cancels in an exclusive or of 2^k with 2^k + m. */
  lemma XorFlipHigh(k: nat, m: nat)
    requires m < Pow2(k)
    ensures Xor(Pow2(k), Pow2(k) + m) == m
  {
    ShlOne(k);
    ShlZero(k);
    XorSplit(1, 0, 1, m, k);
    assert Xor(1, 1) == 0 && Xor(0, m) == m;
  }

  /** Equal high parts cancel in an exclusive or. */
  lemma XorCancelHigh(c: nat, a: nat, k: nat)
    requires a < Pow2(k)
    ensures Xor(Shl(c, k) + a, Shl(c, k)) == a
  {
    XorSelf(c);
    ShlZero(k);
    XorSplit(c, a, c, 0, k);
    assert Xor(a, 0) == a;
  }

  /** Bitwise or of two naturals, bit by bit from the lowest. */
  function Or(a: nat, b: nat): nat
    decreases a + b
  {
    if a == 0 then b
    else if b == 0 then a
    else 2 * Or(a / 2, b / 2) + (if a % 2 == 1 || b % 2 == 1 then 1 else 0)
  }

  /** Or of a number shifted left by k with a k-bit number is their sum. */
  lemma {:induction false} OrHighLow(h: nat, low: nat, k: nat)
    requires low < Pow2(k)
    ensures Or(Shl(h, k), low) == Shl(h, k) + low
  {
    if k == 0 {
      assert low == 0;
    } else if Shl(h, k) != 0 && low != 0 {
      OrHighLow(h, low / 2, k - 1);
      assert Shl(h, k) / 2 == Shl(h, k - 1) && Shl(h, k) % 2 == 0;
    }
  }

  /** static_cast<uint32_t>: the low 32 bits. */
  function Low32(x: int): U32 { x % 0x1_0000_0000 }

  /** Unsigned 64-bit wrap-around. */
  function Low64(x: int): U64 { x % 0x1_0000_0000_0000_0000 }

  /** Wrapping to 64 bits first does not change the low 32 bits. */
  lemma Low32OfLow64(x: int)
    ensures Low32(Low64(x)) == Low32(x)
  {
    var q, r := x / 0x1_0000_0000_0000_0000, Low64(x);
    assert x == q * 0x1_0000_0000_0000_0000 + r;
    DivModUnique(x, 0x1_0000_0000, q * 0x1_0000_0000 + r / 0x1_0000_0000, r % 0x1_0000_0000);
  }

  /** Exclusive or of two unsigned 32-bit values. */
  function XorU32(a: U32, b: U32): U32
  {
    Pow2Values();
    XorBelow(a, b, 32);
    Xor(a, b)
  }
}
