// Fixed-width C integer types, the bit operations the driver uses on them,
// and C's truncating division, all modelled on unbounded integers.

module CTypes {

  /** uint8_t */
  type byte = x: int | 0 <= x < 0x100
  /** uint16_t */
  type uint16 = x: int | 0 <= x < 0x1_0000
  /** int16_t */
  type int16 = x: int | -0x8000 <= x < 0x8000
  /** int8_t */
  type int8 = x: int | -0x80 <= x < 0x80

  datatype Option<T> = None | Some(value: T)

  function Pow2(n: nat): (r: nat)
    ensures r >= 1
  {
    if n == 0 then 1 else 2 * Pow2(n - 1)
  }

  /** Bit i of x, that is (x >> i) & 1 == 1. */
  function TestBit(x: nat, i: nat): bool
  {
    if i == 0 then x % 2 == 1 else TestBit(x / 2, i - 1)
  }

  /** C's `a & b` on non-negative operands. */
  function BitAnd(a: nat, b: nat): (r: nat)
    ensures r <= a && r <= b
  {
    if a == 0 || b == 0 then 0
    else 2 * BitAnd(a / 2, b / 2) + (if a % 2 == 1 && b % 2 == 1 then 1 else 0)
  }

  /** C's `a | b` on non-negative operands. */
  function BitOr(a: nat, b: nat): (r: nat)
  {
    if a == 0 then b
    else if b == 0 then a
    else 2 * BitOr(a / 2, b / 2) + (if a % 2 == 1 || b % 2 == 1 then 1 else 0)
  }

  lemma {:induction false} AndBit(a: nat, b: nat, i: nat)
    ensures TestBit(BitAnd(a, b), i) == (TestBit(a, i) && TestBit(b, i))
  {
    if a == 0 || b == 0 {
      ZeroBits(i);
    } else if i > 0 {
      AndBit(a / 2, b / 2, i - 1);
    }
  }

  lemma {:induction false} OrBit(a: nat, b: nat, i: nat)
    ensures TestBit(BitOr(a, b), i) == (TestBit(a, i) || TestBit(b, i))
  {
    if a == 0 {
      ZeroBits(i);
    } else if b == 0 {
      ZeroBits(i);
    } else if i > 0 {
      OrBit(a / 2, b / 2, i - 1);
    }
  }

  lemma {:induction false} ZeroBits(i: nat)
    ensures !TestBit(0, i)
  {
    if i > 0 {
      ZeroBits(i - 1);
    }
  }

  /** Two numbers with the same bits are equal. */
  lemma {:induction false} BitsDetermine(a: nat, b: nat)
    requires forall i: nat :: TestBit(a, i) == TestBit(b, i)
    ensures a == b
  {
    if a == 0 && b == 0 {
    } else {
      assert TestBit(a, 0) == TestBit(b, 0);
      forall i: nat
        ensures TestBit(a / 2, i) == TestBit(b / 2, i)
      {
        assert TestBit(a, i + 1) == TestBit(b, i + 1);
      }
      BitsDetermine(a / 2, b / 2);
    }
  }

  /** The only bit of 2^n is bit n. */
  lemma {:induction false} Pow2Bit(n: nat, i: nat)
    ensures TestBit(Pow2(n), i) == (i == n)
  {
    if n == 0 {
      if i > 0 {
        ZeroBits(i - 1);
      }
    } else if i > 0 {
      Pow2Bit(n - 1, i - 1);
    }
  }

  /** Distinct powers of two have no bit in common. */
  lemma PowersDisjoint(i: nat, j: nat)
    requires i != j
    ensures BitAnd(Pow2(i), Pow2(j)) == 0
  {
    forall k: nat
      ensures TestBit(BitAnd(Pow2(i), Pow2(j)), k) == TestBit(0, k)
    {
      AndBit(Pow2(i), Pow2(j), k);
      Pow2Bit(i, k);
      Pow2Bit(j, k);
      ZeroBits(k);
    }
    BitsDetermine(BitAnd(Pow2(i), Pow2(j)), 0);
  }

  /** A number below 2^n has no bit at n or above. */
  lemma {:induction false} HighBitsClear(x: nat, n: nat, i: nat)
    requires x < Pow2(n) && n <= i
    ensures !TestBit(x, i)
  {
    if x == 0 {
      ZeroBits(i);
    } else if n > 0 {
      HighBitsClear(x / 2, n - 1, i - 1);
    }
  }

  /** Bit i of x % 2^n is bit i of x when i < n and clear otherwise. */
  lemma {:induction false} ModPow2Bit(x: nat, n: nat, i: nat)
    ensures TestBit(x % Pow2(n), i) == (i < n && TestBit(x, i))
  {
    if n == 0 {
      ZeroBits(i);
    } else {
      var p := Pow2(n - 1);
      assert x % (2 * p) == 2 * ((x / 2) % p) + x % 2 by {
        DivModTwice(x, p);
      }
      if i > 0 {
        ModPow2Bit(x / 2, n - 1, i - 1);
      }
    }
  }

  lemma DivModTwice(x: nat, p: nat)
    requires p > 0
    ensures x % (2 * p) == 2 * ((x / 2) % p) + x % 2
  {
    var q := (x / 2) / p;
    var r := (x / 2) % p;
    assert x / 2 == p * q + r;
    assert x == (2 * p) * q + (2 * r + x % 2);
    ModUnique(x, 2 * p, q, 2 * r + x % 2);
  }

  /** The remainder is determined by any division equation with a remainder in range. */
  lemma ModUnique(x: int, d: int, q: int, r: int)
    requires d > 0 && x == d * q + r && 0 <= r < d
    ensures x % d == r
  {
    var q0 := x / d;
    var r0 := x % d;
    assert d * q0 + r0 == d * q + r;
    assert d * (q - q0) == r0 - r;
    SmallMultiple(d, q - q0);
  }

  lemma SmallMultiple(d: int, k: int)
    requires d > 0 && -d < d * k < d
    ensures k == 0
  {
  }

  /** The quotient is determined by any division equation with a remainder in range. */
  lemma DivUnique(x: int, d: int, q: int, r: int)
    requires d > 0 && x == d * q + r && 0 <= r < d
    ensures x / d == q
  {
    ModUnique(x, d, q, r);
    assert d * (x / d) == d * q;
  }

  /** `x >> j`. */
  function Shr(x: nat, j: nat): (r: nat)
    ensures r <= x
  {
    if j == 0 then x else Shr(x / 2, j - 1)
  }

  /** The number formed by the low n bits of x, least significant first. */
  function LowBits(x: nat, n: nat): nat
  {
    if n == 0 then 0 else x % 2 + 2 * LowBits(x / 2, n - 1)
  }

  lemma {:induction false} ShrStep(x: nat, j: nat)
    ensures Shr(x, j) / 2 == Shr(x, j + 1)
    ensures TestBit(x, j) == (Shr(x, j) % 2 == 1)
  {
    if j > 0 {
      ShrStep(x / 2, j - 1);
    }
  }

  /** Bit i of x >> n is bit i + n of x. */
  lemma {:induction false} ShrBit(x: nat, n: nat, i: nat)
    ensures TestBit(Shr(x, n), i) == TestBit(x, i + n)
  {
    if n > 0 {
      ShrBit(x / 2, n - 1, i);
    }
  }

  /** The low n bits of x are x mod 2^n. */
  lemma {:induction false} LowBitsMod(x: nat, n: nat)
    ensures LowBits(x, n) == x % Pow2(n)
  {
    if n > 0 {
      LowBitsMod(x / 2, n - 1);
      DivModTwice(x, Pow2(n - 1));
    }
  }

  /** Dividing by a and then by b is dividing by a * b. */
  lemma DivDiv(x: nat, a: nat, b: nat)
    requires a > 0 && b > 0
    ensures x / a / b == x / (a * b)
  {
    var q, r, r0 := x / a / b, x / a % b, x % a;
    assert x / a == b * q + r;
    assert x == a * (x / a) + r0;
    assert a * r <= a * (b - 1);
    assert x == (a * b) * q + (a * r + r0);
    DivUnique(x, a * b, q, a * r + r0);
  }

  /** Shifting right by j is dividing by 2^j. */
  lemma {:induction false} ShrDiv(x: nat, j: nat)
    ensures Shr(x, j) == x / Pow2(j)
  {
    if j > 0 {
      ShrDiv(x / 2, j - 1);
      DivDiv(x, 2, Pow2(j - 1));
    }
  }

  /** `x & (2^n - 1)` keeps the low n bits: it is x mod 2^n. */
  lemma LowMask(x: nat, n: nat)
    ensures BitAnd(x, Pow2(n) - 1) == x % Pow2(n)
  {
    forall i: nat
      ensures TestBit(BitAnd(x, Pow2(n) - 1), i) == TestBit(x % Pow2(n), i)
    {
      AndBit(x, Pow2(n) - 1, i);
      LowMaskBit(n, i);
      ModPow2Bit(x, n, i);
    }
    BitsDetermine(BitAnd(x, Pow2(n) - 1), x % Pow2(n));
  }

  /** 2^n - 1 has exactly the bits 0 .. n-1. */
  lemma {:induction false} LowMaskBit(n: nat, i: nat)
    ensures TestBit(Pow2(n) - 1, i) == (i < n)
  {
    if n == 0 {
      ZeroBits(i);
    } else {
      assert (Pow2(n) - 1) % 2 == 1;
      assert (Pow2(n) - 1) / 2 == Pow2(n - 1) - 1;
      if i > 0 {
        LowMaskBit(n - 1, i - 1);
      }
    }
  }

  /** `x & 2^i` is non-zero exactly when bit i of x is set. */
  lemma MaskTest(x: nat, i: nat)
    ensures (BitAnd(x, Pow2(i)) != 0) == TestBit(x, i)
  {
    if BitAnd(x, Pow2(i)) == 0 {
      AndBit(x, Pow2(i), i);
      ZeroBits(i);
      Pow2Bit(i, i);
    } else {
      if !TestBit(x, i) {
        forall j: nat
          ensures TestBit(BitAnd(x, Pow2(i)), j) == TestBit(0, j)
        {
          AndBit(x, Pow2(i), j);
          Pow2Bit(i, j);
          ZeroBits(j);
        }
        BitsDetermine(BitAnd(x, Pow2(i)), 0);
      }
    }
  }

  /** `lo | (hi << n)` is lo + hi * 2^n when lo fits in n bits. */
  lemma {:induction false} OrShift(lo: nat, hi: nat, n: nat)
    requires lo < Pow2(n)
    ensures BitOr(lo, hi * Pow2(n)) == lo + hi * Pow2(n)
  {
    if lo == 0 || hi == 0 {
    } else if n == 0 {
    } else {
      var c := hi * Pow2(n);
      assert c == 2 * (hi * Pow2(n - 1));
      assert c % 2 == 0 && c / 2 == hi * Pow2(n - 1);
      OrShift(lo / 2, hi, n - 1);
    }
  }

  /** C's `/` on int operands with a positive divisor: the quotient rounds toward zero. */
  function TruncDiv(a: int, b: int): (q: int)
    requires b > 0
    ensures a >= 0 ==> q * b <= a < q * b + b
    ensures a < 0 ==> q * b - b < a <= q * b
  {
    if a >= 0 then a / b else -((-a) / b)
  }

  /** A positive factor keeps the order of products. */
  lemma MulGrows(d: int, x: int, y: int)
    requires d > 0 && x < y
    ensures d * (x + 1) <= d * y
  {
  }

  /** Bounds on a quotient from bounds on the dividend. */
  lemma DivBounds(n: int, d: int, lo: int, hi: int)
    requires n >= 0 && d > 0 && d * lo <= n <= d * hi
    ensures lo <= n / d <= hi
  {
    var q := n / d;
    assert n == d * q + n % d;
    assert hi < q ==> d * (hi + 1) <= d * q by {
      if hi < q { MulGrows(d, hi, q); }
    }
    assert q < lo ==> d * (q + 1) <= d * lo by {
      if q < lo { MulGrows(d, q, lo); }
    }
  }

  lemma DivMono(a: int, b: int, d: int)
    requires 0 <= a <= b && d > 0
    ensures a / d <= b / d
  {
    var qa, qb := a / d, b / d;
    assert a == d * qa + a % d && b == d * qb + b % d;
    assert qb < qa ==> d * (qb + 1) <= d * qa by {
      if qb < qa { MulGrows(d, qb, qa); }
    }
  }

  /** Truncating division keeps the order of dividends. */
  lemma TruncDivMono(a: int, b: int, d: int)
    requires a <= b && d > 0
    ensures TruncDiv(a, d) <= TruncDiv(b, d)
  {
    if a >= 0 {
      DivMono(a, b, d);
    } else if b < 0 {
      DivMono(-b, -a, d);
    } else {
      TruncDivSign(a, d);
      TruncDivSign(b, d);
    }
  }

  lemma TruncDivSign(a: int, d: int)
    requires d > 0
    ensures a >= 0 ==> TruncDiv(a, d) >= 0
    ensures a < 0 ==> TruncDiv(a, d) <= 0
  {
    var n := if a >= 0 then a else -a;
    var q := n / d;
    assert n == d * q + n % d && 0 <= n % d < d;
    assert q < 0 ==> d * (q + 1) <= d * 0 by {
      if q < 0 { MulGrows(d, q, 0); }
    }
  }

  /** The conversion `(int16_t)x` on a two's-complement machine. */
  function ToInt16(x: int): (r: int16)
    ensures (x - r) % 0x1_0000 == 0
  {
    var m := x % 0x1_0000;
    if m >= 0x8000 then m - 0x1_0000 else m
  }

  /** The conversion `(int8_t)x` on a two's-complement machine. */
  function ToInt8(x: int): (r: int8)
    ensures (x - r) % 0x100 == 0
  {
    var m := x % 0x100;
    if m >= 0x80 then m - 0x100 else m
  }

  /** A little-endian 16-bit word from its two bytes. */
  function Le16(lo: byte, hi: byte): (w: uint16)
    ensures w % 0x100 == lo && w / 0x100 == hi
  {
    lo + 0x100 * hi
  }

  function LowByte(w: uint16): byte { w % 0x100 }
  function HighByte(w: uint16): byte { w / 0x100 }

  lemma WordBytes(w: uint16)
    ensures Le16(LowByte(w), HighByte(w)) == w
  {
  }

  /** `n` zero bytes, as `memset(p, 0, n)` writes. */
  function Zeros(n: nat): (z: seq<byte>)
    ensures |z| == n && forall i :: 0 <= i < n ==> z[i] == 0
  {
    if n == 0 then [] else Zeros(n - 1) + [0]
  }
}
