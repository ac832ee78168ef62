/**
 * Two's-complement bit patterns of int64 values, in integer arithmetic:
 * the unsigned reading of a pattern, bit `n` of a number, and the
 * position-by-position combinations behind Go's `|`, `&` and `^`.
 */
module Bits {
  import opened Common

  /** The unsigned reading of an int64's 64-bit pattern. */
  function Unsigned(x: int64): (u: nat)
    ensures u < TWO_64
    ensures x >= 0 ==> u == x
    ensures x < 0 ==> u == x + TWO_64
  {
    if x < 0 then x + TWO_64 else x
  }

  /** The int64 whose 64-bit pattern reads as the unsigned `u`. */
  function Signed(u: nat): (x: int64)
    requires u < TWO_64
    ensures Unsigned(x) == u
  {
    if u > INT64_MAX then u - TWO_64 else u
  }

  lemma Pow2Sum(a: nat, b: nat)
    ensures Pow2(a + b) == Pow2(a) * Pow2(b)
  {
    if a > 0 {
      Pow2Sum(a - 1, b);
    }
  }

  lemma Pow2Half()
    ensures Pow2(32) == 0x1_0000_0000
  {
    Pow2Sum(16, 16);
    assert Pow2(16) == 0x1_0000 by {
      Pow2Sum(8, 8);
    }
  }

  lemma Pow2Width()
    ensures Pow2(64) == TWO_64
    ensures Pow2(63) == INT64_MAX + 1
  {
    Pow2Half();
    Pow2Sum(32, 32);
    Pow2Sum(31, 32);
  }

  /** Bit `n` of `u`, counting from the least significant. */
  function Bit(u: nat, n: nat): (b: nat)
    ensures b < 2
  {
    if n == 0 then u % 2 else Bit(u / 2, n - 1)
  }

  /** Bit `n` of an int64's two's-complement pattern. */
  function BitOf(x: int64, n: nat): nat
    requires n < 64
  {
    Bit(Unsigned(x), n)
  }

  datatype BitOp = BitOr | BitAnd | BitXor

  /** One position of `|`, `&` or `^`. */
  function Combine(op: BitOp, x: nat, y: nat): nat
  {
    match op
    case BitOr => if x == 1 || y == 1 then 1 else 0
    case BitAnd => if x == 1 && y == 1 then 1 else 0
    case BitXor => if x != y then 1 else 0
  }

  /** The low `k` bits of `u` and `v` combined position by position. */
  function Bitwise(op: BitOp, u: nat, v: nat, k: nat): (w: nat)
    ensures w < Pow2(k)
  {
    if k == 0 then 0
    else 2 * Bitwise(op, u / 2, v / 2, k - 1) + Combine(op, u % 2, v % 2)
  }

  /** A 64-bit bitwise operation on two int64 values. */
  function Bitwise64(op: BitOp, a: int64, b: int64): int64
  {
    Pow2Width();
    Signed(Bitwise(op, Unsigned(a), Unsigned(b), 64))
  }

  /** Each bit of a bitwise combination is the combination of the operands' bits at that position. */
  lemma {:induction false} BitwiseBit(op: BitOp, u: nat, v: nat, k: nat, n: nat)
    requires n < k
    ensures Bit(Bitwise(op, u, v, k), n) == Combine(op, Bit(u, n), Bit(v, n))
  {
    var rest := Bitwise(op, u / 2, v / 2, k - 1);
    var w := Bitwise(op, u, v, k);
    assert w == 2 * rest + Combine(op, u % 2, v % 2);
    if n > 0 {
      assert w / 2 == rest;
      BitwiseBit(op, u / 2, v / 2, k - 1, n - 1);
    }
  }

  /** The int64 form: bit `n` of `a op b` is `op` of bit `n` of `a` and of `b`. */
  lemma Bitwise64Bit(op: BitOp, a: int64, b: int64, n: nat)
    requires n < 64
    ensures BitOf(Bitwise64(op, a, b), n) == Combine(op, BitOf(a, n), BitOf(b, n))
  {
    Pow2Width();
    BitwiseBit(op, Unsigned(a), Unsigned(b), 64, n);
  }

  /** Masking with 1 keeps the lowest bit. */
  lemma {:induction false} BitwiseAndOne(u: nat, k: nat)
    requires k >= 1
    ensures Bitwise(BitAnd, u, 1, k) == u % 2
  {
    BitwiseAndZero(u / 2, k - 1);
  }

  lemma {:induction false} BitwiseAndZero(u: nat, k: nat)
    ensures Bitwise(BitAnd, u, 0, k) == 0
  {
    if k > 0 {
      BitwiseAndZero(u / 2, k - 1);
    }
  }

  lemma {:induction false} MulAtLeast(a: nat, d: nat)
    requires a >= 1
    ensures a * d >= d
  {
    if a > 1 {
      MulAtLeast(a - 1, d);
      assert a * d == (a - 1) * d + d;
    }
  }

  /** Quotient and remainder are determined by any decomposition `u == q * d + r` with `0 <= r < d`. */
  lemma DivUnique(u: int, d: int, q: int, r: int)
    requires d >= 1 && 0 <= r < d && u == q * d + r
    ensures u / d == q && u % d == r
  {
    var q0, r0 := u / d, u % d;
    assert u == q0 * d + r0;
    assert (q - q0) * d == q * d - q0 * d;
    if q > q0 {
      MulAtLeast(q - q0, d);
    } else if q < q0 {
      MulAtLeast(q0 - q, d);
    }
  }

  lemma DivDiv(u: nat, a: nat, b: nat)
    requires a >= 1 && b >= 1
    ensures u / a / b == u / (a * b)
  {
    var q := u / (a * b);
    var r := u % (a * b);
    var s := r / a;
    assert s < b by {
      DivUnique(r, a, s, r % a);
      assert s * a <= r < b * a;
    }
    assert u == (q * b + s) * a + r % a;
    DivUnique(u, a, q * b + s, r % a);
    DivUnique(q * b + s, b, q, s);
  }

  /** Bit `n` is the parity of the number divided by 2^n. */
  lemma {:induction false} BitIsQuotientParity(u: nat, n: nat)
    ensures Bit(u, n) == u / Pow2(n) % 2
  {
    if n > 0 {
      BitIsQuotientParity(u / 2, n - 1);
      DivDiv(u, 2, Pow2(n - 1));
    }
  }

  /** The only bit of 2^m is bit m. */
  lemma {:induction false} PowerBit(m: nat, n: nat)
    ensures Bit(Pow2(m), n) == if n == m then 1 else 0
  {
    if m > 0 && n > 0 {
      PowerBit(m - 1, n - 1);
    } else if m > 0 {
      assert Pow2(m) % 2 == 0;
    } else if n > 0 {
      assert Pow2(m) / 2 == 0;
      ZeroBits(n - 1);
    }
  }

  lemma {:induction false} ZeroBits(n: nat)
    ensures Bit(0, n) == 0
  {
    if n > 0 {
      ZeroBits(n - 1);
    }
  }

  /** Subtracting from 2^k - 1 inverts each of the low `k` bits. */
  lemma {:induction false} ComplementBits(u: nat, k: nat, n: nat)
    requires u < Pow2(k) && n < k
    ensures Bit(Pow2(k) - 1 - u, n) == 1 - Bit(u, n)
  {
    var c := Pow2(k) - 1 - u;
    assert c == 2 * (Pow2(k - 1) - 1 - u / 2) + (1 - u % 2);
    if n > 0 {
      assert c / 2 == Pow2(k - 1) - 1 - u / 2;
      ComplementBits(u / 2, k - 1, n - 1);
    }
  }

  /** A value below 2^64 reads back unchanged after wrapping into int64. */
  lemma UnsignedOfWrap(p: nat)
    requires p < TWO_64
    ensures Unsigned(Wrap64(p)) == p
  {
  }

  lemma AddMultipleQuotient(x: int, p: nat, k: int)
    requires p >= 1
    ensures (x + k * p) / p == x / p + k
  {
    var q := x / p;
    var r := x % p;
    assert x + k * p == (q + k) * p + r;
    DivUnique(x + k * p, p, q + k, r);
  }

  lemma PowerSplit(n: nat)
    requires n < 64
    ensures TWO_64 == Pow2(64 - n) * Pow2(n)
    ensures Pow2(64 - n) % 2 == 0
  {
    Pow2Width();
    Pow2Sum(64 - n, n);
  }

  lemma EvenAdd(q: int, k: int)
    requires k % 2 == 0
    ensures (q + k) % 2 == q % 2
  {
    DivUnique(q + k, 2, q / 2 + k / 2, q % 2);
  }

  lemma QuotientParity(x: int, p: nat, k: nat)
    requires p >= 1 && k % 2 == 0
    ensures (x + k * p) / p % 2 == x / p % 2
  {
    AddMultipleQuotient(x, p, k);
    EvenAdd(x / p, k);
  }

  /** Floor division by 2^n: adding 2^64 to the dividend adds the even number 2^(64-n) to the quotient. */
  lemma ShiftedParity(x: int64, n: nat)
    requires n < 64
    ensures Unsigned(x) / Pow2(n) % 2 == x / Pow2(n) % 2
  {
    if x < 0 {
      var p, k := Pow2(n), Pow2(64 - n);
      PowerSplit(n);
      QuotientParity(x as int, p, k);
      assert Unsigned(x) == x as int + k * p;
    }
  }
}
