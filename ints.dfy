/**
 * The int type (objects/intobject.go): 64-bit two's-complement arithmetic
 * with wrap-around, Go's truncating division, shifts by an unsigned count,
 * bit indexing and bit assignment, truthiness and three-way comparison.
 */
module IntObjects {
  import opened Common
  import opened Values
  import opened Bits
  import opened Arguments

  const DIV_ZERO: string := "int division by zero"
  const MOD_ZERO: string := "int modulo by zero"
  const BIT_RANGE: string := "subscript position out of bounds"
  const NOT_INT: string := "value must be an integer"
  const NOT_NUMBER: string := "expected number"
  const NOT_BIT: string := "value must be either 1 or 0"

  // ----- arithmetic -----

  function Neg(a: int64): int64 { Wrap64(-(a as int)) }

  /** `^a`: every bit of the pattern inverted, which for two's complement is `-a - 1`. */
  function Compl(a: int64): int64 { -(a as int) - 1 }

  function Or(a: int64, b: int64): int64 { Bitwise64(BitOr, a, b) }
  function And(a: int64, b: int64): int64 { Bitwise64(BitAnd, a, b) }
  function Xor(a: int64, b: int64): int64 { Bitwise64(BitXor, a, b) }

  /** `uint(b)`: a negative count reads as a huge unsigned one. */
  function ShiftCount(b: int64): nat
  {
    if b < 0 then b + TWO_64 else b
  }

  /** `a << uint(b)`: a count of 64 or more shifts every bit out. */
  function Lshift(a: int64, b: int64): int64
  {
    var s := ShiftCount(b);
    if s >= 64 then 0 else Wrap64(a * Pow2(s))
  }

  /** Dividing a natural number by a positive one does not increase it; by 2 or more at least halves it. */
  lemma QuotientBound(x: nat, d: nat)
    requires d >= 1
    ensures x / d <= x
    ensures d >= 2 ==> 2 * (x / d) <= x
  {
    var q := x / d;
    assert x == d * q + x % d;
    MulAtLeast(d, q);
    if d >= 2 {
      MulAtLeast(d - 1, q);
      assert d * q == (d - 1) * q + q;
    }
  }

  lemma FloorDivBound(a: int64, p: nat)
    requires p >= 1
    ensures INT64_MIN <= a / p <= INT64_MAX
    ensures a >= 0 ==> 0 <= a / p <= a
    ensures a < 0 ==> a <= a / p < 0
  {
    var q := a / p;
    var r := a % p;
    assert a == q * p + r;
    if a >= 0 {
      QuotientBound(a as nat, p);
    } else {
      MulAtLeast(p, -(q + 1));
      assert (q + 1) * p == q * p + p;
    }
  }

  /** `a >> uint(b)`: an arithmetic shift; a count of 64 or more leaves only the sign. */
  function Rshift(a: int64, b: int64): int64
  {
    var s := ShiftCount(b);
    if s >= 64 then (if a < 0 then -1 else 0)
    else FloorDivBound(a, Pow2(s)); a / Pow2(s)
  }

  function Add(a: int64, b: int64): int64 { Wrap64(a + b) }
  function Sub(a: int64, b: int64): int64 { Wrap64(a - b) }
  function Mul(a: int64, b: int64): int64 { Wrap64(a * b) }

  lemma RemainderFits(a: int64, b: int64)
    requires b != 0
    ensures INT64_MIN <= GoRem(a, b) <= INT64_MAX
  {
    GoDivision(a, b);
  }

  /** `a / b`: an error for a zero divisor, else the truncated quotient (MIN / -1 wraps to MIN). */
  function Div(a: int64, b: int64): (r: Outcome<int64>)
    ensures r.Error? <==> b == 0
    ensures r.Error? ==> r.msg == DIV_ZERO
    ensures r.Done? || r.Error?
  {
    if b == 0 then Error(DIV_ZERO) else Done(Wrap64(GoQuot(a, b)))
  }

  /** `a % b`: an error for a zero divisor, else the remainder with the dividend's sign. */
  function Mod(a: int64, b: int64): (r: Outcome<int64>)
    ensures r.Error? <==> b == 0
    ensures r.Error? ==> r.msg == MOD_ZERO
    ensures r.Done? || r.Error?
  {
    if b == 0 then Error(MOD_ZERO) else RemainderFits(a, b); Done(GoRem(a, b))
  }

  /** The unary entries of the int number table. */
  function Unary(op: NumOp, a: int64): int64
    requires op == NumNeg || op == NumCompl
  {
    if op == NumNeg then Neg(a) else Compl(a)
  }

  /** The binary entries of the int number table. */
  function Binary(op: NumOp, a: int64, b: int64): Outcome<int64>
    requires op != NumNeg && op != NumCompl
  {
    match op
    case NumOr => Done(Or(a, b))
    case NumAnd => Done(And(a, b))
    case NumXor => Done(Xor(a, b))
    case NumLshift => Done(Lshift(a, b))
    case NumRshift => Done(Rshift(a, b))
    case NumAdd => Done(Add(a, b))
    case NumSub => Done(Sub(a, b))
    case NumMul => Done(Mul(a, b))
    case NumDiv => Div(a, b)
    case NumMod => Mod(a, b)
  }

  // ----- properties of the arithmetic -----

  /** Add, sub and mul give the exact result when it fits, and otherwise the one congruent to it modulo 2^64. */
  lemma ArithmeticWraps(a: int64, b: int64)
    ensures (Add(a, b) - (a + b)) % TWO_64 == 0 && (Sub(a, b) - (a - b)) % TWO_64 == 0
    ensures (Mul(a, b) - a * b) % TWO_64 == 0
    ensures INT64_MIN <= a + b <= INT64_MAX ==> Add(a, b) == a + b
    ensures INT64_MIN <= a - b <= INT64_MAX ==> Sub(a, b) == a - b
    ensures INT64_MIN <= a * b <= INT64_MAX ==> Mul(a, b) == a * b
  {
  }

  /** Negation is exact except on the most negative value, which it maps to itself. */
  lemma NegWraps(a: int64)
    ensures a != INT64_MIN ==> Neg(a) == -a
    ensures Neg(INT64_MIN) == INT64_MIN
  {
    assert Wrap64(-INT64_MIN) == -INT64_MIN - TWO_64;
  }

  /** For a non-zero divisor, quotient times divisor plus remainder gives back the dividend (modulo 2^64). */
  /** The truncated quotient fits in int64 except for the most negative value divided by -1. */
  lemma QuotientFits(a: int64, b: int64)
    requires b != 0 && !(a == INT64_MIN && b == -1)
    ensures INT64_MIN <= GoQuot(a, b) <= INT64_MAX
  {
    QuotientBound(Abs(a), Abs(b));
  }

  lemma DivModIdentity(a: int64, b: int64)
    requires b != 0
    ensures Div(a, b).Done? && Mod(a, b).Done?
    ensures Wrap64(Div(a, b).value * b + Mod(a, b).value) == a
    ensures !(a == INT64_MIN && b == -1) ==> Div(a, b).value * b + Mod(a, b).value == a
    ensures Abs(Mod(a, b).value) < Abs(b)
    ensures Mod(a, b).value == 0 || (Mod(a, b).value < 0 <==> a < 0)
  {
    GoDivision(a, b);
    if a == INT64_MIN && b == -1 {
      assert GoQuot(a, b) == TWO_64 / 2;
      assert Div(a, b).value == INT64_MIN;
      assert Mod(a, b).value == 0;
    } else {
      QuotientFits(a, b);
    }
  }

  /** The complement inverts every bit of the pattern. */
  lemma ComplInvertsBits(a: int64, n: nat)
    requires n < 64
    ensures BitOf(Compl(a), n) == 1 - BitOf(a, n)
  {
    Pow2Width();
    assert Unsigned(Compl(a)) == Pow2(64) - 1 - Unsigned(a);
    ComplementBits(Unsigned(a), 64, n);
  }

  /** Or, and and xor act on each bit position independently. */
  lemma BitwisePerBit(a: int64, b: int64, n: nat)
    requires n < 64
    ensures BitOf(Or(a, b), n) == 1 <==> BitOf(a, n) == 1 || BitOf(b, n) == 1
    ensures BitOf(And(a, b), n) == 1 <==> BitOf(a, n) == 1 && BitOf(b, n) == 1
    ensures BitOf(Xor(a, b), n) == 1 <==> BitOf(a, n) != BitOf(b, n)
  {
    Bitwise64Bit(BitOr, a, b, n);
    Bitwise64Bit(BitAnd, a, b, n);
    Bitwise64Bit(BitXor, a, b, n);
  }

  /** A count outside 0..63 (a negative one included) shifts everything out. */
  lemma ShiftOutOfRange(a: int64, b: int64)
    requires b < 0 || b >= 64
    ensures Lshift(a, b) == 0
    ensures Rshift(a, b) == (if a < 0 then -1 else 0)
  {
  }

  /** Shifting left by s multiplies by 2^s when the product fits; shifting right keeps the sign. */
  lemma ShiftInRange(a: int64, b: int64)
    requires 0 <= b < 64
    ensures INT64_MIN <= a * Pow2(b) <= INT64_MAX ==> Lshift(a, b) == a * Pow2(b)
    ensures Rshift(a, b) < 0 <==> a < 0
    ensures Rshift(a, 0) == a
  {
    FloorDivBound(a, Pow2(b));
  }

  // ----- the sequence entries: one bit per index -----

  /** `blIntItem`: `(v >> num) & 1` for `0 <= num <= 63`. */
  function Item(v: int64, num: int64): (r: Outcome<int64>)
    ensures r.Error? <==> num < 0 || num > 63
    ensures r.Error? ==> r.msg == BIT_RANGE
    ensures r.Done? || r.Error?
  {
    if num > 63 || num < 0 then Error(BIT_RANGE)
    else Done(And(Rshift(v, num), 1))
  }

  /** The value read by `Item` is bit `num` of the pattern, so always 0 or 1. */
  lemma ItemIsBit(v: int64, num: int64)
    requires 0 <= num <= 63
    ensures Item(v, num) == Done(BitOf(v, num) as int64)
  {
    var y := Rshift(v, num);
    assert y == v / Pow2(num);
    Pow2Width();
    BitwiseAndOne(Unsigned(y), 64);
    assert And(y, 1) == Unsigned(y) % 2;
    ShiftedParity(y, 0);
    ShiftedParity(v, num as nat);
    BitIsQuotientParity(Unsigned(v), num as nat);
  }

  /** The mask for bit `num`: `int64(math.Pow(2, num))`, where 2^63 converts to the most negative int64. */
  function BitMask(num: nat): int64
    requires num < 64
  {
    Pow2Below(num);
    Wrap64(Pow2(num))
  }

  lemma Pow2Below(n: nat)
    requires n < 64
    ensures Pow2(n) < TWO_64
  {
    Pow2Width();
    Pow2Monotone(n, 64);
  }

  lemma {:induction false} Pow2Monotone(m: nat, n: nat)
    requires m < n
    ensures Pow2(m) < Pow2(n)
  {
    if m + 1 < n {
      Pow2Monotone(m, n - 1);
    }
  }

  /** The mask has exactly one bit set, bit `num`. */
  lemma BitMaskBits(num: nat, k: nat)
    requires num < 64 && k < 64
    ensures BitOf(BitMask(num), k) == if k == num then 1 else 0
  {
    Pow2Below(num);
    UnsignedOfWrap(Pow2(num));
    PowerBit(num, k);
  }

  /**
   * `blIntAssItem`: checks the index, that the value is an Int (`value` is
   * its payload when it is) and that it is 0 or 1, then sets bit `num`
   * with `|` or clears it with `&^`.
   */
  function AssItem(v: int64, value: Option<int64>, num: int64): (r: Outcome<int64>)
    ensures r.Done? <==> 0 <= num <= 63 && value.Some? && (value.value == 0 || value.value == 1)
    ensures r.Done? || r.Error?
  {
    if num > 63 || num < 0 then Error(BIT_RANGE)
    else if value.None? then Error(NOT_INT)
    else if value.value != 1 && value.value != 0 then Error(NOT_BIT)
    else if value.value == 1 then Done(Or(v, BitMask(num)))
    else Done(And(v, Compl(BitMask(num))))
  }

  /** The error checks of a bit assignment, in the order the source makes them. */
  lemma AssItemErrors(v: int64, value: Option<int64>, num: int64)
    ensures (num < 0 || num > 63) ==> AssItem(v, value, num) == Error(BIT_RANGE)
    ensures 0 <= num <= 63 && value.None? ==> AssItem(v, value, num) == Error(NOT_INT)
    ensures 0 <= num <= 63 && value.Some? && value.value != 0 && value.value != 1
      ==> AssItem(v, value, num) == Error(NOT_BIT)
  {
  }

  /** After a successful bit assignment bit `num` holds the value given and every other bit is unchanged. */
  lemma AssItemBits(v: int64, value: int64, num: int64, k: nat)
    requires 0 <= num <= 63 && (value == 0 || value == 1) && k < 64
    ensures AssItem(v, Some(value), num).Done?
    ensures BitOf(AssItem(v, Some(value), num).value, k) == if k == num as nat then value as nat else BitOf(v, k)
  {
    var m := BitMask(num as nat);
    BitMaskBits(num as nat, k);
    if value == 1 {
      Bitwise64Bit(BitOr, v, m, k);
    } else {
      ComplInvertsBits(m, k);
      Bitwise64Bit(BitAnd, v, Compl(m), k);
    }
  }

  /** Reading back a bit just assigned gives the value assigned. */
  lemma ItemAfterAssItem(v: int64, value: int64, num: int64)
    requires 0 <= num <= 63 && (value == 0 || value == 1)
    ensures Item(AssItem(v, Some(value), num).value, num) == Done(value)
  {
    AssItemBits(v, value, num, num as nat);
    ItemIsBit(AssItem(v, Some(value), num).value, num);
  }

  // ----- truthiness and ordering -----

  /** `blIntEvalCond`: only positive values are true. */
  predicate EvalCond(v: int64)
  {
    v > 0
  }

  /** `blIntCompare`: -1, 0 or 1 by numeric order. */
  function Compare(a: int64, b: int64): int
  {
    if a < b then -1 else if a > b then 1 else 0
  }

  /** The comparison is a total order: antisymmetric, zero exactly on equal values, never -2. */
  lemma CompareOrder(a: int64, b: int64)
    ensures Compare(a, b) == -Compare(b, a)
    ensures Compare(a, b) == 0 <==> a == b
    ensures Compare(a, b) < 0 <==> a < b
    ensures -1 <= Compare(a, b) <= 1
  {
  }

  // ----- construction -----

  /**
   * `blIntInit`: the format `"o"` asks for one argument but stores nothing,
   * so `arg` stays nil, neither the Int nor the Float case matches, and a
   * well-formed call ends with "expected number".
   */
  function Init(args: seq<Ref>, objs: seq<Obj>): (r: Outcome<int64>)
    ensures r.Error?
  {
    match ParseArgumentsSpec("o", args, objs)
    case Failure(m) => Error(m)
    case Ok(_) => Error(NOT_NUMBER)
  }

  lemma InitMeaning(args: seq<Ref>, objs: seq<Obj>)
    ensures |args| == 1 ==> Init(args, objs) == Error(NOT_NUMBER)
    ensures |args| != 1 ==> Init(args, objs) == Error(MismatchMessage(1, |args|))
  {
    ParseArgumentsMeaning("o", args, objs);
  }
}
