/** IEEE-754 binary64 values seen as 64-bit patterns, and the two conversions the source
    performs on them: `Double(n)` for an integer n (Swift rounds to nearest, ties to
    even) and `Int(d)` / `UInt32(d)` (Swift truncates toward zero and traps when the
    result does not fit, or when d is infinite or NaN). Nothing else about floating point
    is modelled. */
module Ieee754 {
  import opened Bytes
  import opened Wrappers

  const Two52: nat := 0x10_0000_0000_0000
  const Two53: int := 0x20_0000_0000_0000
  const Two63: int := 0x8000_0000_0000_0000

  lemma {:induction false} Pow2Add(a: nat, b: nat)
    ensures Pow2(a + b) == Pow2(a) * Pow2(b)
  {
    if a > 0 {
      Pow2Add(a - 1, b);
    }
  }

  lemma {:induction false} Pow2Monotone(a: nat, b: nat)
    requires a <= b
    ensures Pow2(a) <= Pow2(b)
  {
    if a < b {
      Pow2Monotone(a, b - 1);
    }
  }

  lemma {:induction false} Pow2Of52()
    ensures Pow2(52) == Two52
  {
    assert Pow2(4) == 16;
    Pow2Add(4, 4);
    assert Pow2(8) == 0x100;
    Pow2Add(8, 8);
    assert Pow2(16) == 0x1_0000;
    Pow2Add(16, 16);
    assert Pow2(32) == 0x1_0000_0000;
    Pow2Add(32, 16);
    assert Pow2(48) == 0x1_0000_0000_0000;
    Pow2Add(48, 4);
  }

  /** The position of the highest set bit of a positive number. */
  function Log2(a: nat): (e: nat)
    requires a >= 1
  {
    if a == 1 then 0 else 1 + Log2(a / 2)
  }

  lemma {:induction false} Log2Bounds(a: nat)
    requires a >= 1
    ensures Pow2(Log2(a)) <= a < Pow2(Log2(a) + 1)
  {
    if a > 1 {
      Log2Bounds(a / 2);
    }
  }

  lemma {:induction false} Log2Below(a: nat, k: nat)
    requires 1 <= a < Pow2(k)
    ensures Log2(a) < k
  {
    Log2Bounds(a);
    if Log2(a) >= k {
      Pow2Monotone(k, Log2(a));
    }
  }

  /** A pattern from its sign, biased exponent and mantissa fields. */
  function Pack(negative: bool, exponent: nat, mantissa: nat): (b: uint64)
    requires exponent < 2048 && mantissa < Two52
  {
    (if negative then Two63 else 0) + exponent * Two52 + mantissa
  }

  function ExponentField(b: uint64): nat { (b / Two52) % 2048 }
  function MantissaField(b: uint64): nat { b % Two52 }
  predicate IsNegative(b: uint64) { b >= Two63 }

  lemma {:induction false} Unpack(negative: bool, exponent: nat, mantissa: nat)
    requires exponent < 2048 && mantissa < Two52
    ensures ExponentField(Pack(negative, exponent, mantissa)) == exponent
    ensures MantissaField(Pack(negative, exponent, mantissa)) == mantissa
    ensures IsNegative(Pack(negative, exponent, mantissa)) == negative
  {
    var b := Pack(negative, exponent, mantissa);
    var hi := (if negative then 2048 else 0) + exponent;
    assert b == hi * Two52 + mantissa;
    assert b / Two52 == hi;
    assert b % Two52 == mantissa;
  }

  lemma {:induction false} MulCancel(x: nat, y: nat, d: nat)
    requires d >= 1 && x * d < y * d
    ensures x < y
  {
    if x > 0 && y > 0 {
      MulCancel(x - 1, y - 1, d);
    }
  }

  lemma {:induction false} DivBetween(a: nat, d: nat, lo: nat, hi: nat)
    requires d >= 1 && lo * d <= a < hi * d
    ensures lo <= a / d < hi
  {
    var q := a / d;
    assert a == q * d + a % d;
    MulCancel(lo, q + 1, d);
    MulCancel(q, hi, d);
  }

  /** Rounding of a magnitude with more than 53 significant bits to the nearest
      53-bit significand, ties to even; gives the biased exponent and the mantissa. */
  function Rounded(a: nat, e: nat): (r: (nat, nat))
    requires 52 < e <= 63 && Pow2(e) <= a < Pow2(e + 1)
    ensures r.0 < 2048 && r.1 < Two52
  {
    var d := Pow2(e - 52);
    RoundedQuotient(a, e);
    var q := a / d;
    var q' := HalfEven(q, a % d, d);
    if q' == 2 * Two52 then (e + 1024, 0) else (e + 1023, q' - Two52)
  }

  /** Dividing a magnitude of `e + 1` bits by `2^(e - 52)` leaves 53 bits. */
  lemma RoundedQuotient(a: nat, e: nat)
    requires 52 < e <= 63 && Pow2(e) <= a < Pow2(e + 1)
    ensures Two52 <= a / Pow2(e - 52) < 2 * Two52
  {
    var d := Pow2(e - 52);
    Pow2Of52();
    assert Pow2(e) == Two52 * d by { Pow2Add(e - 52, 52); }
    assert Pow2(e + 1) == 2 * Two52 * d by { Pow2Add(e - 52, 53); }
    DivBetween(a, d, Two52, 2 * Two52);
  }

  /** The quotient `q` with remainder `r` of a division by `d`, rounded to the
      nearest integer, ties to even. */
  function HalfEven(q: nat, r: nat, d: nat): (q': nat)
    ensures q' == q || q' == q + 1
  {
    if r > d / 2 || (r == d / 2 && q % 2 == 1) then q + 1 else q
  }

  lemma {:induction false} MulLe(x: nat, y: nat, k: nat)
    requires x <= y
    ensures x * k <= y * k
  {
  }

  lemma {:induction false} MulLt(x: nat, y: nat, k: nat)
    requires x < y && k >= 1
    ensures x * k < y * k
  {
  }

  lemma {:induction false} MulDiv(a: nat, p: nat)
    requires p >= 1
    ensures (a * p) / p == a
  {
    assert (a + 1) * p == a * p + p;
    DivBetween(a * p, p, a, a + 1);
  }

  /** A magnitude with at most 53 significant bits, shifted so that its highest bit is
      bit 52, is an exact 53-bit significand. */
  lemma {:induction false} ExactSignificand(a: nat)
    requires a >= 1 && Log2(a) <= 52
    ensures Two52 <= a * Pow2(52 - Log2(a)) < 2 * Two52
  {
    var e := Log2(a);
    var p := Pow2(52 - e);
    var lo := Pow2(e);
    Log2Bounds(a);
    assert Pow2(e + 1) == 2 * lo;
    Pow2Add(e, 52 - e);
    assert e + (52 - e) == 52;
    Pow2Of52();
    assert lo * p == Two52;
    ScaledRange(lo, a, p);
  }

  lemma {:induction false} ScaledRange(lo: nat, a: nat, p: nat)
    requires lo <= a < 2 * lo && lo * p == Two52
    ensures Two52 <= a * p < 2 * Two52
  {
    MulLe(lo, a, p);
    MulLt(a, lo + lo, p);
    assert (lo + lo) * p == lo * p + lo * p;
  }

  /** The biased exponent and mantissa fields of a positive magnitude below 2^64. */
  function Normalize(a: nat): (r: (nat, nat))
    requires 1 <= a < 2 * Two63
    ensures r.0 < 2048 && r.1 < Two52
  {
    Pow2Of52();
    Pow2Add(52, 12);
    assert Pow2(12) == 4096;
    Log2Below(a, 64);
    var e := Log2(a);
    if e <= 52 then
      ExactSignificand(a);
      (e + 1023, a * Pow2(52 - e) - Two52)
    else
      Log2Bounds(a);
      Rounded(a, e)
  }

  /** `Double(n)` for a 64-bit integer n, as a bit pattern. */
  function FromInt(n: int64): (b: uint64)
  {
    if n == 0 then 0
    else
      var r := Normalize(if n < 0 then -(n as int) else n);
      Pack(n < 0, r.0, r.1)
  }

  /** The value of the pattern truncated toward zero; `None` for infinities and NaN. */
  function Truncate(b: uint64): Option<int>
  {
    var exponent := ExponentField(b);
    if exponent == 2047 then None
    else if exponent == 0 then Some(0)
    else
      Some(WithSign(IsNegative(b), Magnitude(exponent, MantissaField(b))))
  }

  function WithSign(negative: bool, magnitude: nat): int
  {
    if negative then -(magnitude as int) else magnitude
  }

  /** The magnitude, truncated toward zero, of a normal value with these fields: the
      53-bit significand scaled by 2^(exponent - 1075). */
  function Magnitude(exponent: nat, mantissa: nat): nat
  {
    var significand: nat := Two52 + mantissa;
    if exponent >= 1075 then Product(significand, Pow2(exponent - 1075))
    else Quotient(significand, Pow2(1075 - exponent))
  }

  function Product(a: nat, b: nat): nat
  {
    MulLe(0, a, b);
    a * b
  }

  function Quotient(a: nat, d: nat): nat
    requires d >= 1
  {
    a / d
  }

  /** `Int(d)`: `None` where Swift traps. */
  function ToInt(b: uint64): (r: Option<int64>)
    ensures r.Some? <==> Truncate(b).Some? && -Two63 <= Truncate(b).value < Two63
    ensures r.Some? ==> r.value == Truncate(b).value
  {
    var t := Truncate(b);
    if t.Some? && -Two63 <= t.value < Two63 then Some(t.value) else None
  }

  /** `Int32(d)`: `None` where Swift traps. */
  function ToInt32(b: uint64): (r: Option<int32>)
    ensures r.Some? <==> Truncate(b).Some? && -0x8000_0000 <= Truncate(b).value < 0x8000_0000
    ensures r.Some? ==> r.value == Truncate(b).value
  {
    var t := Truncate(b);
    if t.Some? && -0x8000_0000 <= t.value < 0x8000_0000 then Some(t.value) else None
  }

  /** `UInt32(d)`: `None` where Swift traps. */
  function ToUInt32(b: uint64): (r: Option<uint32>)
    ensures r.Some? <==> Truncate(b).Some? && 0 <= Truncate(b).value < 0x1_0000_0000
    ensures r.Some? ==> r.value == Truncate(b).value
  {
    var t := Truncate(b);
    if t.Some? && 0 <= t.value < 0x1_0000_0000 then Some(t.value) else None
  }

  /** Truncation of a finite, normal pattern given by its fields. */
  lemma {:induction false} TruncatePack(negative: bool, exponent: nat, mantissa: nat)
    requires 0 < exponent < 2047 && mantissa < Two52
    ensures Truncate(Pack(negative, exponent, mantissa)) ==
      Some(WithSign(negative, Magnitude(exponent, mantissa)))
  {
    Unpack(negative, exponent, mantissa);
  }

  /** A magnitude below 2^53 is normalized without rounding. */
  lemma {:induction false} NormalizeExact(a: nat)
    requires 1 <= a < Two53
    ensures Log2(a) <= 52
    ensures Normalize(a) == (Log2(a) + 1023, a * Pow2(52 - Log2(a)) - Two52)
  {
    Pow2Of52();
    assert Pow2(53) == Two53;
    Log2Below(a, 53);
  }

  /** Shifting the significand back down gives the magnitude. */
  lemma {:induction false} UnshiftSignificand(a: nat, e: nat)
    requires a >= 1 && e <= 52
    requires Two52 <= a * Pow2(52 - e)
    ensures Magnitude(e + 1023, a * Pow2(52 - e) - Two52) == a
  {
    var p := Pow2(52 - e);
    assert Two52 + (a * p - Two52) == a * p;
    if e == 52 {
      assert p == 1;
    } else {
      assert 1075 - (e + 1023) == 52 - e;
      MulDiv(a, p);
    }
  }

  /** The fields `Double(n)` has for a nonzero integer of magnitude below 2^53. */
  lemma {:induction false} FromIntExact(n: int64, a: nat)
    requires n != 0 && a == (if n < 0 then -(n as int) else n) && a < Two53
    ensures Log2(a) <= 52 && Two52 <= a * Pow2(52 - Log2(a)) < 2 * Two52
    ensures FromInt(n) == Pack(n < 0, Log2(a) + 1023, a * Pow2(52 - Log2(a)) - Two52)
  {
    NormalizeExact(a);
    ExactSignificand(a);
  }

  /** Every integer of magnitude below 2^53 survives `Int(Double(n))` exactly. */
  lemma {:induction false} TruncateFromInt(n: int64)
    requires -Two53 < n < Two53
    ensures Truncate(FromInt(n)) == Some(n)
  {
    if n != 0 {
      var a: nat := if n < 0 then -(n as int) else n;
      FromIntExact(n, a);
      var e := Log2(a);
      var mantissa := a * Pow2(52 - e) - Two52;
      UnshiftSignificand(a, e);
      assert WithSign(n < 0, a) == n;
      TruncateOf(FromInt(n), n < 0, e + 1023, mantissa, n);
    }
  }

  lemma {:induction false} TruncateOf(b: uint64, negative: bool, exponent: nat, mantissa: nat, n: int)
    requires 0 < exponent < 2047 && mantissa < Two52 && b == Pack(negative, exponent, mantissa)
    requires WithSign(negative, Magnitude(exponent, mantissa)) == n
    ensures Truncate(b) == Some(n)
  {
    TruncatePack(negative, exponent, mantissa);
  }

  lemma {:induction false} ToIntFromInt(n: int64)
    requires -Two53 < n < Two53
    ensures ToInt(FromInt(n)) == Some(n)
  {
    TruncateFromInt(n);
  }

  lemma {:induction false} ToUInt32FromInt(u: uint32)
    ensures ToUInt32(FromInt(u)) == Some(u)
  {
    TruncateFromInt(u);
  }
}
