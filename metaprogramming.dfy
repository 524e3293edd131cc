/**
 * The compile-time arithmetic of metaprogramming/metaprogramming.cpp:
 * `Abs<N>` / `abs(n)` on `int`, and `Power<Base, Exponent>`. A
 * `static_assert` or `assert` becomes a precondition.
 */
module Metaprogramming {

  const INT_MIN: int := -0x8000_0000
  const INT_MAX: int := 0x7FFF_FFFF

  predicate IsInt(n: int)
  {
    INT_MIN <= n <= INT_MAX
  }

  /**
   * `Abs<N>::value` and `abs(n)` as written: the guard rejects INT_MAX and
   * the result is `n` or `-n`, computed here without the 32-bit limit.
   */
  function AbsAsWritten(n: int): (r: int)
    requires IsInt(n) && n != INT_MAX
    ensures r >= 0 && (r == n || r == -n)
  {
    if n > 0 then n else -n
  }

  /**
   * The guard lets through the one input whose negation does not fit in
   * `int`, INT_MIN, and rejects INT_MAX, whose absolute value does.
   */
  lemma AbsGuardAdmitsOverflow()
    ensures IsInt(INT_MIN) && INT_MIN != INT_MAX && !IsInt(AbsAsWritten(INT_MIN))
    ensures IsInt(INT_MAX) && IsInt(if INT_MAX > 0 then INT_MAX else -INT_MAX)
  {
  }

  /** `abs` with the guard on the input that overflows: the result is an `int` again. */
  function Abs(n: int): (r: int)
    requires IsInt(n) && n != INT_MIN
    ensures IsInt(r) && r >= 0 && (r == n || r == -n)
  {
    if n > 0 then n else -n
  }

  /** The absolute value is the larger of `n` and `-n`, and `abs(-n) == abs(n)`. */
  lemma AbsProperties(n: int)
    requires IsInt(n) && n != INT_MIN
    ensures Abs(n) >= n && Abs(n) >= -n
    ensures Abs(-n) == Abs(n)
    ensures Abs(n) == 0 <==> n == 0
  {
  }

  /** The checks `main` makes: `Abs<-9>` and `abs(-9)` are 9, `Abs<+7>` and `abs(+7)` are 7. */
  lemma AbsExamples()
    ensures Abs(-9) == 9 && Abs(7) == 7
    ensures AbsAsWritten(-9) == 9 && AbsAsWritten(7) == 7
  {
  }

  /**
   * `Power<Base, Exponent>::value`: the exponent must not be negative, and
   * `Power<Base, 0>` rejects a zero base. Exponent 1 is its own
   * specialisation, so a zero base only fails when the exponent is 0.
   * A zero base gives 0 and a positive base a positive value.
   */
  function Power(base: int, exponent: int): (p: int)
    requires exponent >= 0
    requires exponent == 0 ==> base != 0
    ensures base == 0 ==> p == 0
    ensures base > 0 ==> p > 0
    decreases exponent
  {
    if exponent == 0 then 1
    else if exponent == 1 then base
    else
      var q := Power(base, exponent - 1);
      assert base > 0 ==> q * base > 0;
      q * base
  }

  /** Exponents add: `base^(m+n) == base^m * base^n` for positive exponents. */
  lemma {:induction false} PowerAdd(base: int, m: int, n: int)
    requires m >= 1 && n >= 1
    ensures Power(base, m + n) == Power(base, m) * Power(base, n)
    decreases n
  {
    if n > 1 {
      PowerAdd(base, m, n - 1);
      var a, b := Power(base, m), Power(base, n - 1);
      assert Power(base, m + n) == Power(base, m + n - 1) * base;
      assert Power(base, n) == b * base;
      assert (a * b) * base == a * (b * base);
    }
  }

  /**
   * The sign of a power of a negative base follows the parity of the
   * exponent, and its magnitude is that of the power of the positive base.
   */
  lemma {:induction false} PowerSign(base: int, exponent: int)
    requires exponent >= 1
    ensures Power(-base, exponent) == (if exponent % 2 == 0 then Power(base, exponent) else -Power(base, exponent))
    decreases exponent
  {
    if exponent > 1 {
      PowerSign(base, exponent - 1);
      var q, r := Power(base, exponent - 1), Power(-base, exponent - 1);
      assert Power(-base, exponent) == r * -base && Power(base, exponent) == q * base;
      if exponent % 2 == 0 {
        assert r == -q;
        assert r * -base == q * base;
      } else {
        assert r == q;
        assert q * -base == -(q * base);
      }
    }
  }

  /** The checks `main` makes on `Power`. */
  lemma PowerExamples()
    ensures Power(2, 8) == 256
    ensures Power(-5, 3) == -125
    ensures Power(0, 3) == 0
    ensures Power(3, 0) == 1
    ensures Power(11, 1) == 11
  {
  }
}
