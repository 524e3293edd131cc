/**
 * Fixed-width C++ integral types over mathematical integers: the range of
 * an n-bit signed (two's complement) or unsigned type, and the modular
 * conversion `static_cast` performs into it.
 */
module IntTypes {

  function Pow2(n: nat): (r: nat)
    ensures r >= 1
  {
    if n == 0 then 1 else 2 * Pow2(n - 1)
  }

  lemma {:induction false} Pow2Add(a: nat, b: nat)
    ensures Pow2(a + b) == Pow2(a) * Pow2(b)
  {
    if b > 0 {
      Pow2Add(a, b - 1);
      assert Pow2(a + b) == 2 * Pow2(a + b - 1);
    }
  }

  lemma {:induction false} Pow2Monotonic(a: nat, b: nat)
    requires a <= b
    ensures Pow2(a) <= Pow2(b)
  {
    if a < b {
      Pow2Monotonic(a, b - 1);
    }
  }

  /** An integral type of `bits` bits, signed (two's complement) or unsigned. */
  datatype IntType = IntType(bits: nat, signed: bool)
  {
    function Modulus(): nat
    {
      Pow2(bits)
    }

    /** `std::numeric_limits<T>::min()` */
    function Min(): int
    {
      if signed && bits > 0 then -(Pow2(bits - 1) as int) else 0
    }

    /** `std::numeric_limits<T>::max()` */
    function Max(): int
    {
      Min() + Modulus() - 1
    }

    predicate Contains(x: int)
    {
      Min() <= x <= Max()
    }

    /** The value of type T congruent to x modulo 2^bits: the conversion `static_cast<T>(x)`. */
    function Wrap(x: int): (r: int)
      ensures Contains(r)
    {
      Min() + (x - Min()) % Modulus()
    }
  }

  lemma MulAtLeast(d: int, m: int)
    requires d >= 1 && m > 0
    ensures d * m >= m
  {
    assert d * m == (d - 1) * m + m;
  }

  /** Euclidean remainder is determined by any quotient-remainder decomposition. */
  lemma ModUnique(a: int, m: int, q: int, r: int)
    requires m > 0 && 0 <= r < m && a == q * m + r
    ensures a % m == r
  {
    var q', r' := a / m, a % m;
    assert a == q' * m + r';
    var d := q - q';
    assert d * m == q * m - q' * m;
    assert d * m == r' - r;
    if d >= 1 {
      MulAtLeast(d, m);
    } else if d <= -1 {
      MulAtLeast(-d, m);
    }
  }

  /** Converting a value the type can represent leaves it unchanged. */
  lemma WrapIdentity(t: IntType, x: int)
    requires t.Contains(x)
    ensures t.Wrap(x) == x
  {
    ModUnique(x - t.Min(), t.Modulus(), 0, x - t.Min());
  }

  /** Conversion leaves exactly the representable values unchanged. */
  lemma WrapFixedPoints(t: IntType, x: int)
    ensures t.Wrap(x) == x <==> t.Contains(x)
  {
    if t.Contains(x) {
      WrapIdentity(t, x);
    }
  }

  /** Conversion only depends on the value modulo 2^bits. */
  lemma WrapShift(t: IntType, x: int, j: int)
    ensures t.Wrap(x + j * t.Modulus()) == t.Wrap(x)
  {
    var m := t.Modulus();
    var a := x - t.Min();
    assert a == (a / m) * m + a % m;
    ModUnique(a + j * m, m, a / m + j, a % m);
  }

  /** Converting a wrapped value differs from the value by a multiple of 2^bits. */
  lemma WrapDifference(t: IntType, x: int) returns (j: int)
    ensures x == t.Wrap(x) + j * t.Modulus()
  {
    var m := t.Modulus();
    var a := x - t.Min();
    assert a == (a / m) * m + a % m;
    j := a / m;
  }

  /** Adding a converted operand and converting again is modular addition. */
  lemma WrapAddWrapped(t: IntType, x: int, y: int)
    ensures t.Wrap(x + t.Wrap(y)) == t.Wrap(x + y)
  {
    var j := WrapDifference(t, y);
    WrapShift(t, x + t.Wrap(y), j);
    assert x + t.Wrap(y) + j * t.Modulus() == x + y;
  }

  /** Converting to a wide type and then to a narrower one is converting to the narrower one. */
  lemma WrapNarrowing(wide: IntType, narrow: IntType, x: int)
    requires narrow.bits <= wide.bits
    ensures narrow.Wrap(wide.Wrap(x)) == narrow.Wrap(x)
  {
    var j := WrapDifference(wide, x);
    Pow2Add(wide.bits - narrow.bits, narrow.bits);
    assert wide.Modulus() == Pow2(wide.bits - narrow.bits) * narrow.Modulus();
    assert j * wide.Modulus() == (j * Pow2(wide.bits - narrow.bits)) * narrow.Modulus();
    WrapShift(narrow, wide.Wrap(x), j * Pow2(wide.bits - narrow.bits));
  }

  /** A type at least as wide as another, and signed if the other is, can represent all its values. */
  lemma WiderContains(narrow: IntType, wide: IntType, x: int)
    requires narrow.bits <= wide.bits && (narrow.signed ==> wide.signed)
    requires !narrow.signed && wide.signed ==> narrow.bits < wide.bits
    requires narrow.Contains(x)
    ensures wide.Contains(x)
  {
    if wide.bits > 0 {
      if narrow.signed && narrow.bits > 0 {
        Pow2Monotonic(narrow.bits - 1, wide.bits - 1);
      } else if !narrow.signed && wide.signed {
        Pow2Monotonic(narrow.bits, wide.bits - 1);
      } else {
        Pow2Monotonic(narrow.bits, wide.bits);
      }
    }
  }
}
