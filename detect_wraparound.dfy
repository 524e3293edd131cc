/**
 * `cxx::detect_add_positive_wraparound` and `cxx::detect_sub_negative_wraparound`
 * (data-structures/include/cxx/detect_wraparound.hxx): tests on two values of
 * an unsigned integral type telling whether the modular sum or difference wraps.
 */
module DetectWraparound {
  import opened IntTypes

  /** Subtraction in type t where the result is representable. */
  function Sub(t: IntType, a: int, b: int): int
    requires t.Contains(a - b)
  {
    a - b
  }

  /**
   * `l + r` exceeds the maximum, so the unsigned sum wraps around;
   * `max - r` is only evaluated for non-zero r, where it cannot wrap.
   */
  function DetectAddPositiveWraparound(t: IntType, l: int, r: int): (wraps: bool)
    requires !t.signed && t.Contains(l) && t.Contains(r)
    ensures wraps <==> l + r > t.Max()
    ensures wraps <==> t.Wrap(l + r) != l + r
    ensures r == 0 ==> !wraps
  {
    WrapFixedPoints(t, l + r);
    r != 0 && l > Sub(t, t.Max(), r)
  }

  /** `l - r` is negative, so the unsigned difference wraps around. */
  function DetectSubNegativeWraparound(t: IntType, l: int, r: int): (wraps: bool)
    requires !t.signed && t.Contains(l) && t.Contains(r)
    ensures wraps <==> l - r < 0
    ensures wraps <==> t.Wrap(l - r) != l - r
  {
    WrapFixedPoints(t, l - r);
    l < r
  }
}
