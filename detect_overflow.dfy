/**
 * `cxx::detect_{add,sub}_{positive,negative}_overflow`
 * (data-structures/include/cxx/detect_overflow.hxx): tests on two values of a
 * signed integral type telling, without overflowing, whether their sum or
 * difference would leave the type's range.
 */
module DetectOverflow {
  import opened IntTypes

  /** Addition in type t: defined only when the result is representable (signed overflow is undefined). */
  function Add(t: IntType, a: int, b: int): int
    requires t.Contains(a + b)
  {
    a + b
  }

  /** Subtraction in type t: defined only when the result is representable. */
  function Sub(t: IntType, a: int, b: int): int
    requires t.Contains(a - b)
  {
    a - b
  }

  /** `l + r` exceeds the maximum; `max - r` is only evaluated for positive r, where it cannot overflow. */
  function DetectAddPositiveOverflow(t: IntType, l: int, r: int): (overflow: bool)
    requires t.signed && t.Contains(l) && t.Contains(r)
    ensures overflow <==> l + r > t.Max()
  {
    r > 0 && l > Sub(t, t.Max(), r)
  }

  /** `l + r` falls below the minimum; `min - r` is only evaluated for negative r. */
  function DetectAddNegativeOverflow(t: IntType, l: int, r: int): (overflow: bool)
    requires t.signed && t.Contains(l) && t.Contains(r)
    ensures overflow <==> l + r < t.Min()
  {
    r < 0 && l < Sub(t, t.Min(), r)
  }

  /** `l - r` exceeds the maximum; `max + r` is only evaluated for negative r. */
  function DetectSubPositiveOverflow(t: IntType, l: int, r: int): (overflow: bool)
    requires t.signed && t.Contains(l) && t.Contains(r)
    ensures overflow <==> l - r > t.Max()
  {
    r < 0 && l > Add(t, t.Max(), r)
  }

  /** `l - r` falls below the minimum; `min + r` is only evaluated for positive r. */
  function DetectSubNegativeOverflow(t: IntType, l: int, r: int): (overflow: bool)
    requires t.signed && t.Contains(l) && t.Contains(r)
    ensures overflow <==> l - r < t.Min()
  {
    r > 0 && l < Add(t, t.Min(), r)
  }

  /**
   * The two addition tests never both hold, and together they detect exactly
   * the sums the type cannot represent; likewise for subtraction.
   */
  lemma OverflowDetectorsPartition(t: IntType, l: int, r: int)
    requires t.signed && t.Contains(l) && t.Contains(r)
    ensures !(DetectAddPositiveOverflow(t, l, r) && DetectAddNegativeOverflow(t, l, r))
    ensures DetectAddPositiveOverflow(t, l, r) || DetectAddNegativeOverflow(t, l, r) <==> !t.Contains(l + r)
    ensures !(DetectSubPositiveOverflow(t, l, r) && DetectSubNegativeOverflow(t, l, r))
    ensures DetectSubPositiveOverflow(t, l, r) || DetectSubNegativeOverflow(t, l, r) <==> !t.Contains(l - r)
  {
  }
}
