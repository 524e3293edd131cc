/**
 * `ieee754::floatType` (ieee754-float.cpp): the class of a single-precision
 * IEEE 754 number, read off its 32-bit pattern. The reinterpretation of a
 * `float` as `uint32_t` is not modelled: the pattern is the input.
 */
module Ieee754 {

  datatype Float =
    | PositiveZero
    | NegativeZero
    | DenormalizedNumber
    | PositiveInfinity
    | NegativeInfinity
    | NotANumber
    | NormalizedNumber

  /** Bit 31. */
  function Sign(bits: bv32): (s: bv32)
    ensures s <= 1
  {
    (bits & 0x8000_0000) >> 31
  }

  /** Bits 30..23, the biased exponent. */
  function ExponentBias(bits: bv32): (e: bv32)
    ensures e <= 0xFF
  {
    (bits & 0x7F80_0000) >> 23
  }

  /** Bits 22..0. */
  function Fraction(bits: bv32): (f: bv32)
    ensures f <= 0x7F_FFFF
  {
    (bits & 0x007F_FFFF) >> 0
  }

  /** The pattern with the given fields. */
  function Compose(sign: bv32, exponent: bv32, fraction: bv32): bv32
  {
    (sign << 31) | (exponent << 23) | fraction
  }

  /** The three fields are the whole pattern: splitting and recomposing is the identity, both ways. */
  lemma FieldsRoundTrip(bits: bv32, sign: bv32, exponent: bv32, fraction: bv32)
    ensures Compose(Sign(bits), ExponentBias(bits), Fraction(bits)) == bits
    ensures sign <= 1 && exponent <= 0xFF && fraction <= 0x7F_FFFF ==>
      var p := Compose(sign, exponent, fraction);
      Sign(p) == sign && ExponentBias(p) == exponent && Fraction(p) == fraction
  {
  }

  /**
   * `floatType(number)` on the pattern of `number`. Each class holds
   * exactly for its field values: zeros and infinities by sign,
   * subnormals, NaNs and normal numbers regardless of it.
   */
  function FloatType(bits: bv32): (f: Float)
    ensures f == PositiveZero <==> ExponentBias(bits) == 0 && Fraction(bits) == 0 && Sign(bits) == 0
    ensures f == NegativeZero <==> ExponentBias(bits) == 0 && Fraction(bits) == 0 && Sign(bits) == 1
    ensures f == DenormalizedNumber <==> ExponentBias(bits) == 0 && Fraction(bits) != 0
    ensures f == PositiveInfinity <==> ExponentBias(bits) == 0xFF && Fraction(bits) == 0 && Sign(bits) == 0
    ensures f == NegativeInfinity <==> ExponentBias(bits) == 0xFF && Fraction(bits) == 0 && Sign(bits) == 1
    ensures f == NotANumber <==> ExponentBias(bits) == 0xFF && Fraction(bits) != 0
    ensures f == NormalizedNumber <==> 1 <= ExponentBias(bits) <= 0xFE
  {
    var sign := Sign(bits);
    var exponentBias := ExponentBias(bits);
    var fraction := Fraction(bits);
    if exponentBias == 0x0 then
      if fraction == 0x0 then
        (if sign == 0x1 then NegativeZero else PositiveZero)
      else DenormalizedNumber
    else if exponentBias == 0xFF then
      if fraction == 0x0 then
        (if sign == 0x1 then NegativeInfinity else PositiveInfinity)
      else NotANumber
    else NormalizedNumber
  }

  /** Flipping the sign bit swaps the signed zeros and infinities and keeps every other class. */
  lemma Negation(bits: bv32)
    ensures var n := bits ^ 0x8000_0000;
      match FloatType(bits)
      case PositiveZero => FloatType(n) == NegativeZero
      case NegativeZero => FloatType(n) == PositiveZero
      case PositiveInfinity => FloatType(n) == NegativeInfinity
      case NegativeInfinity => FloatType(n) == PositiveInfinity
      case other => FloatType(n) == other
  {
  }

  /** The patterns of the values the program's `main` checks, with the class it expects. */
  lemma KnownValues()
    ensures FloatType(0x0000_0000) == PositiveZero      // +0.0f
    ensures FloatType(0x8000_0000) == NegativeZero      // -0.0f
    ensures FloatType(0x0080_0000) == NormalizedNumber  // min()
    ensures FloatType(0x7F7F_FFFF) == NormalizedNumber  // max()
    ensures FloatType(0xFF7F_FFFF) == NormalizedNumber  // lowest()
    ensures FloatType(0x7FC0_0000) == NotANumber        // quiet_NaN()
    ensures FloatType(0x7FA0_0000) == NotANumber        // signaling_NaN()
    ensures FloatType(0x7F80_0000) == PositiveInfinity  // +infinity()
    ensures FloatType(0xFF80_0000) == NegativeInfinity  // -infinity()
    ensures FloatType(0x0000_0001) == DenormalizedNumber // denorm_min()
  {
  }
}
