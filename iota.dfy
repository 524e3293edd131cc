/**
 * `cxx::iota_view` (data-structures/include/cxx/iota.hxx): the half-open
 * interval [init, bound) of an integral `element_type`, with a random-access
 * iterator whose offsets and differences have a signed `iterdiff_type`.
 *
 * Both types are modelled by their width and signedness; the arithmetic the
 * iterator performs in them is written out with the conversions it uses, so
 * that the result can be shown to be exact whenever it stays in [init, bound].
 */
module Iota {
  import opened IntTypes
  import DetectOverflow

  /**
   * `value += offset`. When the element type is at least as wide as the
   * difference type the offset is converted to the element type and added
   * modulo 2^bits; otherwise the sum is formed in the (wider) difference type
   * and converted back.
   */
  function Advanced(elem: IntType, diff: IntType, value: int, offset: int): (r: int)
    ensures elem.Contains(r)
    ensures elem.Contains(value + offset) ==> r == value + offset
  {
    if elem.bits >= diff.bits then
      WrapAddWrapped(elem, value, offset);
      WrapFixedPoints(elem, value + offset);
      elem.Wrap(value + elem.Wrap(offset))
    else
      WrapFixedPoints(elem, value + offset);
      elem.Wrap(value + offset)
  }

  /**
   * `left - right`. With a wide element type the difference is taken in the
   * element type and converted to the difference type; otherwise both values
   * are converted to the difference type first, which is exact.
   */
  function DifferenceOf(elem: IntType, diff: IntType, left: int, right: int): (d: int)
    ensures diff.Contains(left - right) ==> d == left - right
  {
    if elem.bits >= diff.bits then
      WrapNarrowing(elem, diff, left - right);
      WrapFixedPoints(diff, left - right);
      diff.Wrap(elem.Wrap(left - right))
    else
      left - right
  }

  /**
   * With a difference type wider than the element type, every range the
   * element type can express has a size the difference type can represent,
   * so the constructor needs no check in that case.
   */
  lemma {:induction false} NarrowRangeSizeFits(elem: IntType, diff: IntType, init: int, bound: int)
    requires elem.bits < diff.bits && diff.signed
    requires elem.Contains(init) && elem.Contains(bound) && init <= bound
    ensures bound - init <= diff.Max()
  {
    Pow2Monotonic(elem.bits, diff.bits - 1);
  }

  /** `iota_view`: the interval [init, bound) of the element type. */
  datatype IotaView = IotaView(elem: IntType, diff: IntType, init: int, bound: int)
  {
    /** The constructor's checks: an ordered interval whose size fits the difference type. */
    predicate Valid()
    {
      diff.signed && elem.Contains(init) && elem.Contains(bound)
      && init <= bound && bound - init <= diff.Max()
    }

    predicate InRange(x: int)
    {
      init <= x <= bound
    }

    /** `begin()`: an iterator at `init`. */
    method Begin() returns (it: Iterator)
      ensures fresh(it) && it.elem == elem && it.diff == diff && it.value == init
    {
      it := new Iterator(elem, diff, init);
    }

    /** `end()`: an iterator at `bound`. */
    method End() returns (it: Iterator)
      ensures fresh(it) && it.elem == elem && it.diff == diff && it.value == bound
    {
      it := new Iterator(elem, diff, bound);
    }
  }

  /**
   * The view constructor: it asserts `init <= bound` and, when the element
   * type is at least as wide as the difference type, that `bound - init`
   * neither overflows a signed element type nor exceeds `iterdiff_max`.
   */
  function MakeView(elem: IntType, diff: IntType, init: int, bound: int): (v: IotaView)
    requires diff.signed && elem.Contains(init) && elem.Contains(bound)
    requires init <= bound
    requires elem.bits >= diff.bits && elem.signed ==> !DetectOverflow.DetectSubPositiveOverflow(elem, bound, init)
    requires elem.bits >= diff.bits ==> bound - init <= diff.Max()
    ensures v.Valid() && v.elem == elem && v.diff == diff && v.init == init && v.bound == bound
  {
    if elem.bits < diff.bits then
      NarrowRangeSizeFits(elem, diff, init, bound);
      IotaView(elem, diff, init, bound)
    else
      IotaView(elem, diff, init, bound)
  }

  /**
   * Within a valid view, moving by an offset that stays in [init, bound] is
   * exact, the offset of the result from the start is the offset, and its
   * negation is representable, so `-=` can move back.
   */
  lemma AdvanceWithinView(v: IotaView, x: int, offset: int)
    requires v.Valid() && v.InRange(x) && v.InRange(x + offset)
    ensures v.diff.Contains(offset) && v.diff.Contains(-offset)
    ensures Advanced(v.elem, v.diff, x, offset) == x + offset
    ensures DifferenceOf(v.elem, v.diff, x + offset, x) == offset
    ensures Advanced(v.elem, v.diff, x + offset, -offset) == x
  {
  }

  /** `end() - begin()` is the size, `begin() + size` is `end()` and `end() - size` is `begin()`. */
  lemma BeginEndRoundTrip(v: IotaView)
    requires v.Valid()
    ensures DifferenceOf(v.elem, v.diff, v.bound, v.init) == v.bound - v.init
    ensures Advanced(v.elem, v.diff, v.init, v.bound - v.init) == v.bound
    ensures Advanced(v.elem, v.diff, v.bound, -(v.bound - v.init)) == v.init
  {
    AdvanceWithinView(v, v.init, v.bound - v.init);
  }

  /** `iota_view::iterator`: the current value of the element type. */
  class Iterator {
    const elem: IntType
    const diff: IntType
    var value: int

    /** The value-initialized iterator holds 0. */
    constructor Default(elem: IntType, diff: IntType)
      ensures this.elem == elem && this.diff == diff && value == 0
    {
      this.elem, this.diff := elem, diff;
      value := 0;
    }

    /** The private constructor used by `begin()` and `end()`. */
    constructor (elem: IntType, diff: IntType, value: int)
      ensures this.elem == elem && this.diff == diff && this.value == value
    {
      this.elem, this.diff := elem, diff;
      this.value := value;
    }

    /** `++it`: the element type's increment. */
    method Increment()
      modifies this
      ensures value == elem.Wrap(old(value) + 1)
      ensures elem.Contains(old(value) + 1) ==> value == old(value) + 1
    {
      WrapFixedPoints(elem, value + 1);
      value := elem.Wrap(value + 1);
    }

    /** `--it`: the element type's decrement. */
    method Decrement()
      modifies this
      ensures value == elem.Wrap(old(value) - 1)
      ensures elem.Contains(old(value) - 1) ==> value == old(value) - 1
    {
      WrapFixedPoints(elem, value - 1);
      value := elem.Wrap(value - 1);
    }

    /** `it++`: a copy of the iterator before the increment. */
    method PostIncrement() returns (previous: Iterator)
      modifies this
      ensures fresh(previous) && previous.elem == elem && previous.diff == diff
      ensures previous.value == old(value)
      ensures elem.Contains(old(value) + 1) ==> value == old(value) + 1
    {
      previous := new Iterator(elem, diff, value);
      Increment();
    }

    /** `it--`: a copy of the iterator before the decrement. */
    method PostDecrement() returns (previous: Iterator)
      modifies this
      ensures fresh(previous) && previous.elem == elem && previous.diff == diff
      ensures previous.value == old(value)
      ensures elem.Contains(old(value) - 1) ==> value == old(value) - 1
    {
      previous := new Iterator(elem, diff, value);
      Decrement();
    }

    /** `it += offset` */
    method AddAssign(offset: int)
      modifies this
      ensures value == Advanced(elem, diff, old(value), offset)
      ensures elem.Contains(old(value) + offset) ==> value == old(value) + offset
    {
      value := Advanced(elem, diff, value, offset);
    }

    /** `it -= offset` is `it += -offset`; negating the offset must not overflow the difference type. */
    method SubAssign(offset: int)
      requires diff.Contains(-offset)
      modifies this
      ensures value == Advanced(elem, diff, old(value), -offset)
      ensures elem.Contains(old(value) - offset) ==> value == old(value) - offset
    {
      AddAssign(-offset);
    }

    /** `it[offset]`: the value `offset` places further, leaving the iterator where it is. */
    function At(offset: int): (r: int)
      reads this
      ensures elem.Contains(value + offset) ==> r == value + offset
    {
      Advanced(elem, diff, value, offset)
    }

    /** `it + offset` and `offset + it`: an advanced copy. */
    method Plus(offset: int) returns (r: Iterator)
      ensures fresh(r) && r.elem == elem && r.diff == diff
      ensures r.value == At(offset)
    {
      r := new Iterator(elem, diff, value);
      r.AddAssign(offset);
    }

    /** `it - offset`: a copy moved back. */
    method Minus(offset: int) returns (r: Iterator)
      requires diff.Contains(-offset)
      ensures fresh(r) && r.elem == elem && r.diff == diff
      ensures r.value == Advanced(elem, diff, value, -offset)
      ensures elem.Contains(value - offset) ==> r.value == value - offset
    {
      r := new Iterator(elem, diff, value);
      r.SubAssign(offset);
    }

    /** `left - right`: the distance between two iterators of the same view. */
    function Difference(right: Iterator): (d: int)
      reads this, right
      requires right.elem == elem && right.diff == diff
      ensures diff.Contains(value - right.value) ==> d == value - right.value
    {
      DifferenceOf(elem, diff, value, right.value)
    }

    predicate Equal(other: Iterator) reads this, other { value == other.value }
    predicate NotEqual(other: Iterator) reads this, other { value != other.value }
    predicate Less(other: Iterator) reads this, other { value < other.value }
    predicate Greater(other: Iterator) reads this, other { value > other.value }
    predicate LessEqual(other: Iterator) reads this, other { value <= other.value }
    predicate GreaterEqual(other: Iterator) reads this, other { value >= other.value }
  }

  /**
   * The comparisons order iterators by value: exactly one of `<`, `==`, `>`
   * holds, `!=` negates `==`, and `<=` / `>=` are the negations of `>` / `<`.
   */
  lemma IteratorOrder(a: Iterator, b: Iterator)
    ensures (a.Less(b) && !a.Equal(b) && !a.Greater(b))
         || (!a.Less(b) && a.Equal(b) && !a.Greater(b))
         || (!a.Less(b) && !a.Equal(b) && a.Greater(b))
    ensures a.NotEqual(b) <==> !a.Equal(b)
    ensures a.LessEqual(b) <==> !a.Greater(b)
    ensures a.GreaterEqual(b) <==> !a.Less(b)
    ensures a.Less(b) <==> b.Greater(a)
  {
  }
}
