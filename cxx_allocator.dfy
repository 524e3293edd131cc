/**
 * `cxx::allocator` (data-structures/include/cxx/allocator.hxx): a stateless
 * allocator whose `max_size()` bounds the element count so that the byte
 * count `count * sizeof(T)` passed to `operator new` stays representable.
 *
 * The widths of `std::ptrdiff_t` and `std::size_t` are parameters, so the
 * model covers every platform; `sizeof(T)` is the allocator's `elemSize`.
 */
module CxxAllocator {
  import opened IntTypes

  /** `std::numeric_limits<T>::digits`: the value bits, excluding a sign bit. */
  function Digits(t: IntType): nat
  {
    if t.signed && t.bits > 0 then t.bits - 1 else t.bits
  }

  /** A platform's `std::ptrdiff_t` (signed) and `std::size_t` (unsigned). */
  datatype Platform = Platform(ptrdiff: IntType, size: IntType)
  {
    predicate Valid()
    {
      ptrdiff.signed && ptrdiff.bits > 0 && !size.signed
    }

    /** The byte bound `max_size` divides: `PTRDIFF_MAX` when it has fewer digits than `SIZE_MAX`, else `SIZE_MAX`. */
    function ByteBound(): int
    {
      if Digits(ptrdiff) < Digits(size) then ptrdiff.Max() else size.Max()
    }
  }

  /** `cxx::allocator<T>`, which has no state besides `sizeof(T)`; `sizeof(T) != 0` is a static assertion. */
  datatype Allocator = Allocator(elemSize: nat)
  {
    predicate Valid()
    {
      elemSize > 0
    }

    /**
     * `max_size()`: the largest count whose byte size does not exceed the
     * platform's byte bound.
     */
    function MaxSize(p: Platform): (n: int)
      requires Valid() && p.Valid()
      ensures n >= 0
      ensures n * elemSize <= p.ByteBound() < (n + 1) * elemSize
    {
      p.ByteBound() / elemSize
    }

    /**
     * `allocate(count)`: expects `count <= max_size()` and asks
     * `operator new` for `count * sizeof(T)` bytes, a size `std::size_t` can
     * represent.
     */
    function AllocationBytes(p: Platform, count: nat): (bytes: nat)
      requires Valid() && p.Valid() && count <= MaxSize(p)
      ensures bytes == count * elemSize
      ensures bytes <= p.ByteBound() && p.size.Contains(bytes)
    {
      AllocationFits(this, p, count);
      count * elemSize
    }
  }

  lemma MulMonotonic(a: nat, b: nat, c: nat)
    requires a <= b
    ensures a * c <= b * c
  {
    assert b * c - a * c == (b - a) * c;
  }

  /** Under the precondition of `allocate`, the byte count fits the bound and `std::size_t`. */
  lemma {:induction false} AllocationFits(a: Allocator, p: Platform, count: nat)
    requires a.Valid() && p.Valid() && count <= a.MaxSize(p)
    ensures count * a.elemSize <= p.ByteBound()
    ensures p.size.Contains(count * a.elemSize)
  {
    var n := a.MaxSize(p);
    MulMonotonic(count, n, a.elemSize);
    if Digits(p.ptrdiff) < Digits(p.size) {
      Pow2Monotonic(p.ptrdiff.bits - 1, p.size.bits);
    }
  }

  /** `operator ==` between any two allocators: always true. */
  predicate Equal(left: Allocator, right: Allocator)
  {
    true
  }

  /** `operator !=` between any two allocators: always false. */
  predicate NotEqual(left: Allocator, right: Allocator)
  {
    false
  }

  /** All allocators are interchangeable: `==` holds and `!=` is its negation. */
  lemma AllocatorsInterchangeable(left: Allocator, right: Allocator)
    ensures Equal(left, right) && Equal(right, left)
    ensures NotEqual(left, right) <==> !Equal(left, right)
  {
  }

  /** On a common 64-bit platform, an allocator of 8-byte elements allows 2^60 - 1 of them. */
  lemma SixtyFourBitExample()
    ensures Allocator(8).MaxSize(Platform(IntType(64, true), IntType(64, false))) == Pow2(60) - 1
  {
    Pow2Add(60, 3);
    assert Pow2(3) == 8;
  }
}
