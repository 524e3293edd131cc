/**
 * `cxx::stack_alloc` and `cxx::stack_array` (stack-alloc/stack-alloc.cxx):
 * a fixed number of slots obtained from `alloca`, and an array that
 * constructs elements one after another into them.
 *
 * The slots are a Dafny `array`; since Dafny has no uninitialised memory,
 * the slots start out holding a caller-supplied `blank` value, which the
 * model never reads before it has been overwritten by `push`.
 */
module StackAlloc {

  /** `stack_alloc<T>(size)`: asserts `size > 0` and returns `size` fresh slots. */
  method StackAllocate<T>(size: int, blank: T) returns (slots: array<T>)
    requires size > 0
    ensures fresh(slots) && slots.Length == size
  {
    slots := new T[size](_ => blank);
  }

  class StackArray<T> {
    const data: array<T>
    var size: nat
    const capacity: nat

    /** `size <= capacity`, and the slots are exactly `capacity` many. */
    ghost predicate Valid()
      reads this
    {
      data.Length == capacity && size <= capacity
    }

    /** The elements pushed so far, in order. */
    ghost function Elements(): (e: seq<T>)
      reads this, data
      requires Valid()
      ensures |e| == size
    {
      data[..size]
    }

    /** The constructor: asserts `capacity > 0`, allocates the slots and starts empty. */
    constructor (capacity: int, blank: T)
      requires capacity > 0
      ensures Valid() && fresh(data) && Elements() == []
      ensures this.capacity == capacity && Size() == 0
    {
      var slots := StackAllocate(capacity, blank);
      data := slots;
      size := 0;
      this.capacity := capacity;
    }

    /** `size()`: the number of elements, which never exceeds `capacity()`. */
    function Size(): (n: nat)
      reads this, data
      requires Valid()
      ensures n == |Elements()| && n <= Capacity()
    {
      size
    }

    /** `capacity()`: fixed at construction. */
    function Capacity(): nat
    {
      capacity
    }

    /**
     * `push(value)`: constructs the value in slot `size()` and increments the
     * size. The source does not check the capacity; the slot must exist.
     */
    method Push(value: T)
      requires Valid() && size < capacity
      modifies this, data
      ensures Valid() && Elements() == old(Elements()) + [value]
      ensures Size() == old(Size()) + 1
    {
      data[size] := value;
      size := size + 1;
    }

    /** `a[index]`: asserts `0 <= index < size()` and returns the element pushed `index`-th. */
    function At(index: int): (v: T)
      reads this, data
      requires Valid() && 0 <= index < Size()
      ensures v == Elements()[index]
    {
      data[index]
    }

    /** Writing through the reference the non-const `operator[]` returns. */
    method Set(index: int, value: T)
      requires Valid() && 0 <= index < Size()
      modifies data
      ensures Valid() && Elements() == old(Elements())[index := value]
    {
      data[index] := value;
    }
  }

  /** The sum of a sequence of integers, as `std::accumulate` with initial value 0 computes it. */
  function Sum(s: seq<int>): int
  {
    if |s| == 0 then 0 else Sum(s[..|s| - 1]) + s[|s| - 1]
  }

  /** A sequence of ones sums to its length. */
  lemma {:induction false} SumOfOnes(s: seq<int>)
    requires forall i :: 0 <= i < |s| ==> s[i] == 1
    ensures Sum(s) == |s|
  {
    if |s| > 0 {
      SumOfOnes(s[..|s| - 1]);
    }
  }

  /** `std::accumulate(first, first + count, 0)` over the first `count` slots. */
  method Accumulate(slots: array<int>, count: nat) returns (sum: int)
    requires count <= slots.Length
    ensures sum == Sum(slots[..count])
  {
    sum := 0;
    var i := 0;
    while i < count
      invariant i <= count
      invariant sum == Sum(slots[..i])
    {
      assert slots[..i + 1][..i] == slots[..i];
      sum := sum + slots[i];
      i := i + 1;
    }
  }

  /** The `stack_alloc` test: `size` slots each set to 1 sum to `size`. */
  method StackAllocTest(size: int) returns (ok: bool)
    requires size > 0
    ensures ok
  {
    var slots := StackAllocate(size, 0);
    var i := 0;
    while i < size
      invariant 0 <= i <= size
      invariant forall k :: 0 <= k < i ==> slots[k] == 1
    {
      slots[i] := 1;
      i := i + 1;
    }
    var sum := Accumulate(slots, size);
    SumOfOnes(slots[..size]);
    ok := sum == size;
  }

  /** The `stack_array` test: pushing `capacity` ones gives a sum equal to `size()`. */
  method StackArrayTest(capacity: int) returns (ok: bool)
    requires capacity > 0
    ensures ok
  {
    var stack := new StackArray<int>(capacity, 0);
    var i := 0;
    while i < stack.Capacity()
      invariant stack.Valid() && stack.Capacity() == capacity && 0 <= i <= capacity
      invariant stack.Size() == i
      invariant forall k :: 0 <= k < i ==> stack.Elements()[k] == 1
    {
      stack.Push(1);
      i := i + 1;
    }
    var sum := Accumulate(stack.data, stack.Size());
    SumOfOnes(stack.Elements());
    ok := sum == stack.Size();
  }
}
