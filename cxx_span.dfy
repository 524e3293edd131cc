/**
 * `cxx::span` (data-structures/include/cxx/span.hxx): a non-owning view of
 * `length` consecutive elements starting at `buffer`, with a random-access
 * iterator that wraps a raw pointer.
 *
 * A pointer into memory is an array and an offset into it; the null pointer
 * is a `null` array with offset 0. Pointer arithmetic moves the offset, and
 * a dereference requires it to be inside the array.
 */
module CxxSpan {

  datatype Span<T> = Span(buffer: array?<T>, start: int, length: nat)
  {
    /** The view lies inside its array, and a null view is empty. */
    ghost predicate Valid()
    {
      if buffer == null then start == 0 && length == 0
      else 0 <= start && start + length <= buffer.Length
    }

    /** The viewed elements. */
    ghost function Elements(): (e: seq<T>)
      reads buffer
      requires Valid()
      ensures |e| == length
    {
      if buffer == null then [] else buffer[start..start + length]
    }

    /** `size()` */
    function Size(): nat
    {
      length
    }

    /** `size_bytes()`: `sizeof(element_type) * size()`. */
    function SizeBytes(elemSize: nat): nat
    {
      elemSize * length
    }

    /** `empty()` */
    predicate Empty()
    {
      Size() == 0
    }

    /** `data()`: the array and the offset at which the view starts. */
    function Data(): (array?<T>, int)
    {
      (buffer, start)
    }

    /** `s[index]`: element `index` of the view. */
    function At(index: nat): (v: T)
      reads buffer
      requires Valid() && index < Size()
      ensures v == Elements()[index]
    {
      buffer[start + index]
    }

    /** `front()`: `s[0]`. */
    function Front(): (v: T)
      reads buffer
      requires Valid() && !Empty()
      ensures v == At(0) && v == Elements()[0]
    {
      buffer[start]
    }

    /** `back()`: `s[size() - 1]`. */
    function Back(): (v: T)
      reads buffer
      requires Valid() && !Empty()
      ensures v == At(Size() - 1) && v == Elements()[|Elements()| - 1]
    {
      buffer[start + length - 1]
    }

    /** `begin()`: an iterator at the first element. */
    method Begin() returns (it: Iterator<T>)
      ensures fresh(it) && it.buffer == buffer && it.offset == start
    {
      it := new Iterator(buffer, start);
    }

    /** `end()`: an iterator one past the last element. */
    method End() returns (it: Iterator<T>)
      ensures fresh(it) && it.buffer == buffer && it.offset == start + length
    {
      it := new Iterator(buffer, start + length);
    }
  }

  /** The default constructor: a null, empty view. */
  function DefaultSpan<T>(): (s: Span<T>)
    ensures s.Valid() && s.Empty() && s.Data() == (null, 0)
  {
    Span(null, 0, 0)
  }

  /** `span(ptr, count)`: `count` elements from `ptr`. */
  function FromPointer<T>(buffer: array<T>, offset: int, count: nat): (s: Span<T>)
    requires 0 <= offset && offset + count <= buffer.Length
    ensures s.Valid() && s.Data() == (buffer, offset) && s.Size() == count
  {
    Span(buffer, offset, count)
  }

  /** `span(first, last)`: the elements from `first` up to, not including, `last`. */
  function FromRange<T>(buffer: array<T>, first: int, last: int): (s: Span<T>)
    requires 0 <= first <= last <= buffer.Length
    ensures s.Valid() && s.Data() == (buffer, first) && s.Size() == last - first
  {
    Span(buffer, first, last - first)
  }

  /** `span(container)`: all elements of a contiguous container. */
  function FromContainer<T>(data: array<T>): (s: Span<T>)
    ensures s.Valid() && s.Data() == (data, 0) && s.Size() == data.Length
  {
    Span(data, 0, data.Length)
  }

  /** The view of a whole container shows exactly its elements. */
  lemma ContainerElements<T>(data: array<T>)
    ensures FromContainer(data).Elements() == data[..]
  {
  }

  /** `size_bytes()` is the number of bytes the viewed elements occupy. */
  lemma SizeBytesCountsElements<T>(s: Span<T>, elemSize: nat)
    requires s.Valid()
    ensures s.SizeBytes(elemSize) == |s.Elements()| * elemSize
    ensures elemSize > 0 ==> (s.SizeBytes(elemSize) == 0 <==> s.Empty())
  {
  }

  /** `span::iterator`: a raw pointer, here an array and an offset. */
  class Iterator<T> {
    const buffer: array?<T>
    var offset: int

    /** `iterator(p)`; the default argument is `nullptr`. */
    constructor (buffer: array?<T>, offset: int)
      ensures this.buffer == buffer && this.offset == offset
    {
      this.buffer := buffer;
      this.offset := offset;
    }

    /** `*it` and `it[0]`: the element pointed to. */
    function Deref(): T
      reads this, buffer
      requires buffer != null && 0 <= offset < buffer.Length
    {
      buffer[offset]
    }

    /** `it[index]`: the element `index` places further, leaving the iterator where it is. */
    function At(index: int): (v: T)
      reads this, buffer
      requires buffer != null && 0 <= offset + index < buffer.Length
      ensures v == buffer[offset + index]
    {
      buffer[offset + index]
    }

    /** `++it` */
    method Increment()
      modifies this
      ensures offset == old(offset) + 1
    {
      offset := offset + 1;
    }

    /** `--it` */
    method Decrement()
      modifies this
      ensures offset == old(offset) - 1
    {
      offset := offset - 1;
    }

    /** `it++`: a copy of the iterator before the increment. */
    method PostIncrement() returns (previous: Iterator<T>)
      modifies this
      ensures fresh(previous) && previous.buffer == buffer && previous.offset == old(offset)
      ensures offset == old(offset) + 1
    {
      previous := new Iterator(buffer, offset);
      Increment();
    }

    /** `it--`: a copy of the iterator before the decrement. */
    method PostDecrement() returns (previous: Iterator<T>)
      modifies this
      ensures fresh(previous) && previous.buffer == buffer && previous.offset == old(offset)
      ensures offset == old(offset) - 1
    {
      previous := new Iterator(buffer, offset);
      Decrement();
    }

    /** `it += n` */
    method AddAssign(n: int)
      modifies this
      ensures offset == old(offset) + n
    {
      offset := offset + n;
    }

    /** `it -= n` */
    method SubAssign(n: int)
      modifies this
      ensures offset == old(offset) - n
    {
      offset := offset - n;
    }

    /** `it + n` and `n + it`: an advanced copy; `it` itself is not modified. */
    method Plus(n: int) returns (r: Iterator<T>)
      ensures fresh(r) && r.buffer == buffer && r.offset == offset + n
    {
      r := new Iterator(buffer, offset);
      r.AddAssign(n);
    }

    /** `it - n`: a copy moved back; `it` itself is not modified. */
    method Minus(n: int) returns (r: Iterator<T>)
      ensures fresh(r) && r.buffer == buffer && r.offset == offset - n
    {
      r := new Iterator(buffer, offset);
      r.SubAssign(n);
    }

    /** `it - other`: the distance between two pointers into one array. */
    function Difference(other: Iterator<T>): int
      reads this, other
      requires buffer == other.buffer
    {
      offset - other.offset
    }

    /** `==`: the same pointer. */
    predicate Equal(other: Iterator<T>)
      reads this, other
    {
      buffer == other.buffer && offset == other.offset
    }

    /** `!=` is the negation of `==`. */
    predicate NotEqual(other: Iterator<T>)
      reads this, other
    {
      !Equal(other)
    }

    /** `<`: compares the pointers, which must point into one array. */
    predicate Less(other: Iterator<T>)
      reads this, other
      requires buffer == other.buffer
    {
      offset < other.offset
    }

    /** `a > b` is `b < a`. */
    predicate Greater(other: Iterator<T>)
      reads this, other
      requires buffer == other.buffer
    {
      other.Less(this)
    }

    /** `a <= b` is `!(a > b)`. */
    predicate LessEqual(other: Iterator<T>)
      reads this, other
      requires buffer == other.buffer
    {
      !Greater(other)
    }

    /** `a >= b` is `!(a < b)`. */
    predicate GreaterEqual(other: Iterator<T>)
      reads this, other
      requires buffer == other.buffer
    {
      !Less(other)
    }
  }

  /**
   * Iterators into one array are ordered by position: exactly one of `<`,
   * `==`, `>` holds, and the derived `<=`, `>=` agree with the positions.
   */
  lemma IteratorOrder<T>(a: Iterator<T>, b: Iterator<T>)
    requires a.buffer == b.buffer
    ensures a.Less(b) <==> a.offset < b.offset
    ensures a.Greater(b) <==> a.offset > b.offset
    ensures a.LessEqual(b) <==> a.offset <= b.offset
    ensures a.GreaterEqual(b) <==> a.offset >= b.offset
    ensures a.Equal(b) <==> !a.Less(b) && !a.Greater(b)
    ensures a.Difference(b) == -b.Difference(a)
  {
  }

  /** `it += n` followed by `it -= n` returns the iterator to where it was. */
  method AdvanceAndBack<T>(it: Iterator<T>, n: int)
    modifies it
    ensures it.offset == old(it.offset)
  {
    it.AddAssign(n);
    it.SubAssign(n);
  }

  /**
   * `end() - begin()` is `size()`, and walking from `begin()` with `++`
   * visits the elements `s[0]`, `s[1]`, ... in order until `end()`.
   */
  method Traverse<T>(s: Span<T>) returns (distance: int, visited: seq<T>)
    requires s.Valid()
    ensures distance == s.Size()
    ensures visited == s.Elements()
  {
    var first := s.Begin();
    var last := s.End();
    distance := last.Difference(first);
    var it := s.Begin();
    visited := [];
    while it.NotEqual(last)
      invariant it != last && last.buffer == s.buffer && last.offset == s.start + s.length
      invariant it.buffer == s.buffer && s.start <= it.offset <= s.start + s.length
      invariant visited == s.Elements()[..it.offset - s.start]
      decreases s.start + s.length - it.offset
    {
      visited := visited + [it.Deref()];
      it.Increment();
    }
  }
}
