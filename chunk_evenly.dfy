/**
 * `cxx::chunk_evenly_view` (data-structures/include/cxx/chunk_evenly.hxx):
 * splits a sized random-access range of n elements into k chunks whose
 * sizes differ by at most one, the larger chunks first.
 *
 * Positions in the underlying range are indices 0..n; the iterator keeps
 * the begin index, the index and the size of the current chunk, and the
 * remainder n % k, and moves the chunk boundaries incrementally.
 */
module ChunkEvenly {

  /** `detail::decrement_if`: subtract 1 when the condition holds. */
  function DecrementIf(value: int, condition: bool): (r: int)
    ensures condition ==> r + 1 == value
    ensures !condition ==> r == value
  {
    value - (if condition then 1 else 0)
  }

  /** `detail::value_plus_one_or_value`: add 1 when the condition holds. */
  function ValuePlusOneOrValue(value: int, condition: bool): (r: int)
    ensures condition ==> r == value + 1
    ensures !condition ==> r == value
  {
    value + (if condition then 1 else 0)
  }

  /** The size of chunk i when n elements are split into k chunks: the first n % k chunks get one more. */
  function ChunkSize(n: nat, k: nat, i: nat): nat
    requires k > 0
  {
    n / k + (if i < n % k then 1 else 0)
  }

  /** Where chunk i begins: after the i chunks before it. */
  function ChunkStart(n: nat, k: nat, i: nat): nat
    requires k > 0
  {
    if i == 0 then 0 else ChunkStart(n, k, i - 1) + ChunkSize(n, k, i - 1)
  }

  /** Each chunk begins where the previous one ends. */
  lemma ChunkStartStep(n: nat, k: nat, i: nat)
    requires k > 0
    ensures ChunkStart(n, k, i + 1) == ChunkStart(n, k, i) + ChunkSize(n, k, i)
  {
  }

  /** Chunk i begins after i chunks of the quotient size and min(i, n % k) extra elements. */
  lemma {:induction false} ChunkStartClosedForm(n: nat, k: nat, i: nat)
    requires k > 0
    ensures ChunkStart(n, k, i) == i * (n / k) + (if i < n % k then i else n % k)
  {
    if i > 0 {
      ChunkStartClosedForm(n, k, i - 1);
      assert i * (n / k) == (i - 1) * (n / k) + n / k;
    }
  }

  /** Chunk 0 begins at the range start and the k chunks end exactly at the range end. */
  lemma ChunkBounds(n: nat, k: nat)
    requires k > 0
    ensures ChunkStart(n, k, 0) == 0
    ensures ChunkStart(n, k, k) == n
  {
    ChunkStartClosedForm(n, k, k);
    assert n % k < k;
    assert k * (n / k) + n % k == n;
  }

  /** The larger chunks come first, and any two chunk sizes differ by at most one. */
  lemma LargerChunksFirst(n: nat, k: nat, i: nat, j: nat)
    requires k > 0 && i <= j
    ensures ChunkSize(n, k, j) <= ChunkSize(n, k, i) <= ChunkSize(n, k, j) + 1
    ensures ChunkSize(n, k, i) == n / k + 1 <==> i < n % k
  {
  }

  /** Every chunk of a valid position lies inside the range. */
  lemma {:induction false} ChunkWithinRange(n: nat, k: nat, i: nat)
    requires k > 0 && i <= k
    ensures ChunkStart(n, k, i) <= n
    ensures i < k ==> ChunkStart(n, k, i) + ChunkSize(n, k, i) <= n
    decreases k - i
  {
    if i == k {
      ChunkBounds(n, k);
    } else {
      ChunkStartStep(n, k, i);
      ChunkWithinRange(n, k, i + 1);
    }
  }

  /** The observable state of an iterator: begin index, chunk index and chunk size. */
  datatype Position = Position(chunkBegin: int, chunkIndex: int, chunkSize: int)

  /** The position of the iterator at chunk i (i == k is the end iterator). */
  function ChunkAt(n: nat, k: nat, i: nat): Position
    requires k > 0
  {
    Position(ChunkStart(n, k, i), i, ChunkSize(n, k, i))
  }

  /** `chunk_evenly_view<view>::iterator` over a range of `rangeSize` elements in `chunkCount` chunks. */
  class Iterator {
    var chunkBegin: int
    var chunkIndex: int
    var chunkSize: int
    var remainder: int
    ghost const rangeSize: nat
    ghost const chunkCount: nat

    ghost predicate Valid()
      reads this
    {
      chunkCount > 0
      && 0 <= chunkIndex <= chunkCount
      && remainder == rangeSize % chunkCount
      && Current() == ChunkAt(rangeSize, chunkCount, chunkIndex)
      && chunkBegin <= rangeSize
      && (chunkIndex < chunkCount ==> chunkBegin + chunkSize <= rangeSize)
    }

    function Current(): Position
      reads this
    {
      Position(chunkBegin, chunkIndex, chunkSize)
    }

    /**
     * The private constructor: quotient and remainder of the range size by the
     * chunk count, and one more element than the quotient for a chunk known to
     * lie before the border.
     */
    constructor (rangeSize: nat, chunkCount: nat, chunkBegin: int, chunkIndex: int, surelyAfterBorder: bool)
      requires chunkCount > 0
      ensures this.rangeSize == rangeSize && this.chunkCount == chunkCount
      ensures this.chunkBegin == chunkBegin && this.chunkIndex == chunkIndex
      ensures remainder == rangeSize % chunkCount
      ensures chunkSize == rangeSize / chunkCount
                           + (if !surelyAfterBorder && chunkIndex < rangeSize % chunkCount then 1 else 0)
    {
      this.rangeSize := rangeSize;
      this.chunkCount := chunkCount;
      this.chunkBegin := chunkBegin;
      this.chunkIndex := chunkIndex;
      var quotient := rangeSize / chunkCount;
      var remainder := rangeSize % chunkCount;
      this.remainder := remainder;
      var chunkBeforeBorder := !surelyAfterBorder && chunkIndex < remainder;
      chunkSize := ValuePlusOneOrValue(quotient, chunkBeforeBorder);
    }

    /** `*it`: the subrange [chunk_begin, chunk_begin + chunk_size) of the range. */
    function Deref<T>(range: seq<T>): (chunk: seq<T>)
      reads this
      requires Valid() && chunkIndex < chunkCount && |range| == rangeSize
      ensures |chunk| == ChunkSize(rangeSize, chunkCount, chunkIndex)
      ensures chunk == range[ChunkStart(rangeSize, chunkCount, chunkIndex)..][..ChunkSize(rangeSize, chunkCount, chunkIndex)]
    {
      range[chunkBegin..chunkBegin + chunkSize]
    }

    /** `++it`: step over the current chunk; the size drops by one when the new index reaches the remainder. */
    method Increment()
      requires Valid() && chunkIndex < chunkCount
      modifies this
      ensures Valid()
      ensures Current() == ChunkAt(rangeSize, chunkCount, old(chunkIndex) + 1)
      ensures chunkBegin == old(chunkBegin + chunkSize)
    {
      ChunkStartStep(rangeSize, chunkCount, chunkIndex);
      ChunkWithinRange(rangeSize, chunkCount, chunkIndex + 1);
      chunkBegin := chunkBegin + chunkSize;
      chunkIndex := chunkIndex + 1;
      var isCrossingBorder := chunkIndex == remainder;
      chunkSize := DecrementIf(chunkSize, isCrossingBorder);
    }

    /** `--it`: the previous chunk is one larger exactly when the current index is the remainder. */
    method Decrement()
      requires Valid() && 0 < chunkIndex
      modifies this
      ensures Valid()
      ensures Current() == ChunkAt(rangeSize, chunkCount, old(chunkIndex) - 1)
      ensures chunkBegin + chunkSize == old(chunkBegin)
    {
      ChunkStartStep(rangeSize, chunkCount, chunkIndex - 1);
      ChunkWithinRange(rangeSize, chunkCount, chunkIndex - 1);
      var isCrossingBorder := chunkIndex == remainder;
      var prevChunkSize := ValuePlusOneOrValue(chunkSize, isCrossingBorder);
      chunkBegin := chunkBegin - prevChunkSize;
      chunkSize := prevChunkSize;
      chunkIndex := chunkIndex - 1;
    }

    /** `it++`: advance, returning a copy of the iterator as it was. */
    method PostIncrement() returns (previous: Iterator)
      requires Valid() && chunkIndex < chunkCount
      modifies this
      ensures fresh(previous) && previous.Valid()
      ensures previous.Current() == old(Current()) && previous.remainder == remainder
      ensures previous.rangeSize == rangeSize && previous.chunkCount == chunkCount
      ensures Valid() && Current() == ChunkAt(rangeSize, chunkCount, old(chunkIndex) + 1)
    {
      previous := new Iterator.Copy(this);
      Increment();
    }

    /** `it--`: step back, returning a copy of the iterator as it was. */
    method PostDecrement() returns (previous: Iterator)
      requires Valid() && 0 < chunkIndex
      modifies this
      ensures fresh(previous) && previous.Valid()
      ensures previous.Current() == old(Current()) && previous.remainder == remainder
      ensures previous.rangeSize == rangeSize && previous.chunkCount == chunkCount
      ensures Valid() && Current() == ChunkAt(rangeSize, chunkCount, old(chunkIndex) - 1)
    {
      previous := new Iterator.Copy(this);
      Decrement();
    }

    /** The copy constructor the postfix operators use. */
    constructor Copy(other: Iterator)
      ensures rangeSize == other.rangeSize && chunkCount == other.chunkCount
      ensures Current() == other.Current() && remainder == other.remainder
    {
      rangeSize, chunkCount := other.rangeSize, other.chunkCount;
      chunkBegin, chunkIndex, chunkSize := other.chunkBegin, other.chunkIndex, other.chunkSize;
      remainder := other.remainder;
    }

    /** `==` compares only the chunk indices. */
    predicate Equal(other: Iterator)
      reads this, other
    {
      chunkIndex == other.chunkIndex
    }
  }

  /**
   * Comparing chunk indices is enough: two valid iterators over the same
   * range and chunk count compare equal exactly when they stand at the same
   * position, since the index fixes the begin and the size of its chunk.
   */
  lemma EqualMeansSamePosition(a: Iterator, b: Iterator)
    requires a.Valid() && b.Valid() && a.rangeSize == b.rangeSize && a.chunkCount == b.chunkCount
    ensures a.Equal(b) <==> a.Current() == b.Current()
  {
  }

  /** `chunk_evenly_view`: the adapted range and the number of chunks. */
  datatype ChunkEvenlyView<T> = ChunkEvenlyView(range: seq<T>, chunkCount: int)
  {
    /** `size()` */
    function Size(): int
    {
      chunkCount
    }

    /** `begin()`: chunk 0 at the start of the range. */
    method Begin() returns (it: Iterator)
      requires chunkCount > 0
      ensures fresh(it) && it.Valid() && it.rangeSize == |range| && it.chunkCount == chunkCount
      ensures it.Current() == ChunkAt(|range|, chunkCount, 0) && it.chunkBegin == 0
    {
      it := new Iterator(|range|, chunkCount, 0, 0, false);
      ChunkBounds(|range|, chunkCount);
    }

    /** `end()`: index chunk_count at the end of the range, built as surely after the border. */
    method End() returns (it: Iterator)
      requires chunkCount > 0
      ensures fresh(it) && it.Valid() && it.rangeSize == |range| && it.chunkCount == chunkCount
      ensures it.Current() == ChunkAt(|range|, chunkCount, chunkCount) && it.chunkBegin == |range|
    {
      it := new Iterator(|range|, chunkCount, |range|, chunkCount, true);
      ChunkBounds(|range|, chunkCount);
    }
  }

  /** The view's constructor expects a positive chunk count. */
  function MakeView<T>(range: seq<T>, chunkCount: int): (v: ChunkEvenlyView<T>)
    requires chunkCount > 0
    ensures v.range == range && v.Size() == chunkCount
  {
    ChunkEvenlyView(range, chunkCount)
  }

  /** The concatenation of a sequence of chunks. */
  function Flatten<T>(chunks: seq<seq<T>>): seq<T>
  {
    if chunks == [] then [] else Flatten(chunks[..|chunks| - 1]) + chunks[|chunks| - 1]
  }

  lemma FlattenAppend<T>(chunks: seq<seq<T>>, chunk: seq<T>)
    ensures Flatten(chunks + [chunk]) == Flatten(chunks) + chunk
  {
    assert (chunks + [chunk])[..|chunks|] == chunks;
  }

  /** One iteration of `Chunks`: appending the chunk extends the covered prefix. */
  lemma Step<T>(range: seq<T>, chunks: seq<seq<T>>, chunk: seq<T>, b: int, size: int)
    requires 0 <= b <= b + size <= |range|
    requires Flatten(chunks) == range[..b] && chunk == range[b..b + size]
    ensures Flatten(chunks + [chunk]) == range[..b + size]
  {
    FlattenAppend(chunks, chunk);
    assert range[..b + size] == range[..b] + range[b..b + size];
  }

  /**
   * Walks a view from `begin()` to `end()` with `++`, collecting `*it`: there are
   * `size()` chunks, they concatenate back to the range, the first n % k of them
   * have n / k + 1 elements and the rest n / k, so larger chunks come first.
   */
  method Chunks<T>(view: ChunkEvenlyView<T>) returns (chunks: seq<seq<T>>)
    requires view.chunkCount > 0
    ensures |chunks| == view.Size()
    ensures Flatten(chunks) == view.range
    ensures forall i :: 0 <= i < |chunks| ==>
      |chunks[i]| == |view.range| / view.chunkCount + (if i < |view.range| % view.chunkCount then 1 else 0)
    ensures forall i, j :: 0 <= i <= j < |chunks| ==> |chunks[j]| <= |chunks[i]| <= |chunks[j]| + 1
  {
    var n, k := |view.range|, view.chunkCount;
    var it := view.Begin();
    var last := view.End();
    chunks := [];
    while !it.Equal(last)
      invariant it != last && last.chunkIndex == k
      invariant it.Valid() && it.rangeSize == n && it.chunkCount == k
      invariant it.chunkIndex == |chunks| <= k
      invariant Flatten(chunks) == view.range[..it.chunkBegin]
      invariant forall i :: 0 <= i < |chunks| ==> |chunks[i]| == ChunkSize(n, k, i)
      decreases k - it.chunkIndex
    {
      var chunk := it.Deref(view.range);
      Step(view.range, chunks, chunk, it.chunkBegin, it.chunkSize);
      chunks := chunks + [chunk];
      it.Increment();
    }
    ChunkBounds(n, k);
    assert view.range[..n] == view.range;
    forall i, j | 0 <= i <= j < |chunks|
      ensures |chunks[j]| <= |chunks[i]| <= |chunks[j]| + 1
    {
      LargerChunksFirst(n, k, i, j);
    }
  }
}
