/**
 * The earlier concepts-lite.cpp: the same `swap`, `max` and XOR exchange
 * of `Bar` (its field is named `b` there) as `Concepts`, which this module
 * reuses, plus the parts that differ: `reduce` over `uint8_t`, an
 * `accumulate` overload for the empty pack, and a `sort` whose unqualified
 * `swap` is the three-move template, since the `Bar` overload is declared
 * after it in a namespace argument-dependent lookup does not search.
 */
module ConceptsLite {
  import Concepts

  newtype uint8 = x: int | 0 <= x < 256

  /**
   * `accumulate(e...)`: the first element plus the accumulation of the
   * rest, ending in the empty overload, which returns 0. Every pack
   * accumulates to the sum of its elements; on a non-empty pack this
   * agrees with the version without the empty overload.
   */
  function Accumulate(elements: seq<int>): (sum: int)
    ensures sum == Concepts.Total(elements)
    ensures |elements| > 0 ==> sum == Concepts.Accumulate(elements)
    decreases |elements|
  {
    if |elements| == 0 then 0
    else
      Concepts.TotalOfTail(elements);
      elements[0] + Accumulate(elements[1..])
  }

  function Widen(elements: seq<uint8>): (r: seq<int>)
    ensures |r| == |elements| && forall k :: 0 <= k < |r| ==> r[k] == elements[k] as int
  {
    if |elements| == 0 then [] else [elements[0] as int] + Widen(elements[1..])
  }

  /**
   * `reduce<E...>::value` over `uint8_t`: the elements are promoted to
   * `int` and added from the right. The promoted sum is the sum of the
   * elements, so it lies between 0 and 255 per element.
   */
  function Reduce(elements: seq<uint8>): (sum: int)
    requires |elements| > 0
    ensures sum == Concepts.Total(Widen(elements))
    ensures 0 <= sum <= 255 * |elements|
    decreases |elements|
  {
    var w := Widen(elements);
    Concepts.TotalOfTail(w);
    if |elements| == 1 then
      assert w[1..] == [];
      elements[0] as int
    else
      assert w[1..] == Widen(elements[1..]);
      elements[0] as int + Reduce(elements[1..])
  }

  /** The values `main` computes: `reduce<8, 6, 2, 7>` and `accumulate(8, 6, 2, 7)` are 23, `accumulate()` is 0. */
  lemma Examples()
    ensures Reduce([8, 6, 2, 7]) == 23
    ensures Accumulate([8, 6, 2, 7]) == 23
    ensures Accumulate([]) == 0
  {
    assert [8, 6, 2, 7][1..] == [6, 2, 7];
    assert [6, 2, 7][1..] == [2, 7];
    assert [2, 7][1..] == [7];
    assert [7][1..] == [];
    var bytes: seq<uint8> := [8, 6, 2, 7];
    assert bytes[1..] == [6, 2, 7];
    assert bytes[1..][1..] == [2, 7];
    assert bytes[1..][1..][1..] == [7];
  }

  /**
   * `sort(container)`: the same nested compare-and-swap loops as
   * `Concepts.Sort`, exchanging with the three-move `swap`. The result is
   * sorted and a permutation of the input.
   */
  method Sort(a: array<Concepts.uint32>)
    modifies a
    ensures Concepts.SortedRange(a[..], 0, a.Length)
    ensures multiset(a[..]) == multiset(old(a[..]))
  {
    for i := 0 to a.Length
      invariant Concepts.Outer(a[..], i)
      invariant multiset(a[..]) == multiset(old(a[..]))
    {
      Concepts.InnerStart(a[..], i);
      for j := 0 to a.Length
        invariant Concepts.Inner(a[..], i, j)
        invariant multiset(a[..]) == multiset(old(a[..]))
      {
        ghost var before := a[..];
        if a[i] < a[j] {
          var left, right := Concepts.Swap(a[i], a[j]);
          a[i], a[j] := left, right;
          assert a[..] == Concepts.Swapped(before, i, j);
        }
        Concepts.InnerStep(before, i, j);
      }
      Concepts.InnerEnd(a[..], i);
    }
  }
}
