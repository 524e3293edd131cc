/**
 * The constrained algorithms of concepts/concepts.cpp: `swap`, `max`,
 * `reduce` / `accumulate` over a parameter pack, the nested-loop `sort`,
 * and the XOR `swap` of `bar::Bar`. A parameter pack is a sequence; a
 * container of `Bar` is an array of their `uint32_t` values, which `Bar`'s
 * comparisons compare; `^` is `Xor`, defined one binary digit at a time.
 */
module Concepts {
  import opened IntTypes

  newtype uint32 = x: int | 0 <= x < 0x1_0000_0000

  /** Bitwise exclusive or of two naturals, one binary digit at a time. */
  function Xor(x: nat, y: nat): nat
    decreases x + y
  {
    if x == 0 then y
    else if y == 0 then x
    else 2 * Xor(x / 2, y / 2) + (if x % 2 == y % 2 then 0 else 1)
  }

  /** The digits of `Xor(x, y)`: its lowest digit is the exclusive or of theirs, the rest is `Xor` of the rest. */
  lemma XorDigits(x: nat, y: nat)
    ensures Xor(x, y) / 2 == Xor(x / 2, y / 2)
    ensures Xor(x, y) % 2 == (x % 2 + y % 2) % 2
  {
    var u, v := x % 2, y % 2;
    ParitySum(u, v);
    if x == 0 {
      assert u == 0 && Xor(x / 2, y / 2) == y / 2;
    } else if y == 0 {
      assert v == 0 && Xor(x / 2, y / 2) == x / 2;
    } else {
      var q, b := Xor(x / 2, y / 2), if u == v then 0 else 1;
      assert Xor(x, y) == 2 * q + b;
      HalveDouble(q, b);
    }
  }

  /** The exclusive or of two binary digits is their sum modulo 2. */
  lemma ParitySum(u: nat, v: nat)
    requires u < 2 && v < 2
    ensures (u + v) % 2 == (if u == v then 0 else 1)
    ensures v % 2 == v
  {
  }

  lemma HalveDouble(q: nat, b: nat)
    requires b < 2
    ensures (2 * q + b) / 2 == q && (2 * q + b) % 2 == b
  {
  }

  lemma {:induction false} XorSymmetric(x: nat, y: nat)
    ensures Xor(x, y) == Xor(y, x)
    decreases x + y
  {
    if x != 0 && y != 0 {
      XorSymmetric(x / 2, y / 2);
    }
  }

  /** Exclusive or with the same value twice is the identity. */
  lemma {:induction false} XorCancels(x: nat, y: nat)
    ensures Xor(Xor(x, y), y) == x
    decreases x + y
  {
    if x + y > 0 {
      var z := Xor(x, y);
      XorDigits(x, y);
      XorDigits(z, y);
      XorCancels(x / 2, y / 2);
      assert Xor(z, y) / 2 == x / 2 && Xor(z, y) % 2 == x % 2;
    }
  }

  /** A value exclusive-ored with itself is zero. */
  lemma {:induction false} XorSelf(x: nat)
    ensures Xor(x, x) == 0
    decreases x
  {
    if x > 0 {
      XorSelf(x / 2);
    }
  }

  /** Exclusive or of two n-bit values is an n-bit value. */
  lemma {:induction false} XorBound(x: nat, y: nat, n: nat)
    requires x < Pow2(n) && y < Pow2(n)
    ensures Xor(x, y) < Pow2(n)
    decreases n
  {
    if x != 0 && y != 0 {
      XorBound(x / 2, y / 2, n - 1);
    }
  }

  /** `^` on `uint32_t`. */
  function Xor32(x: uint32, y: uint32): (r: uint32)
    ensures r as int == Xor(x as nat, y as nat)
  {
    assert Pow2(32) == 0x1_0000_0000 by {
      Pow2Add(16, 16);
      Pow2Add(8, 8);
      Pow2Add(4, 4);
      Pow2Add(2, 2);
    }
    XorBound(x as nat, y as nat, 32);
    Xor(x as nat, y as nat) as uint32
  }

  /** `swap(left, right)` by three moves through a temporary. */
  method Swap<T>(left: T, right: T) returns (newLeft: T, newRight: T)
    ensures newLeft == right && newRight == left
  {
    var temp := left;
    newLeft := right;
    newRight := temp;
  }

  /** `bar::Bar`: one 32-bit value, which all six comparisons compare. */
  class Bar {
    var value: uint32

    constructor (value: uint32)
      ensures this.value == value
    {
      this.value := value;
    }
  }

  /**
   * `bar::swap`: three XORs exchange the values of two distinct objects.
   * Given the same object twice it clears its value, which is why an
   * element must never be swapped with itself.
   */
  method BarSwap(left: Bar, right: Bar)
    modifies left, right
    ensures left != right ==> left.value == old(right.value) && right.value == old(left.value)
    ensures left == right ==> left.value == 0
  {
    ghost var x, y := left.value as nat, right.value as nat;
    left.value := Xor32(left.value, right.value);
    right.value := Xor32(left.value, right.value);
    left.value := Xor32(left.value, right.value);
    if left != right {
      XorCancels(x, y);
      XorSymmetric(x, y);
      XorCancels(y, x);
    } else {
      XorSelf(x);
    }
  }

  /** `max(left, right)`: `left` if it is greater, otherwise `right`. */
  function Max(left: int, right: int): (m: int)
    ensures m >= left && m >= right
    ensures m == left || m == right
    ensures left <= right ==> m == right
  {
    if left > right then left else right
  }

  /**
   * `accumulate(e...)` and `reduce<E...>::value`: the first element plus
   * the result for the rest; a single element is its own result. Either
   * way the result is the sum of the pack.
   */
  function Accumulate(elements: seq<int>): (sum: int)
    requires |elements| > 0
    ensures sum == Total(elements)
    decreases |elements|
  {
    TotalOfTail(elements);
    if |elements| == 1 then
      assert elements[1..] == [];
      elements[0]
    else elements[0] + Accumulate(elements[1..])
  }

  /** The sum of a sequence, added from the left. */
  function Total(elements: seq<int>): int
  {
    if |elements| == 0 then 0 else Total(elements[..|elements| - 1]) + elements[|elements| - 1]
  }

  lemma {:induction false} TotalOfTail(elements: seq<int>)
    requires |elements| > 0
    ensures Total(elements) == elements[0] + Total(elements[1..])
    decreases |elements|
  {
    if |elements| > 1 {
      var rest := elements[..|elements| - 1];
      TotalOfTail(rest);
      assert rest[1..] == elements[1..][..|elements[1..]| - 1];
    } else {
      assert elements[..0] == [];
      assert elements[1..] == [];
    }
  }

  /** The checks `main` makes: `reduce<8, 6, 2, 7>` and `accumulate(8, 6, 2, 7)` are 23, `max(2, 4)` is 4. */
  lemma Examples()
    ensures Accumulate([8, 6, 2, 7]) == 23
    ensures Max(2, 4) == 4 && Max(54, 34) == 54
  {
    assert [8, 6, 2, 7][1..] == [6, 2, 7];
    assert [6, 2, 7][1..] == [2, 7];
    assert [2, 7][1..] == [7];
  }

  // The nested-loop sort, specified on the sequence of values.

  predicate SortedRange(s: seq<uint32>, lo: int, hi: int)
    requires 0 <= lo <= hi <= |s|
  {
    forall k, l :: lo <= k < l < hi ==> s[k] <= s[l]
  }

  /** The values with positions `i` and `j` exchanged. */
  function Swapped(s: seq<uint32>, i: int, j: int): (r: seq<uint32>)
    requires 0 <= i < |s| && 0 <= j < |s|
    ensures |r| == |s| && r[i] == s[j] && r[j] == s[i]
    ensures forall k :: 0 <= k < |s| && k != i && k != j ==> r[k] == s[k]
    ensures multiset(r) == multiset(s)
  {
    s[i := s[j]][j := s[i]]
  }

  /** One step of the inner loop: exchange when the outer element is less than the inner one. */
  function Step(s: seq<uint32>, i: int, j: int): seq<uint32>
    requires 0 <= i < |s| && 0 <= j < |s|
  {
    if s[i] < s[j] then Swapped(s, i, j) else s
  }

  /** Before outer iteration `i`: the first `i` values are sorted and the last of them is a maximum. */
  predicate Outer(s: seq<uint32>, i: int)
  {
    0 <= i <= |s| && SortedRange(s, 0, i)
    && (i > 0 ==> forall k :: i <= k < |s| ==> s[k] <= s[i - 1])
  }

  /**
   * Before inner iteration `j` of outer iteration `i`. Up to `i` the outer
   * element is inserted into the sorted prefix while the maximum waits at
   * `i - 1`; past `i` the outer element is the running maximum.
   */
  predicate Inner(s: seq<uint32>, i: int, j: int)
  {
    0 <= i < |s| && 0 <= j <= |s|
    && (j <= i ==>
      SortedRange(s, 0, i)
      && (forall k :: 0 <= k < j ==> s[k] <= s[i])
      && (0 < i && j < i ==> forall k :: i < k < |s| ==> s[k] <= s[i - 1])
      && (0 < i && j == i ==> forall k :: i < k < |s| ==> s[k] <= s[i]))
    && (j > i ==>
      SortedRange(s, 0, i + 1)
      && forall k :: i < k < j ==> s[k] <= s[i])
  }

  lemma InnerStart(s: seq<uint32>, i: int)
    requires Outer(s, i) && i < |s|
    ensures Inner(s, i, 0)
  {
  }

  lemma {:induction false} InnerStepBefore(s: seq<uint32>, i: int, j: int)
    requires Inner(s, i, j) && j < i
    ensures Inner(Step(s, i, j), i, j + 1)
  {
    var r := Step(s, i, j);
    if s[i] < s[j] {
      forall k, l | 0 <= k < l < i
        ensures r[k] <= r[l]
      {
        if k == j {
          assert s[l] >= s[j];
        } else if l == j {
          assert s[k] <= s[i];
        }
      }
      if j + 1 < i {
        forall k | i < k < |s|
          ensures r[k] <= r[i - 1]
        {
          assert s[k] <= s[i - 1];
        }
      } else {
        forall k | i < k < |s|
          ensures r[k] <= r[i]
        {
          assert s[k] <= s[i - 1];
        }
      }
      forall k | 0 <= k < j + 1
        ensures r[k] <= r[i]
      {
        if k < j {
          assert s[k] <= s[i];
        }
      }
    } else if j + 1 == i {
      forall k | i < k < |s|
        ensures r[k] <= r[i]
      {
        assert s[k] <= s[i - 1];
      }
    }
  }

  lemma InnerStepAt(s: seq<uint32>, i: int)
    requires Inner(s, i, i) && i + 1 <= |s|
    ensures Inner(Step(s, i, i), i, i + 1)
  {
  }

  lemma {:induction false} InnerStepAfter(s: seq<uint32>, i: int, j: int)
    requires Inner(s, i, j) && i < j < |s|
    ensures Inner(Step(s, i, j), i, j + 1)
  {
    var r := Step(s, i, j);
    if s[i] < s[j] {
      assert forall k, l :: 0 <= k < l < i + 1 ==> r[k] <= r[l] by {
        forall k, l | 0 <= k < l < i + 1
          ensures r[k] <= r[l]
        {
          if l == i {
            assert s[k] <= s[i];
          }
        }
      }
      forall k | i < k < j + 1
        ensures r[k] <= r[i]
      {
        if k < j {
          assert s[k] <= s[i];
        }
      }
    }
  }

  /** One inner step keeps the inner invariant. */
  lemma InnerStep(s: seq<uint32>, i: int, j: int)
    requires Inner(s, i, j) && j < |s|
    ensures Inner(Step(s, i, j), i, j + 1)
  {
    if j < i {
      InnerStepBefore(s, i, j);
    } else if j == i {
      InnerStepAt(s, i);
    } else {
      InnerStepAfter(s, i, j);
    }
  }

  /** A finished inner loop leaves one more sorted value, which is a maximum. */
  lemma {:induction false} InnerEnd(s: seq<uint32>, i: int)
    requires Inner(s, i, |s|)
    ensures Outer(s, i + 1)
  {
    forall k | i + 1 <= k < |s|
      ensures s[k] <= s[i]
    {
    }
  }

  /** The XOR exchange of two distinct elements of the container. */
  method XorSwap(a: array<uint32>, i: int, j: int)
    requires 0 <= i < a.Length && 0 <= j < a.Length && i != j
    modifies a
    ensures a[..] == Swapped(old(a[..]), i, j)
  {
    ghost var x, y := a[i] as nat, a[j] as nat;
    XorCancels(x, y);
    XorSymmetric(x, y);
    XorCancels(y, x);
    a[i] := Xor32(a[i], a[j]);
    a[j] := Xor32(a[i], a[j]);
    a[i] := Xor32(a[i], a[j]);
  }

  /**
   * `sort(container)`: for every element A, for every element B, swap the
   * two when A < B. The result is sorted and a permutation of the input;
   * an element is never swapped with itself, since it is not less than
   * itself.
   */
  method Sort(a: array<uint32>)
    modifies a
    ensures SortedRange(a[..], 0, a.Length)
    ensures multiset(a[..]) == multiset(old(a[..]))
  {
    for i := 0 to a.Length
      invariant Outer(a[..], i)
      invariant multiset(a[..]) == multiset(old(a[..]))
    {
      InnerStart(a[..], i);
      for j := 0 to a.Length
        invariant Inner(a[..], i, j)
        invariant multiset(a[..]) == multiset(old(a[..]))
      {
        ghost var before := a[..];
        if a[i] < a[j] {
          XorSwap(a, i, j);
        }
        InnerStep(before, i, j);
      }
      InnerEnd(a[..], i);
    }
  }

  /** The container `main` sorts: 123, 53, 421, 7, 112 becomes 7, 53, 112, 123, 421. */
  method SortExample() returns (sorted: seq<uint32>)
    ensures sorted == [7, 53, 112, 123, 421]
  {
    var a := new uint32[5] [123, 53, 421, 7, 112];
    assert a[..] == [123, 53, 421, 7, 112];
    Sort(a);
    sorted := a[..];
    SortedPermutationIsUnique(sorted, [123, 53, 421, 7, 112], [7, 53, 112, 123, 421]);
  }

  lemma SortedPermutationIsUnique(s: seq<uint32>, input: seq<uint32>, expected: seq<uint32>)
    requires |s| == 5 && SortedRange(s, 0, 5) && multiset(s) == multiset(input)
    requires input == [123, 53, 421, 7, 112] && expected == [7, 53, 112, 123, 421]
    ensures s == expected
  {
    assert forall k :: 0 <= k < 5 ==> s[k] in multiset(input);
    assert s[0] in multiset(s) && s[1] in multiset(s) && s[2] in multiset(s) && s[3] in multiset(s) && s[4] in multiset(s);
    assert 7 in multiset(s) && 53 in multiset(s) && 112 in multiset(s) && 123 in multiset(s) && 421 in multiset(s);
  }

  /** The swaps `main` makes: 1 and 2 are exchanged, and Bars 47 and 31 are exchanged. */
  method SwapExamples() returns (x: int, y: int, p: uint32, q: uint32)
    ensures x == 2 && y == 1 && p == 31 && q == 47
  {
    x, y := Swap(1, 2);
    var a := new Bar(47);
    var b := new Bar(31);
    BarSwap(a, b);
    p, q := a.value, b.value;
  }
}
