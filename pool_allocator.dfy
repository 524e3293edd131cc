/**
 * The free-list `Allocator` (allocator/allocator.cpp): one pool obtained
 * from `malloc`, a vector of free blocks and a vector of occupied blocks.
 * `Alloc` carves a block out of a free block and returns the rest to the
 * free list; `Free` merges the freed block with a free neighbour on either
 * side, keeping the invariant that no two free blocks are adjacent.
 *
 * Addresses are natural numbers; the null pointer is address 0. The pool's
 * address is a parameter standing for the result of `malloc`.
 */
module PoolAllocator {
  import opened Wrappers

  /** `Block`: a start address and a size in bytes. */
  datatype Block = Block(data: nat, size: nat)
  {
    /** One past the last byte. */
    function End(): nat
    {
      data + size
    }

    /** The byte at address `x` belongs to the block. */
    predicate Within(x: int)
    {
      data <= x < End()
    }
  }

  /** `a` ends exactly where `b` starts. */
  predicate Adjacent(a: Block, b: Block)
  {
    a.End() == b.data
  }

  /** `a` and `b` share no byte and neither lies strictly inside the other. */
  predicate Apart(a: Block, b: Block)
  {
    a.End() <= b.data || b.End() <= a.data
  }

  /** The invariant `Free` relies on: there cannot be two adjacent free blocks. */
  ghost predicate NoAdjacent(blocks: seq<Block>)
  {
    forall i, j :: 0 <= i < |blocks| && 0 <= j < |blocks| && i != j ==> !Adjacent(blocks[i], blocks[j])
  }

  /** Distinct free blocks do not overlap. */
  ghost predicate Disjoint(blocks: seq<Block>)
  {
    forall i, j :: 0 <= i < |blocks| && 0 <= j < |blocks| && i != j ==> Apart(blocks[i], blocks[j])
  }

  /** Some block of the list holds the byte at address `x`. */
  ghost predicate Covers(blocks: seq<Block>, x: int)
  {
    exists i :: 0 <= i < |blocks| && blocks[i].Within(x)
  }

  /** `vector::erase` at index `i`. */
  function Remove(blocks: seq<Block>, i: nat): (r: seq<Block>)
    requires i < |blocks|
    ensures |r| == |blocks| - 1
    ensures forall k :: 0 <= k < i ==> r[k] == blocks[k]
    ensures forall k :: i <= k < |r| ==> r[k] == blocks[k + 1]
  {
    blocks[..i] + blocks[i + 1..]
  }

  /** `std::min_element` by size: the first block of least size. */
  function MinIndex(blocks: seq<Block>): (m: nat)
    requires |blocks| > 0
    ensures m < |blocks|
    ensures forall j :: 0 <= j < |blocks| ==> blocks[m].size <= blocks[j].size
    ensures forall j :: 0 <= j < m ==> blocks[j].size > blocks[m].size
  {
    if |blocks| == 1 then 0
    else
      var m := MinIndex(blocks[..|blocks| - 1]);
      if blocks[|blocks| - 1].size < blocks[m].size then |blocks| - 1 else m
  }

  /**
   * Best fit: the first of the free blocks of least size among those at
   * least `size` bytes long, or `None` when no free block is large enough.
   */
  function BestFit(blocks: seq<Block>, size: nat): (r: Option<nat>)
    ensures r.None? <==> forall j :: 0 <= j < |blocks| ==> blocks[j].size < size
    ensures r.Some? ==> r.value < |blocks| && blocks[r.value].size >= size
    ensures r.Some? ==> forall j :: 0 <= j < |blocks| && blocks[j].size >= size ==> blocks[r.value].size <= blocks[j].size
    ensures r.Some? ==> forall j :: 0 <= j < r.value && blocks[j].size >= size ==> blocks[j].size > blocks[r.value].size
  {
    if |blocks| == 0 then None
    else
      var prefix := BestFit(blocks[..|blocks| - 1], size);
      var last := blocks[|blocks| - 1];
      if last.size < size then prefix
      else if prefix.None? || last.size < blocks[prefix.value].size then Some(|blocks| - 1)
      else prefix
  }

  /**
   * The free list after carving `size` bytes out of free block `i`: the
   * block is erased, and the remainder `(data + size, blockSize - size)` is
   * appended when the request is smaller than the block.
   */
  function AllocResult(blocks: seq<Block>, i: nat, size: nat): seq<Block>
    requires i < |blocks| && size <= blocks[i].size
  {
    Remove(blocks, i)
      + (if size < blocks[i].size then [Block(blocks[i].data + size, blocks[i].size - size)] else [])
  }

  /** `std::find_if` for a free block that ends where `block` starts. */
  function FindLeft(blocks: seq<Block>, block: Block): (r: Option<nat>)
    ensures r.Some? ==> r.value < |blocks| && Adjacent(blocks[r.value], block)
    ensures r.Some? ==> forall j :: 0 <= j < r.value ==> !Adjacent(blocks[j], block)
    ensures r.None? ==> forall j :: 0 <= j < |blocks| ==> !Adjacent(blocks[j], block)
  {
    if |blocks| == 0 then None
    else if Adjacent(blocks[0], block) then Some(0)
    else match FindLeft(blocks[1..], block)
      case None => None
      case Some(k) => Some(k + 1)
  }

  /** `std::find_if` for a free block that starts where `block` ends. */
  function FindRight(blocks: seq<Block>, block: Block): (r: Option<nat>)
    ensures r.Some? ==> r.value < |blocks| && Adjacent(block, blocks[r.value])
    ensures r.Some? ==> forall j :: 0 <= j < r.value ==> !Adjacent(block, blocks[j])
    ensures r.None? ==> forall j :: 0 <= j < |blocks| ==> !Adjacent(block, blocks[j])
  {
    if |blocks| == 0 then None
    else if Adjacent(block, blocks[0]) then Some(0)
    else match FindRight(blocks[1..], block)
      case None => None
      case Some(k) => Some(k + 1)
  }

  /** Both neighbours: the left one grows by the block and the right one, which is erased. */
  function MergeBoth(blocks: seq<Block>, block: Block, l: nat, r: nat): seq<Block>
    requires l < |blocks| && r < |blocks|
  {
    Remove(blocks[l := Block(blocks[l].data, blocks[l].size + blocks[r].size + block.size)], r)
  }

  /** Only a left neighbour: it grows by the block. */
  function GrowLeft(blocks: seq<Block>, block: Block, l: nat): seq<Block>
    requires l < |blocks|
  {
    blocks[l := Block(blocks[l].data, blocks[l].size + block.size)]
  }

  /** Only a right neighbour: it now starts at the block and grows by it. */
  function GrowRight(blocks: seq<Block>, block: Block, r: nat): seq<Block>
    requires r < |blocks|
  {
    blocks[r := Block(block.data, blocks[r].size + block.size)]
  }

  /**
   * The free list after `Free(block)`: with neighbours on both sides the left
   * one grows by the block and the right one, which is erased; with one
   * neighbour that neighbour absorbs the block; otherwise the block is
   * appended.
   */
  function Freed(blocks: seq<Block>, block: Block): seq<Block>
  {
    var left := FindLeft(blocks, block);
    var right := FindRight(blocks, block);
    if left.Some? && right.Some? then MergeBoth(blocks, block, left.value, right.value)
    else if left.Some? then GrowLeft(blocks, block, left.value)
    else if right.Some? then GrowRight(blocks, block, right.value)
    else blocks + [block]
  }

  /** Replacing block `i` by `b` keeps a no-adjacency list so when `b` has no new neighbour. */
  lemma ReplaceKeepsNoAdjacent(blocks: seq<Block>, i: nat, b: Block)
    requires i < |blocks| && NoAdjacent(blocks)
    requires forall j :: 0 <= j < |blocks| && j != i ==> !Adjacent(blocks[j], b) && !Adjacent(b, blocks[j])
    ensures NoAdjacent(blocks[i := b])
  {
  }

  /** Erasing a block keeps a no-adjacency list so. */
  lemma RemoveKeepsNoAdjacent(blocks: seq<Block>, i: nat)
    requires i < |blocks| && NoAdjacent(blocks)
    ensures NoAdjacent(Remove(blocks, i))
  {
    var r := Remove(blocks, i);
    forall a, b | 0 <= a < |r| && 0 <= b < |r| && a != b
      ensures !Adjacent(r[a], r[b])
    {
      var a' := if a < i then a else a + 1;
      var b' := if b < i then b else b + 1;
      assert r[a] == blocks[a'] && r[b] == blocks[b'];
    }
  }

  /** Erasing a block keeps a disjoint list so. */
  lemma RemoveKeepsDisjoint(blocks: seq<Block>, i: nat)
    requires i < |blocks| && Disjoint(blocks)
    ensures Disjoint(Remove(blocks, i))
  {
    var r := Remove(blocks, i);
    forall a, b | 0 <= a < |r| && 0 <= b < |r| && a != b
      ensures Apart(r[a], r[b])
    {
      var a' := if a < i then a else a + 1;
      var b' := if b < i then b else b + 1;
      assert r[a] == blocks[a'] && r[b] == blocks[b'];
    }
  }

  /** A left and a right neighbour of one block are the same block only when both have size zero. */
  lemma SameNeighbour(blocks: seq<Block>, block: Block, l: nat, r: nat)
    requires l < |blocks| && r < |blocks| && l == r
    requires Adjacent(blocks[l], block) && Adjacent(block, blocks[r])
    ensures blocks[l].size == 0 && block.size == 0
    ensures MergeBoth(blocks, block, l, r) == Remove(blocks, r)
  {
    assert blocks[l := Block(blocks[l].data, blocks[l].size + blocks[r].size + block.size)] == blocks;
  }

  /** Merging both neighbours keeps the free list free of adjacent pairs. */
  lemma {:induction false} MergeBothKeepsNoAdjacent(blocks: seq<Block>, block: Block, l: nat, r: nat)
    requires l < |blocks| && r < |blocks| && NoAdjacent(blocks)
    requires Adjacent(blocks[l], block) && Adjacent(block, blocks[r])
    ensures NoAdjacent(MergeBoth(blocks, block, l, r))
  {
    if l == r {
      SameNeighbour(blocks, block, l, r);
      RemoveKeepsNoAdjacent(blocks, r);
    } else {
      var grown := Block(blocks[l].data, blocks[l].size + blocks[r].size + block.size);
      assert grown.End() == blocks[r].End();
      var merged := blocks[l := grown];
      var gone := Remove(merged, r);
      forall a, b | 0 <= a < |gone| && 0 <= b < |gone| && a != b
        ensures !Adjacent(gone[a], gone[b])
      {
        var a' := if a < r then a else a + 1;
        var b' := if b < r then b else b + 1;
        assert gone[a] == merged[a'] && gone[b] == merged[b'];
        if a' == l {
          assert !Adjacent(blocks[r], blocks[b']);
        } else if b' == l {
          assert !Adjacent(blocks[a'], blocks[l]);
        }
      }
      assert MergeBoth(blocks, block, l, r) == gone;
    }
  }

  /** `Free` keeps the invariant that no two free blocks are adjacent, whatever block is freed. */
  lemma {:induction false} FreedKeepsNoAdjacent(blocks: seq<Block>, block: Block)
    requires NoAdjacent(blocks)
    ensures NoAdjacent(Freed(blocks, block))
  {
    var left := FindLeft(blocks, block);
    var right := FindRight(blocks, block);
    if left.Some? && right.Some? {
      MergeBothKeepsNoAdjacent(blocks, block, left.value, right.value);
    } else if left.Some? {
      var l := left.value;
      ReplaceKeepsNoAdjacent(blocks, l, Block(blocks[l].data, blocks[l].size + block.size));
    } else if right.Some? {
      var r := right.value;
      ReplaceKeepsNoAdjacent(blocks, r, Block(block.data, blocks[r].size + block.size));
    }
  }

  /** Merging both neighbours neither loses nor invents free bytes. */
  lemma {:induction false} MergeBothCovers(blocks: seq<Block>, block: Block, l: nat, r: nat, x: int)
    requires l < |blocks| && r < |blocks|
    requires Adjacent(blocks[l], block) && Adjacent(block, blocks[r])
    ensures Covers(MergeBoth(blocks, block, l, r), x) <==> Covers(blocks, x) || block.Within(x)
  {
    var after := MergeBoth(blocks, block, l, r);
    if l == r {
      SameNeighbour(blocks, block, l, r);
      if Covers(after, x) {
        var k :| 0 <= k < |after| && after[k].Within(x);
        var k' := if k < r then k else k + 1;
        assert after[k] == blocks[k'];
      }
      if Covers(blocks, x) {
        var k :| 0 <= k < |blocks| && blocks[k].Within(x);
        var k' := if k < r then k else k - 1;
        assert after[k'] == blocks[k];
      }
    } else {
      var grown := Block(blocks[l].data, blocks[l].size + blocks[r].size + block.size);
      var merged := blocks[l := grown];
      assert after == Remove(merged, r);
      var l' := if l < r then l else l - 1;
      assert after[l'] == grown;
      if Covers(after, x) {
        var k :| 0 <= k < |after| && after[k].Within(x);
        var k' := if k < r then k else k + 1;
        assert after[k] == merged[k'];
        if k' != l {
          assert blocks[k'].Within(x);
        } else if !block.Within(x) && !blocks[l].Within(x) {
          assert blocks[r].Within(x);
        }
      }
      if Covers(blocks, x) && !grown.Within(x) {
        var k :| 0 <= k < |blocks| && blocks[k].Within(x);
        assert k != l && k != r;
        var k' := if k < r then k else k - 1;
        assert after[k'] == blocks[k];
      }
    }
  }

  /** Growing one neighbour by the block neither loses nor invents free bytes. */
  lemma {:induction false} GrowCovers(blocks: seq<Block>, block: Block, i: nat, grown: Block, x: int)
    requires i < |blocks|
    requires grown.Within(x) <==> blocks[i].Within(x) || block.Within(x)
    ensures Covers(blocks[i := grown], x) <==> Covers(blocks, x) || block.Within(x)
  {
    var after := blocks[i := grown];
    assert after[i] == grown;
    if Covers(after, x) {
      var k :| 0 <= k < |after| && after[k].Within(x);
      if k != i {
        assert blocks[k].Within(x);
      }
    }
    if Covers(blocks, x) && !grown.Within(x) {
      var k :| 0 <= k < |blocks| && blocks[k].Within(x);
      assert after[k] == blocks[k];
    }
  }

  /** Appending the block adds exactly its bytes. */
  lemma {:induction false} AppendCovers(blocks: seq<Block>, block: Block, x: int)
    ensures Covers(blocks + [block], x) <==> Covers(blocks, x) || block.Within(x)
  {
    var after := blocks + [block];
    if Covers(after, x) {
      var k :| 0 <= k < |after| && after[k].Within(x);
      if k < |blocks| {
        assert blocks[k].Within(x);
      }
    }
    if Covers(blocks, x) {
      var k :| 0 <= k < |blocks| && blocks[k].Within(x);
      assert after[k] == blocks[k];
    }
    if block.Within(x) {
      assert after[|blocks|] == block;
    }
  }

  /** `Free` neither loses nor invents free bytes: afterwards the free list covers the old free bytes and the block. */
  lemma {:induction false} FreedCovers(blocks: seq<Block>, block: Block)
    ensures forall x :: Covers(Freed(blocks, block), x) <==> Covers(blocks, x) || block.Within(x)
  {
    var left := FindLeft(blocks, block);
    var right := FindRight(blocks, block);
    forall x
      ensures Covers(Freed(blocks, block), x) <==> Covers(blocks, x) || block.Within(x)
    {
      if left.Some? && right.Some? {
        MergeBothCovers(blocks, block, left.value, right.value, x);
      } else if left.Some? {
        var l := left.value;
        GrowCovers(blocks, block, l, Block(blocks[l].data, blocks[l].size + block.size), x);
      } else if right.Some? {
        var r := right.value;
        GrowCovers(blocks, block, r, Block(block.data, blocks[r].size + block.size), x);
      } else {
        AppendCovers(blocks, block, x);
      }
    }
  }

  /** Replacing block `i` by `b` keeps a disjoint list so when `b` overlaps no other block. */
  lemma ReplaceKeepsDisjoint(blocks: seq<Block>, i: nat, b: Block)
    requires i < |blocks| && Disjoint(blocks)
    requires forall j :: 0 <= j < |blocks| && j != i ==> Apart(blocks[j], b)
    ensures Disjoint(blocks[i := b])
  {
  }

  /**
   * A block apart from two adjacent blocks `a` and `b`, and not an empty
   * block sitting exactly where they meet, is apart from their union.
   */
  lemma ApartFromUnion(f: Block, a: Block, b: Block)
    requires Adjacent(a, b) && Apart(f, a) && Apart(f, b)
    requires !(Adjacent(a, f) && Adjacent(f, b))
    ensures Apart(f, Block(a.data, a.size + b.size))
  {
  }

  /** A block apart from a freed block and both its neighbours, and adjacent to neither neighbour, is apart from their union. */
  lemma ApartFromBothNeighbours(f: Block, l: Block, b: Block, r: Block)
    requires Adjacent(l, b) && Adjacent(b, r)
    requires Apart(f, l) && Apart(f, b) && Apart(f, r)
    requires !Adjacent(l, f) && !Adjacent(f, r)
    ensures Apart(f, Block(l.data, l.size + r.size + b.size))
  {
    ApartFromUnion(f, l, b);
    ApartFromUnion(f, Block(l.data, l.size + b.size), r);
  }

  /** Merging both neighbours keeps disjoint free blocks disjoint. */
  lemma {:induction false} MergeBothKeepsDisjoint(blocks: seq<Block>, block: Block, l: nat, r: nat)
    requires l < |blocks| && r < |blocks| && Disjoint(blocks) && NoAdjacent(blocks)
    requires Adjacent(blocks[l], block) && Adjacent(block, blocks[r])
    requires forall j :: 0 <= j < |blocks| ==> Apart(blocks[j], block)
    ensures Disjoint(MergeBoth(blocks, block, l, r))
  {
    if l == r {
      SameNeighbour(blocks, block, l, r);
      RemoveKeepsDisjoint(blocks, r);
    } else {
      var grown := Block(blocks[l].data, blocks[l].size + blocks[r].size + block.size);
      GrownApart(blocks, block, l, r);
      RemoveReplacedKeepsDisjoint(blocks, l, r, grown);
      assert MergeBoth(blocks, block, l, r) == Remove(blocks[l := grown], r);
    }
  }

  /** The block grown over both neighbours is apart from every other free block. */
  lemma GrownApart(blocks: seq<Block>, block: Block, l: nat, r: nat)
    requires l < |blocks| && r < |blocks| && l != r && Disjoint(blocks) && NoAdjacent(blocks)
    requires Adjacent(blocks[l], block) && Adjacent(block, blocks[r])
    requires forall j :: 0 <= j < |blocks| ==> Apart(blocks[j], block)
    ensures forall j :: 0 <= j < |blocks| && j != l && j != r ==>
      Apart(blocks[j], Block(blocks[l].data, blocks[l].size + blocks[r].size + block.size))
  {
    forall j | 0 <= j < |blocks| && j != l && j != r
      ensures Apart(blocks[j], Block(blocks[l].data, blocks[l].size + blocks[r].size + block.size))
    {
      assert !Adjacent(blocks[l], blocks[j]) && !Adjacent(blocks[j], blocks[r]);
      ApartFromBothNeighbours(blocks[j], blocks[l], block, blocks[r]);
    }
  }

  /** Replacing one block by a block apart from all others but a second one, and removing that second one, keeps the blocks disjoint. */
  lemma RemoveReplacedKeepsDisjoint(blocks: seq<Block>, l: nat, r: nat, grown: Block)
    requires l < |blocks| && r < |blocks| && l != r && Disjoint(blocks)
    requires forall j :: 0 <= j < |blocks| && j != l && j != r ==> Apart(blocks[j], grown)
    ensures Disjoint(Remove(blocks[l := grown], r))
  {
    var merged := blocks[l := grown];
    var gone := Remove(merged, r);
    forall a, b | 0 <= a < |gone| && 0 <= b < |gone| && a != b
      ensures Apart(gone[a], gone[b])
    {
      var a' := if a < r then a else a + 1;
      var b' := if b < r then b else b + 1;
      assert gone[a] == merged[a'] && gone[b] == merged[b'];
    }
  }

  /** Freeing a block that overlaps no free block keeps the free blocks disjoint. */
  lemma {:induction false} FreedKeepsDisjoint(blocks: seq<Block>, block: Block)
    requires Disjoint(blocks) && NoAdjacent(blocks)
    requires forall j :: 0 <= j < |blocks| ==> Apart(blocks[j], block)
    ensures Disjoint(Freed(blocks, block))
  {
    var left := FindLeft(blocks, block);
    var right := FindRight(blocks, block);
    if left.Some? && right.Some? {
      MergeBothKeepsDisjoint(blocks, block, left.value, right.value);
    } else if left.Some? {
      var l := left.value;
      forall j | 0 <= j < |blocks| && j != l
        ensures Apart(blocks[j], Block(blocks[l].data, blocks[l].size + block.size))
      {
        ApartFromUnion(blocks[j], blocks[l], block);
      }
      ReplaceKeepsDisjoint(blocks, l, Block(blocks[l].data, blocks[l].size + block.size));
    } else if right.Some? {
      var r := right.value;
      forall j | 0 <= j < |blocks| && j != r
        ensures Apart(blocks[j], Block(block.data, blocks[r].size + block.size))
      {
        ApartFromUnion(blocks[j], block, blocks[r]);
      }
      ReplaceKeepsDisjoint(blocks, r, Block(block.data, blocks[r].size + block.size));
    }
  }

  /** Carving a block keeps the free blocks disjoint and free of adjacent pairs. */
  lemma {:induction false} AllocKeepsInvariant(blocks: seq<Block>, i: nat, size: nat)
    requires i < |blocks| && size <= blocks[i].size
    requires NoAdjacent(blocks) && Disjoint(blocks)
    ensures NoAdjacent(AllocResult(blocks, i, size)) && Disjoint(AllocResult(blocks, i, size))
  {
    RemoveKeepsNoAdjacent(blocks, i);
    RemoveKeepsDisjoint(blocks, i);
    var rest := Remove(blocks, i);
    if size < blocks[i].size {
      var remainder := Block(blocks[i].data + size, blocks[i].size - size);
      forall j | 0 <= j < |rest|
        ensures Apart(rest[j], remainder) && !Adjacent(rest[j], remainder) && !Adjacent(remainder, rest[j])
      {
        var j' := if j < i then j else j + 1;
        assert rest[j] == blocks[j'];
        assert Apart(blocks[j'], blocks[i]) && !Adjacent(blocks[i], blocks[j']);
      }
      var after := rest + [remainder];
      assert after == AllocResult(blocks, i, size);
      forall a, b | 0 <= a < |after| && 0 <= b < |after| && a != b
        ensures Apart(after[a], after[b]) && !Adjacent(after[a], after[b])
      {
        if a < |rest| && b < |rest| {
          assert after[a] == rest[a] && after[b] == rest[b];
        }
      }
    } else {
      assert AllocResult(blocks, i, size) == rest;
    }
  }

  /** Every byte left free after carving was free before and is not in the carved block. */
  lemma {:induction false} AllocCoversOnlyOld(blocks: seq<Block>, i: nat, size: nat, x: int)
    requires i < |blocks| && size <= blocks[i].size && Disjoint(blocks)
    requires Covers(AllocResult(blocks, i, size), x)
    ensures Covers(blocks, x) && !Block(blocks[i].data, size).Within(x)
  {
    var after := AllocResult(blocks, i, size);
    var rest := Remove(blocks, i);
    var k :| 0 <= k < |after| && after[k].Within(x);
    if k < |rest| {
      var k' := if k < i then k else k + 1;
      assert after[k] == blocks[k'];
      assert Apart(blocks[k'], blocks[i]);
    } else {
      assert blocks[i].Within(x);
    }
  }

  /** Every byte free before carving and outside the carved block stays free. */
  lemma {:induction false} AllocCoversRest(blocks: seq<Block>, i: nat, size: nat, x: int)
    requires i < |blocks| && size <= blocks[i].size
    requires Covers(blocks, x) && !Block(blocks[i].data, size).Within(x)
    ensures Covers(AllocResult(blocks, i, size), x)
  {
    var after := AllocResult(blocks, i, size);
    var rest := Remove(blocks, i);
    var k :| 0 <= k < |blocks| && blocks[k].Within(x);
    if k == i {
      assert after[|rest|].Within(x);
    } else {
      var k' := if k < i then k else k - 1;
      assert after[k'] == blocks[k];
    }
  }

  /** After carving `size` bytes at the start of block `i`, the free bytes are the old ones minus the carved block. */
  lemma {:induction false} AllocCovers(blocks: seq<Block>, i: nat, size: nat)
    requires i < |blocks| && size <= blocks[i].size && Disjoint(blocks)
    ensures forall x :: (Covers(AllocResult(blocks, i, size), x)
        <==> Covers(blocks, x) && !Block(blocks[i].data, size).Within(x))
  {
    forall x
      ensures Covers(AllocResult(blocks, i, size), x)
        <==> Covers(blocks, x) && !Block(blocks[i].data, size).Within(x)
    {
      if Covers(AllocResult(blocks, i, size), x) {
        AllocCoversOnlyOld(blocks, i, size, x);
      }
      if Covers(blocks, x) && !Block(blocks[i].data, size).Within(x) {
        AllocCoversRest(blocks, i, size, x);
      }
    }
  }

  /**
   * `Alloc` as written takes the smallest free block whatever its size. It
   * is called here with a request no larger than that block; a larger
   * request yields a block running past the free memory it came from.
   */
  function AllocAsWritten(blocks: seq<Block>, size: nat): (r: (Block, seq<Block>))
    requires |blocks| > 0
    ensures r.0 == Block(blocks[MinIndex(blocks)].data, size)
  {
    var i := MinIndex(blocks);
    var chosen := blocks[i];
    (Block(chosen.data, size),
     Remove(blocks, i) + (if size < chosen.size then [Block(chosen.data + size, chosen.size - size)] else []))
  }

  /**
   * With free blocks of 8 and 64 bytes, `Alloc(32)` as written takes the
   * 8-byte block and returns 32 bytes starting there, which overlap the
   * 64-byte block that stays in the free list; best fit takes the 64-byte
   * block instead.
   */
  lemma AllocAsWrittenOverlapsFreeMemory()
    ensures var blocks := [Block(100, 8), Block(108 + 8, 64)];
      var (block, rest) := AllocAsWritten(blocks, 32);
      block == Block(100, 32) && rest == [Block(116, 64)] && !Apart(block, rest[0])
      && BestFit(blocks, 32) == Some(1)
  {
    var blocks := [Block(100, 8), Block(108 + 8, 64)];
    assert blocks[..1] == [Block(100, 8)];
    assert MinIndex(blocks[..1]) == 0;
    assert BestFit(blocks[..1], 32) == None;
  }

  /** A block carved by best fit lies inside free memory and overlaps no block left free. */
  lemma {:induction false} BestFitBlockIsFree(blocks: seq<Block>, size: nat)
    requires Disjoint(blocks) && BestFit(blocks, size).Some?
    ensures var i := BestFit(blocks, size).value;
      var block := Block(blocks[i].data, size);
      var after := AllocResult(blocks, i, size);
      (forall x :: block.Within(x) ==> Covers(blocks, x))
      && (forall j :: 0 <= j < |after| ==> Apart(after[j], block))
  {
    var i := BestFit(blocks, size).value;
    var block := Block(blocks[i].data, size);
    var after := AllocResult(blocks, i, size);
    var rest := Remove(blocks, i);
    forall x | block.Within(x)
      ensures Covers(blocks, x)
    {
      assert blocks[i].Within(x);
    }
    forall j | 0 <= j < |after|
      ensures Apart(after[j], block)
    {
      if j < |rest| {
        var j' := if j < i then j else j + 1;
        assert after[j] == blocks[j'];
        assert Apart(blocks[j'], blocks[i]);
      }
    }
  }

  /** What `Free` guarantees about the free list, gathered for one call. */
  lemma FreedFacts(blocks: seq<Block>, block: Block)
    ensures NoAdjacent(blocks) ==> NoAdjacent(Freed(blocks, block))
    ensures NoAdjacent(blocks) && Disjoint(blocks) && (forall j :: 0 <= j < |blocks| ==> Apart(blocks[j], block))
        ==> Disjoint(Freed(blocks, block))
    ensures forall x :: (Covers(Freed(blocks, block), x) <==> Covers(blocks, x) || block.Within(x))
  {
    if NoAdjacent(blocks) {
      FreedKeepsNoAdjacent(blocks, block);
      if Disjoint(blocks) && forall j :: 0 <= j < |blocks| ==> Apart(blocks[j], block) {
        FreedKeepsDisjoint(blocks, block);
      }
    }
    FreedCovers(blocks, block);
  }

  class Allocator {
    var pool: Block
    var freeBlocks: seq<Block>
    var occupiedBlocks: seq<Block>

    /** No two free blocks are adjacent, and no two overlap. */
    ghost predicate Valid()
      reads this
    {
      NoAdjacent(freeBlocks) && Disjoint(freeBlocks)
    }

    /** The default constructor: a null pool and no blocks. */
    constructor Empty()
      ensures Valid() && pool == Block(0, 0) && freeBlocks == [] && occupiedBlocks == []
    {
      pool := Block(0, 0);
      freeBlocks := [];
      occupiedBlocks := [];
    }

    /**
     * The sized constructor: `malloc(size)`, given as the address `base`,
     * which is asserted not to be null, becomes the pool and its one free
     * block.
     */
    constructor (size: nat, base: nat)
      requires base != 0
      ensures Valid() && pool == Block(base, size)
      ensures freeBlocks == [pool] && occupiedBlocks == []
    {
      pool := Block(base, size);
      freeBlocks := [Block(base, size)];
      occupiedBlocks := [];
    }

    /** The move constructor: takes the pool and both lists and leaves `other` with none. */
    constructor Move(other: Allocator)
      modifies other
      ensures pool == old(other.pool) && freeBlocks == old(other.freeBlocks)
      ensures occupiedBlocks == old(other.occupiedBlocks)
      ensures other.pool == Block(0, 0) && other.freeBlocks == [] && other.occupiedBlocks == []
    {
      pool := other.pool;
      freeBlocks := other.freeBlocks;
      occupiedBlocks := other.occupiedBlocks;
      new;
      other.pool := Block(0, 0);
      other.freeBlocks := [];
      other.occupiedBlocks := [];
    }

    /** Move assignment: the same transfer; moving an allocator into itself leaves it with nothing. */
    method MoveAssign(other: Allocator)
      modifies this, other
      ensures other != this ==> pool == old(other.pool) && freeBlocks == old(other.freeBlocks)
      ensures other != this ==> occupiedBlocks == old(other.occupiedBlocks)
      ensures other.pool == Block(0, 0) && other.freeBlocks == [] && other.occupiedBlocks == []
    {
      pool := other.pool;
      freeBlocks := other.freeBlocks;
      occupiedBlocks := other.occupiedBlocks;
      other.pool := Block(0, 0);
      other.freeBlocks := [];
      other.occupiedBlocks := [];
    }

    /**
     * `Alloc(size)` with best fit: the smallest free block that can hold the
     * request is erased from the free list, a block of exactly `size` bytes at
     * its start is recorded as occupied and returned, and any remainder goes
     * back to the free list.
     */
    method Alloc(size: nat) returns (block: Block)
      requires Valid() && BestFit(freeBlocks, size).Some?
      modifies this
      ensures Valid() && pool == old(pool)
      ensures var i := BestFit(old(freeBlocks), size).value;
        block == Block(old(freeBlocks)[i].data, size)
        && freeBlocks == AllocResult(old(freeBlocks), i, size)
      ensures occupiedBlocks == old(occupiedBlocks) + [block]
      ensures forall x :: Covers(freeBlocks, x) <==> Covers(old(freeBlocks), x) && !block.Within(x)
    {
      var i := BestFit(freeBlocks, size).value;
      AllocKeepsInvariant(freeBlocks, i, size);
      AllocCovers(freeBlocks, i, size);
      ghost var before := freeBlocks;
      var chosen := freeBlocks[i];
      freeBlocks := Remove(freeBlocks, i);
      occupiedBlocks := occupiedBlocks + [Block(chosen.data, size)];
      if occupiedBlocks[|occupiedBlocks| - 1].size < chosen.size {
        freeBlocks := freeBlocks + [Block(chosen.data + size, chosen.size - size)];
      }
      block := occupiedBlocks[|occupiedBlocks| - 1];
      assert freeBlocks == AllocResult(before, i, size);
    }

    /**
     * `Free(block)`: merges the block into a left and/or right free
     * neighbour, or appends it. The block stays in the occupied list.
     */
    method Free(block: Block)
      modifies this
      ensures freeBlocks == Freed(old(freeBlocks), block)
      ensures pool == old(pool) && occupiedBlocks == old(occupiedBlocks)
      ensures old(NoAdjacent(freeBlocks)) ==> NoAdjacent(freeBlocks)
      ensures old(Valid()) && (forall j :: 0 <= j < |old(freeBlocks)| ==> Apart(old(freeBlocks)[j], block)) ==> Valid()
      ensures forall x :: Covers(freeBlocks, x) <==> Covers(old(freeBlocks), x) || block.Within(x)
    {
      ghost var before := freeBlocks;
      FreedFacts(before, block);
      var left := FindLeft(freeBlocks, block);
      var right := FindRight(freeBlocks, block);
      if left.Some? && right.Some? {
        var l, r := left.value, right.value;
        freeBlocks := freeBlocks[l := Block(freeBlocks[l].data, freeBlocks[l].size + freeBlocks[r].size + block.size)];
        freeBlocks := Remove(freeBlocks, r);
        assert freeBlocks == MergeBoth(before, block, l, r);
      } else if left.Some? {
        var l := left.value;
        freeBlocks := freeBlocks[l := Block(freeBlocks[l].data, freeBlocks[l].size + block.size)];
        assert freeBlocks == GrowLeft(before, block, l);
      } else if right.Some? {
        var r := right.value;
        freeBlocks := freeBlocks[r := Block(block.data, freeBlocks[r].size + block.size)];
        assert freeBlocks == GrowRight(before, block, r);
      } else {
        freeBlocks := freeBlocks + [block];
      }
    }
  }

  /**
   * The program's own run: a 128-byte pool, `Alloc(32)` and `Free` of that
   * block; the freed block merges with the 96-byte remainder, so the pool
   * is again one free block.
   */
  method AllocFreeRoundTrip(base: nat) returns (carved: Block, free: seq<Block>)
    requires base != 0
    ensures carved == Block(base, 32) && free == [Block(base, 128)]
  {
    var allocator := new Allocator(128, base);
    carved := allocator.Alloc(32);
    allocator.Free(carved);
    free := allocator.freeBlocks;
  }
}
