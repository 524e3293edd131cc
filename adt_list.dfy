/**
 * `adt::list` (list.cpp): the older doubly linked list. Its node layout,
 * constructors, `push_*`, `pop_*`, `front`, `back`, `size`, `empty`,
 * `clear`, moves and iterators are the same code as `cxx::list` and are
 * modelled by `CxxList.List`; what differs is copy assignment, which clears
 * the list first and then appends every element of the source.
 */
module AdtList {
  import opened CxxList

  /**
   * `list& operator = (const list& l)`: `clear()`, then `push_back` each
   * element of `l`. Assigning a list to itself therefore empties it.
   */
  method CopyAssign<T>(self: List<T>, other: List<T>)
    requires self.Valid() && other.Valid()
    requires other == self || self.Repr !! other.Repr
    modifies self.Repr
    ensures self.Valid() && other.Valid()
    ensures self.contents == (if other == self then [] else old(other.contents))
    ensures other != self ==> other.contents == old(other.contents)
  {
    self.Clear();
    var it := other.head;
    ghost var k := 0;
    if other == self {
      assert it == null;
    }
    while it != null
      invariant self.Valid() && other.Valid() && fresh(self.Repr - old(self.Repr))
      invariant other == self ==> it == null && self.contents == []
      invariant other != self ==> self.Repr !! other.Repr
      invariant other != self ==> other.contents == old(other.contents) && other.nodes == old(other.nodes)
      invariant 0 <= k <= |other.nodes|
      invariant it == (if k == |other.nodes| then null else other.nodes[k])
      invariant other != self ==> self.contents == other.contents[..k]
      decreases |other.nodes| - k
    {
      self.PushBack(it.value);
      it := it.next;
      k := k + 1;
    }
    if other != self {
      assert other.contents[..k] == other.contents;
    }
  }

  /** The push/pop test of list.cpp: each step leaves exactly the listed contents. */
  method PushPopFrontBack() returns (final: seq<char>)
    ensures final == ['9', '7']
  {
    var list := PushPhase();
    PopPhase(list);
    final := [list.Front(), list.Back()];
  }

  /** The first half of the test: from {'%', '9', '9'}, push back, push front and push back. */
  method PushPhase() returns (list: List<char>)
    ensures fresh(list.Repr) && list.Valid()
    ensures list.contents == ['&', '%', '9', '9', '4', '~']
  {
    list := new List.FromSeq(['%', '9', '9']);
    list.PushBack('4');
    assert list.contents == ['%', '9', '9', '4'];
    list.PushFront('&');
    assert list.contents == ['&', '%', '9', '9', '4'];
    list.PushBack('~');
  }

  /** The second half of the test: pops from both ends and a final push. */
  method PopPhase(list: List<char>)
    requires list.Valid() && list.contents == ['&', '%', '9', '9', '4', '~']
    modifies list.Repr
    ensures list.Valid() && list.contents == ['9', '7']
  {
    list.PopBack();
    assert list.contents == ['&', '%', '9', '9', '4'];
    list.PopFront();
    assert list.contents == ['%', '9', '9', '4'];
    list.PopBack();
    assert list.contents == ['%', '9', '9'];
    list.PopBack();
    assert list.contents == ['%', '9'];
    list.PopFront();
    assert list.contents == ['9'];
    list.PushBack('7');
  }
}
