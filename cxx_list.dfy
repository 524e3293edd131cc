/**
 * `cxx::list` (data-structures/include/cxx/list.hxx): a doubly linked list
 * whose nodes carry `next`, `prev` and a value, with `head`, `tail` and
 * `length` fields in the list object.
 *
 * The ghost sequence `nodes` lists the nodes from head to tail and the ghost
 * sequence `contents` their values; `Valid()` ties both to the links.
 * Iterators are node pointers, and `end()` is the null pointer.
 */
module CxxList {

  /** `list::node` */
  class Node<T> {
    var next: Node?<T>
    var prev: Node?<T>
    var value: T

    constructor (next: Node?<T>, prev: Node?<T>, value: T)
      ensures this.next == next && this.prev == prev && this.value == value
    {
      this.next, this.prev, this.value := next, prev, value;
    }
  }

  class List<T> {
    var head: Node?<T>
    var tail: Node?<T>
    var length: nat

    ghost var nodes: seq<Node<T>>
    ghost var contents: seq<T>
    ghost var Repr: set<object>

    /** The node chain from `head` follows `next` to `tail` and `prev` back, holding `contents`. */
    ghost predicate Valid()
      reads this, Repr
    {
      this in Repr
      && |nodes| == |contents| == length
      && (forall i | 0 <= i < |nodes| :: nodes[i] in Repr)
      && (forall i, j | 0 <= i < j < |nodes| :: nodes[i] != nodes[j])
      && (forall i {:trigger nodes[i].value} | 0 <= i < |nodes| :: nodes[i].value == contents[i])
      && (forall i {:trigger nodes[i].prev} | 0 <= i < |nodes| :: nodes[i].prev == (if i == 0 then null else nodes[i - 1]))
      && (forall i {:trigger nodes[i].next} | 0 <= i < |nodes| :: nodes[i].next == (if i + 1 == |nodes| then null else nodes[i + 1]))
      && head == (if |nodes| == 0 then null else nodes[0])
      && tail == (if |nodes| == 0 then null else nodes[|nodes| - 1])
    }

    /** The default constructor: no nodes, `begin() == end()`. */
    constructor ()
      ensures Valid() && fresh(Repr)
      ensures contents == [] && Begin() == End()
    {
      head, tail, length := null, null, 0;
      nodes, contents := [], [];
      Repr := {this};
    }

    /** The initializer-list constructor: `push_back` of each element in order. */
    constructor FromSeq(init: seq<T>)
      ensures Valid() && fresh(Repr)
      ensures contents == init
    {
      head, tail, length := null, null, 0;
      nodes, contents := [], [];
      Repr := {this};
      new;
      var i := 0;
      while i < |init|
        invariant 0 <= i <= |init|
        invariant Valid() && fresh(Repr)
        invariant contents == init[..i]
      {
        PushBack(init[i]);
        i := i + 1;
      }
      assert init[..i] == init;
    }

    /** The copy constructor: `push_back` of each element of `other`, read through its iterators. */
    constructor Copy(other: List<T>)
      requires other.Valid()
      ensures Valid() && fresh(Repr)
      ensures contents == other.contents
    {
      head, tail, length := null, null, 0;
      nodes, contents := [], [];
      Repr := {this};
      new;
      var it := other.head;
      ghost var i := 0;
      while it != null
        invariant Valid() && fresh(Repr)
        invariant 0 <= i <= |other.nodes|
        invariant it == (if i == |other.nodes| then null else other.nodes[i])
        invariant contents == other.contents[..i]
        decreases |other.nodes| - i
      {
        PushBack(it.value);
        it := it.next;
        i := i + 1;
      }
      assert other.contents[..i] == other.contents;
    }

    /** `begin()`: the head node. */
    function Begin(): (it: Node?<T>)
      reads this, Repr
      requires Valid()
      ensures it == End() <==> contents == []
      ensures it != null ==> it.value == contents[0]
    {
      head
    }

    /** `end()`: the null pointer. */
    function End(): Node?<T>
    {
      null
    }

    /** `size()` */
    function Size(): (n: nat)
      reads this, Repr
      requires Valid()
      ensures n == |contents|
    {
      length
    }

    /** `empty()` */
    predicate Empty()
      reads this, Repr
      requires Valid()
      ensures Empty() <==> contents == []
    {
      length == 0
    }

    /** `front()`: asserts a head node and returns its value. */
    function Front(): (v: T)
      reads this, Repr
      requires Valid() && head != null
      ensures v == contents[0]
    {
      head.value
    }

    /** `back()`: asserts a tail node and returns its value. */
    function Back(): (v: T)
      reads this, Repr
      requires Valid() && tail != null
      ensures v == contents[|contents| - 1]
    {
      tail.value
    }

    /** `push_back`: a new node {nullptr, tail, value} becomes the tail. */
    method PushBack(value: T)
      requires Valid()
      modifies Repr
      ensures Valid() && fresh(Repr - old(Repr))
      ensures contents == old(contents) + [value]
    {
      var last := new Node(null, tail, value);
      if length == 0 {
        assert head == null && tail == null;
        head := last;
        tail := last;
      } else {
        assert tail != null && tail.next == null;
        tail.next := last;
        tail := last;
      }
      length := length + 1;
      nodes := nodes + [last];
      contents := contents + [value];
      Repr := Repr + {last};
    }

    /** `push_front`: a new node {head, nullptr, value} becomes the head. */
    method PushFront(value: T)
      requires Valid()
      modifies Repr
      ensures Valid() && fresh(Repr - old(Repr))
      ensures contents == [value] + old(contents)
    {
      var first := new Node(head, null, value);
      if length == 0 {
        assert head == null && tail == null;
        head := first;
        tail := first;
      } else {
        assert head != null && head.prev == null;
        head.prev := first;
        head := first;
      }
      length := length + 1;
      nodes := [first] + nodes;
      contents := [value] + contents;
      Repr := Repr + {first};
    }

    /** `pop_front`: asserts a non-empty list and unlinks the head node. */
    method PopFront()
      requires Valid() && length > 0 && head != null
      modifies Repr
      ensures Valid() && Repr <= old(Repr)
      ensures contents == old(contents)[1..]
    {
      var first := head;
      if length == 1 {
        head := null;
        tail := null;
      } else {
        head := first.next;
        head.prev := null;
      }
      length := length - 1;
      nodes := nodes[1..];
      contents := contents[1..];
      Repr := Repr - {first};
    }

    /** `pop_back`: asserts a non-empty list and unlinks the tail node. */
    method PopBack()
      requires Valid() && length > 0 && tail != null
      modifies Repr
      ensures Valid() && Repr <= old(Repr)
      ensures contents == old(contents)[..|old(contents)| - 1]
    {
      var last := tail;
      if length == 1 {
        tail := null;
        head := null;
      } else {
        tail := last.prev;
        tail.next := null;
      }
      length := length - 1;
      nodes := nodes[..|nodes| - 1];
      contents := contents[..|contents| - 1];
      Repr := Repr - {last};
    }

    /** `clear()`: `pop_back` until empty. */
    method Clear()
      requires Valid()
      modifies Repr
      ensures Valid() && Repr <= old(Repr)
      ensures contents == []
    {
      while length != 0
        invariant Valid() && Repr <= old(Repr)
        decreases length
      {
        PopBack();
      }
    }

    /** The move constructor: takes `other`'s nodes and leaves `other` empty. */
    constructor Move(other: List<T>)
      requires other.Valid()
      modifies other
      ensures Valid() && other.Valid()
      ensures contents == old(other.contents) && other.contents == []
      ensures Repr == {this} + (old(other.Repr) - {other}) && other.Repr == {other}
    {
      head, tail, length := other.head, other.tail, other.length;
      nodes, contents := other.nodes, other.contents;
      Repr := {this} + (other.Repr - {other});
      new;
      other.head, other.tail, other.length := null, null, 0;
      other.nodes, other.contents := [], [];
      other.Repr := {other};
    }

    /** Move assignment: `clear()`, take `other`'s nodes and leave `other` empty. */
    method MoveAssign(other: List<T>)
      requires Valid() && other.Valid()
      requires other == this || Repr !! other.Repr
      modifies Repr, other
      ensures Valid() && other.Valid()
      ensures contents == (if other == this then [] else old(other.contents))
      ensures other.contents == []
    {
      Clear();
      StealFrom(other);
    }

    /** The second half of move assignment: take over `other`'s fields and null them. */
    method StealFrom(other: List<T>)
      requires Valid() && other.Valid() && contents == []
      requires other == this || Repr !! other.Repr
      modifies this, other
      ensures Valid() && other.Valid()
      ensures contents == (if other == this then [] else old(other.contents))
      ensures other.contents == []
    {
      head, tail, length := other.head, other.tail, other.length;
      nodes, contents := other.nodes, other.contents;
      Repr := {this} + (other.Repr - {other});
      if other != this {
        other.head, other.tail, other.length := null, null, 0;
        other.nodes, other.contents := [], [];
        other.Repr := {other};
      }
    }

    /**
     * Copy assignment: overwrite the common prefix element by element, then
     * `pop_back` while longer than `other`, then `push_back` the rest of
     * `other`. Self-assignment leaves the list as it was.
     */
    method CopyAssign(other: List<T>)
      requires Valid() && other.Valid()
      requires other == this || Repr !! other.Repr
      modifies Repr
      ensures Valid() && other.Valid() && fresh(Repr - old(Repr))
      ensures contents == old(other.contents) && other.contents == old(other.contents)
    {
      var otherIt, i := AssignCommonPrefix(other);
      ghost var repr0 := Repr;
      while length > other.length
        invariant Valid() && other.Valid() && Repr <= repr0
        invariant other == this || Repr !! other.Repr
        invariant other.contents == old(other.contents) && other.nodes == old(other.nodes)
        invariant i <= |contents| && contents[..i] == old(other.contents)[..i]
        invariant i == |other.contents| || i == |contents|
        decreases length
      {
        PopBack();
      }
      assert contents == other.contents[..i];
      AppendRest(other, otherIt, i);
    }

    /** The first loop of copy assignment: copy values while both iterators are valid. */
    method AssignCommonPrefix(other: List<T>) returns (otherIt: Node?<T>, ghost i: nat)
      requires Valid() && other.Valid()
      requires other == this || Repr !! other.Repr
      modifies Repr
      ensures Valid() && other.Valid() && Repr == old(Repr) && nodes == old(nodes)
      ensures other.contents == old(other.contents) && other.nodes == old(other.nodes)
      ensures i == (if |contents| < |other.contents| then |contents| else |other.contents|)
      ensures contents == Overwritten(old(contents), old(other.contents), i)
      ensures otherIt == (if i == |other.nodes| then null else other.nodes[i])
    {
      var thisIt := head;
      otherIt := other.head;
      i := 0;
      assert contents == Overwritten(contents, other.contents, 0);
      while thisIt != null && otherIt != null
        invariant Valid() && other.Valid() && Repr == old(Repr) && nodes == old(nodes)
        invariant other == this || Repr !! other.Repr
        invariant other.contents == old(other.contents) && other.nodes == old(other.nodes)
        invariant 0 <= i <= |nodes| && i <= |other.nodes|
        invariant thisIt == (if i == |nodes| then null else nodes[i])
        invariant otherIt == (if i == |other.nodes| then null else other.nodes[i])
        invariant contents == Overwritten(old(contents), old(other.contents), i)
        decreases |nodes| - i
      {
        thisIt, otherIt := AssignStep(other, thisIt, otherIt, i, old(contents));
        i := i + 1;
      }
    }

    /** One iteration of that loop: `*this_it = *other_it`, then advance both iterators. */
    method AssignStep(other: List<T>, thisIt: Node<T>, otherIt: Node<T>, ghost i: nat, ghost original: seq<T>)
        returns (thisNext: Node?<T>, otherNext: Node?<T>)
      requires Valid() && other.Valid()
      requires other == this || Repr !! other.Repr
      requires i < |nodes| && i < |other.nodes| && thisIt == nodes[i] && otherIt == other.nodes[i]
      requires |original| == |contents| && contents == Overwritten(original, other.contents, i)
      modifies this, thisIt
      ensures Valid() && other.Valid() && Repr == old(Repr) && nodes == old(nodes)
      ensures other.contents == old(other.contents) && other.nodes == old(other.nodes)
      ensures contents == Overwritten(original, other.contents, i + 1)
      ensures thisNext == (if i + 1 == |nodes| then null else nodes[i + 1])
      ensures otherNext == (if i + 1 == |other.nodes| then null else other.nodes[i + 1])
    {
      ghost var source := other.contents;
      var v := otherIt.value;
      OverwrittenStep(original, source, i);
      SetValue(thisIt, i, v);
      if other == this {
        other.contents := contents;
      }
      thisNext := thisIt.next;
      otherNext := otherIt.next;
    }

    /** `*it = v` through an iterator at node i. */
    method SetValue(node: Node<T>, ghost i: nat, v: T)
      requires Valid() && i < |nodes| && node == nodes[i]
      modifies this, node
      ensures Valid() && Repr == old(Repr) && nodes == old(nodes)
      ensures contents == old(contents)[i := v]
    {
      node.value := v;
      contents := contents[i := v];
    }

    /** The last loop of copy assignment: `push_back` every element from `otherIt` on. */
    method AppendRest(other: List<T>, otherIt: Node?<T>, ghost i: nat)
      requires Valid() && other.Valid()
      requires other == this || Repr !! other.Repr
      requires i <= |other.nodes| && otherIt == (if i == |other.nodes| then null else other.nodes[i])
      requires contents == other.contents[..i]
      modifies Repr
      ensures Valid() && other.Valid() && fresh(Repr - old(Repr))
      ensures contents == other.contents && other.contents == old(other.contents)
    {
      var it := otherIt;
      ghost var k := i;
      while it != null
        invariant Valid() && other.Valid() && fresh(Repr - old(Repr))
        invariant other == this || Repr !! other.Repr
        invariant other.contents == old(other.contents) && other.nodes == old(other.nodes)
        invariant i <= k <= |other.nodes|
        invariant it == (if k == |other.nodes| then null else other.nodes[k])
        invariant contents == other.contents[..k]
        decreases |other.nodes| - k
      {
        PushBack(it.value);
        it := it.next;
        k := k + 1;
      }
      assert other.contents[..k] == other.contents;
    }
  }

  /** The first i elements taken from `source`, the rest from `target`. */
  ghost function Overwritten<T>(target: seq<T>, source: seq<T>, i: nat): seq<T>
    requires i <= |target| && i <= |source|
  {
    source[..i] + target[i..]
  }

  lemma OverwrittenStep<T>(target: seq<T>, source: seq<T>, i: nat)
    requires i < |target| && i < |source|
    ensures Overwritten(target, source, i)[i := source[i]] == Overwritten(target, source, i + 1)
  {
    assert source[..i + 1] == source[..i] + [source[i]];
  }

  /** `operator==`: equal sizes, then element-wise comparison from the heads. */
  method Equal<T(==)>(left: List<T>, right: List<T>) returns (equal: bool)
    requires left.Valid() && right.Valid()
    ensures equal <==> left.contents == right.contents
  {
    if left.length != right.length {
      return false;
    }
    var leftIt, rightIt := left.head, right.head;
    ghost var i := 0;
    while leftIt != null
      invariant 0 <= i <= |left.nodes|
      invariant leftIt == (if i == |left.nodes| then null else left.nodes[i])
      invariant rightIt == (if i == |right.nodes| then null else right.nodes[i])
      invariant left.contents[..i] == right.contents[..i]
      decreases |left.nodes| - i
    {
      if leftIt.value != rightIt.value {
        return false;
      }
      leftIt := leftIt.next;
      rightIt := rightIt.next;
      i := i + 1;
    }
    assert left.contents == left.contents[..i];
    assert right.contents == right.contents[..i];
    return true;
  }
}
