/**
 * `cxx::indirect` (data-structures/include/cxx/indirect.hxx): a value that
 * lives on the heap behind an owning pointer but is copied and compared
 * like a value. Moving leaves the source's pointer null.
 *
 * The heap object is a `CxxUniquePtr.Box`; as for `unique_ptr`, each
 * `delete` is recorded in the log `deleted`.
 */
module CxxIndirect {
  import opened CxxUniquePtr

  class Indirect<T(==)> {
    var ptr: Box?<T>
    var deleted: seq<Box<T>>

    /** Construction from arguments: always allocates a new object holding the value. */
    constructor (value: T)
      ensures ptr != null && fresh(ptr) && ptr.value == value && deleted == []
    {
      ptr := new Box(value);
      deleted := [];
    }

    /** The destructor: deletes the pointee. */
    method Destruct()
      modifies this
      ensures deleted == old(deleted) + Deleted(old(ptr)) && ptr == old(ptr)
    {
      deleted := deleted + Deleted(ptr);
    }

    /** The move constructor: takes the pointer and leaves the source's pointer null. */
    constructor Move(other: Indirect<T>)
      modifies other
      ensures ptr == old(other.ptr) && deleted == []
      ensures other.ptr == null && other.deleted == old(other.deleted)
    {
      ptr := other.ptr;
      deleted := [];
      new;
      other.ptr := null;
    }

    /** Move assignment: deletes the pointee, takes the pointer of `other` and nulls it. */
    method MoveAssign(other: Indirect<T>)
      modifies this, other
      ensures deleted == old(deleted) + Deleted(old(ptr))
      ensures other != this ==> other.deleted == old(other.deleted)
      ensures ptr == (if other == this then null else old(other.ptr))
      ensures other.ptr == null
    {
      deleted := deleted + Deleted(ptr);
      ptr := other.ptr;
      other.ptr := null;
    }

    /** The copy constructor: a distinct new object holding a copy of the source's value. */
    constructor Copy(other: Indirect<T>)
      requires other.ptr != null
      ensures ptr != null && fresh(ptr) && ptr.value == other.ptr.value && deleted == []
    {
      ptr := new Box(other.ptr.value);
      deleted := [];
    }

    /**
     * Copy assignment: assigns the source's value to this pointee, which must
     * exist; the pointer itself is kept, so assigning to itself changes nothing.
     */
    method CopyAssign(other: Indirect<T>)
      requires ptr != null && other.ptr != null
      modifies ptr
      ensures ptr.value == old(other.ptr.value)
      ensures other.ptr == old(other.ptr)
      ensures other == this ==> ptr.value == old(ptr.value)
    {
      ptr.value := other.ptr.value;
    }

    /** `operator *` and `operator ->`: the pointee. */
    function Deref(): (v: T)
      reads this, ptr
      requires ptr != null
      ensures v == ptr.value
    {
      ptr.value
    }

    /** `operator ==`: compares the pointees, not the pointers. */
    predicate Equal(other: Indirect<T>)
      reads this, ptr, other, other.ptr
      requires ptr != null && other.ptr != null
    {
      Deref() == other.Deref()
    }
  }

  /** Two indirect values are equal exactly when their values are, even when the pointers differ. */
  lemma EqualIsByValue<T>(a: Indirect<T>, b: Indirect<T>)
    requires a.ptr != null && b.ptr != null
    ensures a.Equal(b) <==> a.ptr.value == b.ptr.value
    ensures a.Equal(b) <==> b.Equal(a)
  {
  }

  /**
   * The copy-constructor test: the copy equals the original, and a later
   * change to the copy leaves the original as it was, so they differ.
   */
  method CopyIsDisjoint(value: int, changed: int) returns (equalAfterCopy: bool, original: int, copy: int, equalAfterChange: bool)
    requires value != changed
    ensures equalAfterCopy && original == value && copy == changed && !equalAfterChange
  {
    var a := new Indirect(value);
    var b := new Indirect.Copy(a);
    equalAfterCopy := b.Equal(a);
    b.ptr.value := changed;
    original := a.Deref();
    copy := b.Deref();
    equalAfterChange := b.Equal(a);
  }

  /**
   * The copy-assignment and self-assignment tests: after `copy = original`
   * the two are equal but disjoint, and assigning an object to itself keeps
   * its value.
   */
  method CopyAssignIsDisjoint(value: int, other: int, changed: int) returns (equalAfterAssign: bool, original: int, equalAfterChange: bool, self: int)
    requires value != changed
    ensures equalAfterAssign && original == value && !equalAfterChange && self == other
  {
    var a := new Indirect(value);
    var b := new Indirect(other);
    b.CopyAssign(a);
    equalAfterAssign := b.Equal(a);
    b.ptr.value := changed;
    original := a.Deref();
    equalAfterChange := b.Equal(a);
    var c := new Indirect(other);
    c.CopyAssign(c);
    self := c.Deref();
  }

  /** The move test: the target owns the value and the source's pointer is null. */
  method MoveLeavesSourceEmpty(value: int) returns (moved: int, sourceEmpty: bool)
    ensures moved == value && sourceEmpty
  {
    var source := new Indirect(value);
    var target := new Indirect.Move(source);
    moved := target.Deref();
    sourceEmpty := source.ptr == null;
  }
}
