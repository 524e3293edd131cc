/**
 * `cxx::unique_ptr` (data-structures/include/cxx/unique_ptr.hxx): sole
 * ownership of a heap object through a raw pointer that is deleted when it
 * is replaced or when the owner is destroyed.
 *
 * A heap object is a `Box`. The observable effect of `delete`, running the
 * object's destructor, is recorded in the log `deleted` (deleting `nullptr`
 * records nothing), so every contract states both the new pointer and
 * exactly which object, if any, was deleted.
 */
module CxxUniquePtr {

  /** A heap-allocated `value_type`. */
  class Box<T> {
    var value: T

    constructor (value: T)
      ensures this.value == value
    {
      this.value := value;
    }
  }

  /** What `delete p` destroys: nothing for `nullptr`, otherwise the object `p`. */
  function Deleted<T>(p: Box?<T>): (d: seq<Box<T>>)
    ensures p == null <==> d == []
    ensures p != null ==> d == [p]
  {
    if p == null then [] else [p]
  }

  class UniquePtr<T> {
    var ptr: Box?<T>
    var deleted: seq<Box<T>>

    /** The default constructor: empty. */
    constructor ()
      ensures Get() == null && !IsSet() && deleted == []
    {
      ptr := null;
      deleted := [];
    }

    /** Construction from `nullptr`: empty. */
    constructor Null()
      ensures Get() == null && !IsSet() && deleted == []
    {
      ptr := null;
      deleted := [];
    }

    /** Construction from a raw pointer: takes ownership of it. */
    constructor FromRaw(raw: Box?<T>)
      ensures Get() == raw && deleted == []
    {
      ptr := raw;
      deleted := [];
    }

    /** The move constructor: takes the pointer and leaves `other` null. */
    constructor Move(other: UniquePtr<T>)
      modifies other
      ensures Get() == old(other.Get()) && deleted == []
      ensures other.Get() == null && other.deleted == old(other.deleted)
    {
      ptr := other.ptr;
      deleted := [];
      new;
      other.ptr := null;
    }

    /** The destructor: deletes the owned object. */
    method Destruct()
      modifies this
      ensures deleted == old(deleted) + Deleted(old(ptr)) && ptr == old(ptr)
    {
      deleted := deleted + Deleted(ptr);
    }

    /**
     * Move assignment: deletes the owned object, takes the pointer of `other`
     * and leaves `other` null. Moving a pointer into itself deletes its object
     * and leaves it null.
     */
    method MoveAssign(other: UniquePtr<T>)
      modifies this, other
      ensures deleted == old(deleted) + Deleted(old(ptr))
      ensures other != this ==> other.deleted == old(other.deleted)
      ensures Get() == (if other == this then null else old(other.Get()))
      ensures other.Get() == null
    {
      deleted := deleted + Deleted(ptr);
      ptr := other.ptr;
      other.ptr := null;
    }

    /** Assigning `nullptr`: deletes the owned object and becomes empty. */
    method AssignNull()
      modifies this
      ensures deleted == old(deleted) + Deleted(old(ptr))
      ensures Get() == null && !IsSet()
    {
      deleted := deleted + Deleted(ptr);
      ptr := null;
    }

    /** `operator *`: asserts the pointer is not null. */
    function Deref(): (v: T)
      reads this, ptr
      requires Get() != null
      ensures v == Get().value
    {
      ptr.value
    }

    /** `get()` and `operator ->` */
    function Get(): Box?<T>
      reads this
    {
      ptr
    }

    /** `operator bool`: the pointer is not null. */
    predicate IsSet()
      reads this
    {
      ptr != null
    }

    /** `release`: returns the pointer without deleting it and becomes empty. */
    method Release() returns (raw: Box?<T>)
      modifies this
      ensures raw == old(Get()) && Get() == null && deleted == old(deleted)
    {
      raw := ptr;
      ptr := null;
    }

    /** `reset(raw)`: deletes the owned object and takes ownership of `raw` (by default `nullptr`). */
    method Reset(raw: Box?<T>)
      modifies this
      ensures deleted == old(deleted) + Deleted(old(ptr)) && Get() == raw
    {
      deleted := deleted + Deleted(ptr);
      ptr := raw;
    }
  }

  /** `uptr == nullptr` and `nullptr == uptr` */
  predicate EqualsNull<T>(uptr: UniquePtr<T>)
    reads uptr
  {
    uptr.Get() == null
  }

  /** `uptr != nullptr` and `nullptr != uptr` */
  predicate NotEqualsNull<T>(uptr: UniquePtr<T>)
    reads uptr
  {
    uptr.Get() != null
  }

  /** `left == right`: the raw pointers are equal. */
  predicate Equal<T>(left: UniquePtr<T>, right: UniquePtr<T>)
    reads left, right
  {
    left.Get() == right.Get()
  }

  /** `left != right` */
  predicate NotEqual<T>(left: UniquePtr<T>, right: UniquePtr<T>)
    reads left, right
  {
    left.Get() != right.Get()
  }

  /**
   * The comparisons agree with `operator bool` and with each other: a pointer
   * equals `nullptr` exactly when it is not set, `!=` negates `==`, and two
   * empty pointers compare equal.
   */
  lemma ComparisonsAgree<T>(left: UniquePtr<T>, right: UniquePtr<T>)
    ensures EqualsNull(left) <==> !left.IsSet()
    ensures NotEqualsNull(left) <==> !EqualsNull(left)
    ensures NotEqual(left, right) <==> !Equal(left, right)
    ensures EqualsNull(left) && EqualsNull(right) ==> Equal(left, right)
  {
  }

  /** `make_unique`: a pointer owning a new object built from the arguments. */
  method MakeUnique<T>(value: T) returns (uptr: UniquePtr<T>)
    ensures fresh(uptr) && uptr.Get() != null && fresh(uptr.Get())
    ensures uptr.Deref() == value && uptr.deleted == []
  {
    var box := new Box(value);
    uptr := new UniquePtr.FromRaw(box);
  }

  /**
   * The move-constructor and move-assignment tests: ownership of 7 passes
   * to the target and the source reads as empty, and nothing is deleted.
   */
  method MoveTransfersOwnership() returns (source: bool, target: int, deletedCount: nat)
    ensures !source && target == 7 && deletedCount == 0
  {
    var movedFrom := MakeUnique(7);
    var movedTo := new UniquePtr.Null();
    movedTo.MoveAssign(movedFrom);
    source := movedFrom.IsSet();
    target := movedTo.Deref();
    deletedCount := |movedTo.deleted| + |movedFrom.deleted|;
  }

  /** The destructor test: the object owned when the pointer goes out of scope is deleted. */
  method DestructorDeletes() returns (owned: Box<int>, log: seq<Box<int>>)
    ensures log == [owned]
  {
    owned := new Box(8);
    var uptr := new UniquePtr.FromRaw(owned);
    uptr.Destruct();
    log := uptr.deleted;
  }
}
