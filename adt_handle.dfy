/**
 * `adt::handle` (adt/handle.cpp): in-place storage for one value with a
 * `created` flag. `create` constructs a value in the storage and `destroy`
 * is meant to run its destructor; `get()` is the address of the storage
 * while `created` is set and `nullptr` otherwise.
 *
 * The storage is `Some(v)` while a value lives in it and `None` otherwise;
 * `Get()` returns `None` for `nullptr`. Every destructor run on a value in
 * the storage is recorded in the log `destroyed`.
 *
 * As written, `destroy` clears `created` before calling the destructor
 * through `get()`, which is then `nullptr`: `DestroyAsWritten` models that
 * order and `DestroyAsWrittenNeverDestroys` shows its effect. `Destroy` is
 * the corrected order, and the other operations use it.
 */
module AdtHandle {
  import opened Wrappers

  /** The values a destructor call reaches: the pointee, or nothing for `nullptr`. */
  function Released<T>(p: Option<T>): seq<T>
  {
    if p.Some? then [p.value] else []
  }

  class Handle<T> {
    var created: bool
    var storage: Option<T>
    var destroyed: seq<T>

    /** A value lives in the storage exactly when `created` is set. */
    ghost predicate Valid()
      reads this
    {
      created == storage.Some?
    }

    /** The default constructor: nothing created. */
    constructor ()
      ensures Valid() && !IsCreated() && Get() == None && destroyed == []
    {
      created, storage, destroyed := false, None, [];
    }

    /** The copy constructor: the same flag, and a copy of the value if there is one. */
    constructor Copy(other: Handle<T>)
      requires other.Valid()
      ensures Valid() && Get() == other.Get() && destroyed == []
    {
      created := other.created;
      storage, destroyed := None, [];
      if other.created {
        storage := Some(other.Get().value);
      }
    }

    /** Copy assignment: `destroy()` first, so assigning a handle to itself empties it. */
    method CopyAssign(other: Handle<T>)
      requires Valid() && other.Valid()
      modifies this
      ensures Valid()
      ensures Get() == (if other == this then None else old(other.Get()))
      ensures destroyed == old(destroyed) + Released(old(Get()))
    {
      Destroy();
      created := other.created;
      if created {
        storage := Some(other.Get().value);
      }
    }

    /** The move constructor: take the value, then `destroy()` the source. */
    constructor Move(other: Handle<T>)
      requires other.Valid()
      modifies other
      ensures Valid() && Get() == old(other.Get()) && destroyed == []
      ensures other.Valid() && other.Get() == None
      ensures other.destroyed == old(other.destroyed) + Released(old(other.Get()))
    {
      created := other.created;
      storage, destroyed := None, [];
      new;
      if created {
        storage := Some(other.Get().value);
      }
      other.Destroy();
    }

    /** Move assignment: `destroy()`, take the value of `other`, then `destroy()` it. */
    method MoveAssign(other: Handle<T>)
      requires Valid() && other.Valid()
      modifies this, other
      ensures Valid() && other.Valid() && other.Get() == None
      ensures Get() == (if other == this then None else old(other.Get()))
      ensures other == this ==> destroyed == old(destroyed) + Released(old(Get()))
      ensures other != this ==>
        destroyed == old(destroyed) + Released(old(Get()))
        && other.destroyed == old(other.destroyed) + Released(old(other.Get()))
    {
      Destroy();
      created := other.created;
      if created {
        storage := Some(other.Get().value);
      }
      other.Destroy();
    }

    /** `create`: `destroy()`s any old value, then constructs the new one and sets `created`. */
    method Create(value: T)
      requires Valid()
      modifies this
      ensures Valid() && IsCreated() && Get() == Some(value)
      ensures destroyed == old(destroyed) + Released(old(Get()))
    {
      Destroy();
      storage := Some(value);
      created := true;
    }

    /**
     * `destroy` in the corrected order: when a value lives in the storage,
     * its destructor runs through `get()` and then `created` is cleared;
     * otherwise a no-op.
     */
    method Destroy()
      requires Valid()
      modifies this
      ensures Valid() && !IsCreated() && Get() == None
      ensures destroyed == old(destroyed) + Released(old(Get()))
      ensures old(!IsCreated()) ==> created == old(created) && storage == old(storage)
    {
      if created {
        destroyed := destroyed + Released(Get());
        created := false;
        storage := None;
      }
    }

    /**
     * `destroy` as written: `created` is cleared first, so `get()` is already
     * `nullptr` when the destructor is called through it (undefined
     * behaviour). No destructor reaches the stored value, which stays in the
     * storage, unreachable through `get()`.
     */
    method DestroyAsWritten()
      requires Valid()
      modifies this
      ensures !IsCreated()
      ensures storage == old(storage) && destroyed == old(destroyed)
    {
      if created {
        created := false;
        var target := if created then storage else None;
        destroyed := destroyed + Released(target);
      }
    }

    /** `operator bool` */
    predicate IsCreated()
      reads this
    {
      created
    }

    /** `get()`: the stored value while `created`, `nullptr` otherwise. */
    function Get(): (p: Option<T>)
      reads this
      requires Valid()
      ensures p.Some? <==> IsCreated()
    {
      if created then storage else None
    }

    /** `operator ->`: asserts `created`. */
    function Arrow(): (v: T)
      reads this
      requires Valid() && IsCreated()
      ensures Get() == Some(v)
    {
      Get().value
    }

    /** `swap`: moves or swaps the values in all four cases, then swaps the flags. */
    method Swap(other: Handle<T>)
      requires Valid() && other.Valid()
      modifies this, other
      ensures Valid() && other.Valid()
      ensures Get() == old(other.Get()) && other.Get() == old(Get())
      ensures destroyed == old(destroyed) + (if old(other.IsCreated()) then [] else Released(old(Get())))
      ensures other.destroyed == old(other.destroyed) + (if old(IsCreated()) then [] else Released(old(other.Get())))
    {
      if created && other.created {
        var mine := Arrow();
        storage := Some(other.Arrow());
        other.storage := Some(mine);
      } else if other.created {
        storage := Some(other.Arrow());
        other.destroyed := other.destroyed + [other.Arrow()];
        other.storage := None;
      } else if created {
        other.storage := Some(Arrow());
        destroyed := destroyed + [Arrow()];
        storage := None;
      }
      created, other.created := other.created, created;
    }
  }

  /**
   * The usage test: a handle starts empty, owns the created value, and is
   * empty after `destroy`, which ran the value's destructor exactly once.
   */
  method CreateDestroyCycle() returns (before: bool, during: Option<int>, after: bool, log: seq<int>)
    ensures !before && during == Some(4) && !after && log == [4]
  {
    var handle := new Handle<int>();
    before := handle.IsCreated();
    handle.Create(4);
    during := handle.Get();
    handle.Destroy();
    after := handle.IsCreated();
    log := handle.destroyed;
  }

  /**
   * The as-written `destroy` on a handle holding any value: the handle
   * reports empty, yet no destructor ran and the value is still in the
   * storage.
   */
  method DestroyAsWrittenNeverDestroys<T>(value: T) returns (after: bool, log: seq<T>, stored: Option<T>)
    ensures !after && log == [] && stored == Some(value)
  {
    var handle := new Handle<T>();
    handle.Create(value);
    handle.DestroyAsWritten();
    after, log, stored := handle.IsCreated(), handle.destroyed, handle.storage;
  }
}
