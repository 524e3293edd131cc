/**
 * `cxx::optional` (data-structures/include/cxx/optional.hxx): an
 * `initialized` flag and aligned storage in which a value is constructed in
 * place and destroyed explicitly.
 *
 * The storage is modelled as `Some(v)` while a value lives in it and `None`
 * after its destructor has run.
 */
module CxxOptional {
  import opened Wrappers

  class Optional<T> {
    var initialized: bool
    var storage: Option<T>

    /** A value lives in the storage exactly when the flag is set. */
    ghost predicate Valid()
      reads this
    {
      initialized == storage.Some?
    }

    /** The default constructor: empty. */
    constructor ()
      ensures Valid() && !HasValue()
    {
      initialized, storage := false, None;
    }

    /** Construction from `nullopt`: empty. */
    constructor Nullopt()
      ensures Valid() && !HasValue()
    {
      initialized, storage := false, None;
    }

    /** The copy constructor: the same flag, and a copy of the value if there is one. */
    constructor Copy(other: Optional<T>)
      requires other.Valid()
      ensures Valid() && storage == other.storage
    {
      initialized := other.initialized;
      storage := None;
      if other.HasValue() {
        storage := Some(other.Value());
      }
    }

    /** The move constructor: takes the value and resets `other`. */
    constructor Move(other: Optional<T>)
      requires other.Valid()
      modifies other
      ensures Valid() && storage == old(other.storage)
      ensures other.Valid() && !other.HasValue()
    {
      initialized := other.initialized;
      storage := None;
      new;
      if other.HasValue() {
        storage := Some(other.Value());
        other.Reset();
      }
    }

    /** Copy assignment: `reset()` first, so assigning an optional to itself empties it. */
    method CopyAssign(other: Optional<T>)
      requires Valid() && other.Valid()
      modifies this
      ensures Valid()
      ensures storage == (if other == this then None else old(other.storage))
    {
      Reset();
      initialized := other.initialized;
      if other.HasValue() {
        storage := Some(other.Value());
      }
    }

    /** Move assignment: `reset()`, take the value of `other` and reset it. */
    method MoveAssign(other: Optional<T>)
      requires Valid() && other.Valid()
      modifies this, other
      ensures Valid() && other.Valid() && !other.HasValue()
      ensures storage == (if other == this then None else old(other.storage))
    {
      Reset();
      initialized := other.initialized;
      if other.HasValue() {
        storage := Some(other.Value());
        other.Reset();
      }
    }

    /** Assigning `nullopt`: `reset()`. */
    method AssignNullopt()
      requires Valid()
      modifies this
      ensures Valid() && !HasValue()
    {
      Reset();
    }

    /** `emplace`: destroys any old value, constructs the new one and returns it. */
    method Emplace(value: T) returns (r: T)
      requires Valid()
      modifies this
      ensures Valid() && HasValue() && Value() == value && r == value
    {
      Reset();
      storage := Some(value);
      initialized := true;
      r := Value();
    }

    /** `reset`: destroys the value if there is one; an empty optional is left as it is. */
    method Reset()
      requires Valid()
      modifies this
      ensures Valid() && !HasValue()
      ensures old(!HasValue()) ==> storage == old(storage) && initialized == old(initialized)
    {
      if HasValue() {
        storage := None;
        initialized := false;
      }
    }

    /** `has_value()` and `operator bool` */
    predicate HasValue()
      reads this
    {
      initialized
    }

    /** `value()` and `operator *`: assert that a value is present. */
    function Value(): (v: T)
      reads this
      requires Valid() && HasValue()
      ensures storage == Some(v)
    {
      storage.value
    }

    /** `swap`: exchanges engagement and values in all four cases. */
    method Swap(other: Optional<T>)
      requires Valid() && other.Valid()
      modifies this, other
      ensures Valid() && other.Valid()
      ensures storage == old(other.storage) && other.storage == old(storage)
    {
      if HasValue() && other.HasValue() {
        var mine := Value();
        storage := Some(other.Value());
        other.storage := Some(mine);
      } else if other.HasValue() {
        storage := Some(other.Value());
        other.storage := None;
      } else if HasValue() {
        other.storage := Some(Value());
        storage := None;
      }
      initialized, other.initialized := other.initialized, initialized;
    }
  }

  /** `opt == nullopt` and `nullopt == opt` */
  predicate EqualsNullopt<T>(opt: Optional<T>)
    reads opt
  {
    !opt.HasValue()
  }

  /** `opt != nullopt` and `nullptr != opt` */
  predicate NotEqualsNullopt<T>(opt: Optional<T>)
    reads opt
  {
    opt.HasValue()
  }

  /** Comparing with `nullopt` tells exactly whether the storage is empty, and `!=` negates `==`. */
  lemma NulloptComparison<T>(opt: Optional<T>)
    requires opt.Valid()
    ensures EqualsNullopt(opt) <==> opt.storage == None
    ensures NotEqualsNullopt(opt) <==> !EqualsNullopt(opt)
  {
  }
}
