/**
 * `adt::unique_ptr` (adt/unique_ptr.cpp): the same raw-pointer design and the
 * same member functions as `cxx::unique_ptr`, which `CxxUniquePtr.UniquePtr`
 * models, and its `make_unique` is `CxxUniquePtr.MakeUnique`; it has
 * comparisons with `nullptr` only. This module adds the move-assignment
 * round trip and the `nullptr` assignment its tests perform.
 */
module AdtUniquePtr {
  import opened CxxUniquePtr

  /**
   * The move-assignment test: 7 is moved from the first pointer to the second
   * and back; after each move the source is empty, and the object is never
   * deleted on the way.
   */
  method MoveAssignmentRoundTrip() returns (first: int, secondEmpty: bool, deletedCount: nat)
    ensures first == 7 && secondEmpty && deletedCount == 0
  {
    var ptr1 := MakeUnique(7);
    var ptr2 := new UniquePtr.Null();
    ptr2.MoveAssign(ptr1);
    assert ptr2.Deref() == 7 && EqualsNull(ptr1);
    ptr1.MoveAssign(ptr2);
    first := ptr1.Deref();
    secondEmpty := EqualsNull(ptr2);
    deletedCount := |ptr1.deleted| + |ptr2.deleted|;
  }

  /** The `nullptr` assignment test: the owned 9 is deleted and the pointer becomes empty. */
  method NullAssignmentDeletes() returns (empty: bool, deletedValues: seq<int>)
    ensures empty && deletedValues == [9]
  {
    var uptr := MakeUnique(9);
    var owned := uptr.Get();
    uptr.AssignNull();
    empty := EqualsNull(uptr);
    deletedValues := [uptr.deleted[0].value];
  }
}
