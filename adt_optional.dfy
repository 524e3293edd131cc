/**
 * `adt::optional` (adt/optional.cpp): the same flag-and-storage design and
 * the same member functions as `cxx::optional`, which `CxxOptional.Optional`
 * models; its move constructor calls `reset()` on the source unconditionally,
 * which for an empty source changes nothing. This module adds `make_optional`.
 */
module AdtOptional {
  import opened CxxOptional

  /** `make_optional`: default-construct an optional and `emplace` the value. */
  method MakeOptional<T>(value: T) returns (opt: Optional<T>)
    ensures fresh(opt) && opt.Valid() && opt.HasValue() && opt.Value() == value
  {
    opt := new Optional();
    var _ := opt.Emplace(value);
  }

  /** The `make_optional` test: the result holds the constructed value and compares unequal to `nullopt`. */
  method MakeOptionalHoldsValue() returns (engaged: bool, held: int)
    ensures engaged && held == 7
  {
    var opt := MakeOptional(7);
    engaged := NotEqualsNullopt(opt);
    held := opt.Value();
  }
}
