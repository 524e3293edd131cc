/**
 * `cxx::result` (data-structures/include/cxx/result.hxx): a `flag` and a
 * union holding either a value (`flag` true) or a `cxx::error` (`flag`
 * false). `cxx::error` is an empty type whose objects all compare equal.
 */
module CxxResult {

  /** `cxx::error`: no state, so every two errors are equal. */
  datatype CxxError = CxxError

  datatype Result<V> = OfValue(val: V) | OfError(err: CxxError)
  {
    /** `flag`, also returned by `operator bool` */
    predicate Flag()
    {
      OfValue?
    }

    /** `value()`: asserts `flag`. */
    function Value(): V
      requires Flag()
    {
      val
    }

    /** `error()`: asserts `!flag`. */
    function Error(): CxxError
      requires !Flag()
    {
      err
    }
  }

  /** Construction from a value sets `flag` and stores the value. */
  function FromValue<V>(value: V): (r: Result<V>)
    ensures r.Flag() && r.Value() == value
  {
    OfValue(value)
  }

  /** Construction from a `cxx::error` clears `flag`. */
  function FromError<V>(error: CxxError): (r: Result<V>)
    ensures !r.Flag() && r.Error() == error
  {
    OfError(error)
  }

  /**
   * A result is determined by its flag and, when set, its value: all
   * failed results of one value type are equal, because `cxx::error` has no
   * state.
   */
  lemma DeterminedByFlagAndValue<V>(a: Result<V>, b: Result<V>)
    ensures a == b <==> a.Flag() == b.Flag() && (a.Flag() ==> a.Value() == b.Value())
  {
  }
}
