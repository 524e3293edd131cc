/**
 * `adt::expected` (adt/expected.cpp): a `flag` and a union holding either
 * a value (`flag` true) or an error (`flag` false). The union member that
 * is alive is the constructor of the datatype.
 */
module AdtExpected {

  datatype Expected<V, E> = OfValue(val: V) | OfError(err: E)
  {
    /** `flag`, also returned by `operator bool` */
    predicate Flag()
    {
      OfValue?
    }

    /** `value()`: asserts `flag`. */
    function Value(): V
      requires Flag()
    {
      val
    }

    /** `error()`: asserts `!flag`. */
    function Error(): E
      requires !Flag()
    {
      err
    }
  }

  /** Construction from a value sets `flag`, and `value()` returns that value. */
  function FromValue<V, E>(value: V): (e: Expected<V, E>)
    ensures e.Flag() && e.Value() == value
  {
    OfValue(value)
  }

  /** Construction from an error clears `flag`, and `error()` returns that error. */
  function FromError<V, E>(error: E): (e: Expected<V, E>)
    ensures !e.Flag() && e.Error() == error
  {
    OfError(error)
  }

  /** Exactly one of the two accessors may be called, and it returns what the expected was built from. */
  lemma AccessorsPartition<V, E>(e: Expected<V, E>)
    ensures e.Flag() ==> e == FromValue(e.Value())
    ensures !e.Flag() ==> e == FromError(e.Error())
  {
  }

  /** The usage test's types: a `Foo` and an `Error`, each wrapping an `int`. */
  datatype Foo = Foo(value: int)
  datatype Error = Error(value: int)

  /** `Foo::Create`: the value `Foo{param}` when `flag` is set, the error `Error{param}` otherwise. */
  function Create(flag: bool, param: int): (e: Expected<Foo, Error>)
    ensures e.Flag() == flag
    ensures flag ==> e.Value() == Foo(param)
    ensures !flag ==> e.Error() == Error(param)
  {
    if flag then FromValue(Foo(param)) else FromError(Error(param))
  }
}
