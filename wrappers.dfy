/** Small value wrappers shared by the modules of this project. */
module Wrappers {
  /** A value that may be absent (std::optional, a null pointer, a failed parse). */
  datatype Option<T> = None | Some(value: T)
  {
    predicate IsSome() { Some? }
  }
}
