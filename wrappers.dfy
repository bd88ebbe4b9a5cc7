/** Small result types shared by the other modules. */
module Wrappers {
  /** A value that may be absent (the source's `null`). */
  datatype Option<T> = None | Some(value: T)

  /** The result of an operation that returns nothing on success and throws on failure. */
  datatype Outcome<E> = Pass | Fail(error: E)
}
