/** Optional values, results and outcomes used to model Python's None and raised exceptions. */
module Wrappers {

  /** A value that may be absent (Python's None, or a missing dictionary key). */
  datatype Option<T> = None | Some(value: T)

  /** A computed value, or the error text of the exception that replaced it. */
  datatype Result<T, E> = Ok(value: T) | Err(error: E)

  /** The outcome of an external step that returns nothing useful: it passes or raises. */
  datatype Outcome<E> = Pass | Fail(error: E)
}
