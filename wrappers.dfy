/** Optional values and outcomes of storage statements. */
module Wrappers {

  /** A nullable value (`T?` in Kotlin). */
  datatype Option<+T> = None | Some(value: T)

  /** The outcome of a statement that returns a value or raises. */
  datatype Result<+R, +E> = Ok(value: R) | Err(error: E)

  /** The outcome of a statement that returns nothing or raises. */
  datatype Outcome<+E> = Pass | Fail(error: E)
}
