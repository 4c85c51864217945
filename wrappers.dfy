/** Optional values and the outcomes of operations that can fail, in place of Python's
    exceptions. */
module Wrappers {

  datatype Option<T> = None | Some(value: T)

  datatype Result<T, E> = Ok(value: T) | Err(error: E)

  datatype Outcome<E> = Pass | Fail(error: E)

  /** Python raises ZeroDivisionError on a division by zero of ints or floats. */
  datatype ZeroDivisionError = ZeroDivisionError
}
