/** Failure and absence, shared by every component. */
module Outcomes {

  /** A nullable column, an optional argument, or a lookup that may find nothing. */
  datatype Option<+T> = None | Some(value: T)

  /** The value a call returns, or the exception it raises. */
  datatype Result<+T, +E> = Ok(value: T) | Err(error: E)
}
