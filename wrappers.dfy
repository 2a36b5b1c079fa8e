/** `Option` and `Result`, shared by the fetch layer and the aggregator. */
module Wrappers {

  /** A value that may be absent: JavaScript's `null` / `undefined`. */
  datatype Option<+T> = None | Some(value: T)

  /** The outcome of a remote call: the rows it returned, or the error it reported. */
  datatype Result<+T, +E> = Ok(value: T) | Err(error: E)
}
