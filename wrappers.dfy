/** Option and Result, the two wrappers the model uses for "maybe absent" and "returned or threw". */
module Wrappers {

  /** A value that may be absent (`undefined` or `null` in the source). */
  datatype Option<+T> = None | Some(value: T)

  /** The outcome of an async call: the value it resolved to, or the error it rejected with. */
  datatype Result<+T, +E> = Ok(value: T) | Err(error: E)
}
