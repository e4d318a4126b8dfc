/** Option and Result, the two failure-carrying shapes the model uses in place of Swift's
    optionals and `throws`. */
module Wrappers {

  /** A Swift optional: `nil` is `None`. */
  datatype Option<+T> = None | Some(value: T)

  /** The outcome of a throwing call: either the value or the error that was thrown. */
  datatype Result<+T, +E> = Ok(value: T) | Err(error: E)
}
