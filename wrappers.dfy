/** Option and Result, the two failure-carrying shapes the model uses for
    Go's `(value, error)` returns and for a slice expression that panics. */
module Wrappers {

  datatype Option<+T> = None | Some(value: T)

  /** `Err(msg)` carries the text of the Go `error` value. */
  datatype Result<+T> = Ok(value: T) | Err(msg: string)
}
