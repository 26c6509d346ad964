/**
 * Option and Result, the two failure-carrying shapes the Rust code returns,
 * and Run, for a computation that either returns or panics.
 */
module Wrappers {

  datatype Option<+T> = None | Some(value: T)

  datatype Result<+T, +E> = Ok(value: T) | Err(error: E)

  /** A call that returns a value, or panics and so returns nothing at all. */
  datatype Run<+T> = Returns(value: T) | Panics
}
