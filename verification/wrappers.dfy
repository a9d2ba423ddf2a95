/** Option and Result datatypes shared by the whole model. */
module Wrappers {

  /** A value that may be absent (JavaScript's `undefined` where the source leaves a variable unset). */
  datatype Option<+T> = None | Some(value: T)

  /** The outcome of an operation that the source lets throw (a `TypeError`) on some inputs. */
  datatype Result<+T, +E> = Ok(value: T) | Err(error: E)
}
