/** Option and Result, the two failure-carrying shapes used throughout the model. */
module Wrappers {

  datatype Option<+T> = None | Some(value: T)

  /** `android::base::Result<T>`: a value or an error. */
  datatype Result<+T, +E> = Ok(value: T) | Err(error: E)
}
