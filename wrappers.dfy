/** Option and Result: the values a Python function returns or the exception it raises. */
module Wrappers {

  datatype Option<+T> = None | Some(value: T)

  /** `Ok(v)`: the call returned v; `Err(e)`: the call raised e. */
  datatype Result<+T, +E> = Ok(value: T) | Err(error: E)
}
