/** Option and Result, used for Python's `None` and for raised exceptions. */
module Wrappers {

  /** `None` stands for Python's `None`; `Some(v)` for a present value. */
  datatype Option<+T> = None | Some(value: T)

  /** `Ok(v)` for a normal return, `Err(e)` for a raised exception. */
  datatype Result<+T, +E> = Ok(value: T) | Err(error: E)
}
