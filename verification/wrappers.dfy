/** Failure-carrying wrappers shared by the model: an optional value (Python's
    `None` or a value) and the outcome of an operation that can raise. */
module Wrappers {

  /** `None` stands for Python's `None`; `Some(v)` for any other value. */
  datatype Option<+T> = None | Some(value: T)

  /** `Ok(v)` is a normal return; `Err(e)` is an exception raised instead. */
  datatype Result<+T, +E> = Ok(value: T) | Err(error: E)
}
