/** Failure-carrying wrappers shared by the model: `Option` for Python's
    `None`-or-value returns and `Result` for a value-or-raised-exception. */
module Wrappers {

  datatype Option<+T> = None | Some(value: T)

  datatype Result<+R, +E> = Success(value: R) | Failure(error: E)
}
