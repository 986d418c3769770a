/** Option and Result: the success-or-failure shapes the model uses wherever the
    C++ code reports failure through a boolean return value. */
module Wrappers {

  datatype Option<+T> = None | Some(value: T)

  datatype Result<+T, +E> = Ok(value: T) | Err(error: E)
}
