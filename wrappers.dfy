/** Option and Result, the failure-carrying wrappers used across the model.
    `None` stands for a NumPy/pandas NaN wherever a series value is optional. */
module Wrappers {

  datatype Option<+T> = None | Some(value: T)

  datatype Result<+R, +E> = Ok(value: R) | Err(error: E)
}
