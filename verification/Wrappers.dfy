/** Result types shared by the other modules. */
module Wrappers {
  datatype Option<+T> = None | Some(value: T)

  /** `Err` stands for a C++ exception leaving the call. */
  datatype Result<+T, +E> = Ok(value: T) | Err(error: E)
}
