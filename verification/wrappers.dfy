/** Failure-carrying datatypes shared by the model: `Option` for library calls
    that may reject their input and `Result` for operations that report an error. */
module Wrappers {

  datatype Option<+T> = None | Some(value: T)

  datatype Result<+R, +E> = Success(value: R) | Failure(error: E)
}
