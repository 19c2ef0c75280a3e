/** Failure-compatible result types shared by the modules of this project. */
module Wrappers {

  /** An optional value: the model of `std::optional` and of "not found". */
  datatype Option<+T> = None | Some(value: T)

  /** A value or an error: the model of a C++ call that either returns or throws. */
  datatype Result<+T, +E> = Success(value: T) | Failure(error: E)
}
