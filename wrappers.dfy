/** Option and Result values used for nullable results and thrown exceptions. */
module Wrappers {

  /** `None` stands for a null pointer or an absent optional value. */
  datatype Option<+T> = None | Some(value: T)

  /** `Failure` stands for an exception leaving the operation. */
  datatype Result<+T, +E> = Success(value: T) | Failure(error: E)
}
