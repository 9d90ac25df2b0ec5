/** Option and Result, used for absent values and for the exceptions the source throws. */
module Wrappers {

  datatype Option<+T> = None | Some(value: T)

  /** `Failure(message)` stands for a thrown JavaScript error whose `message` is given. */
  datatype Result<+T> = Success(value: T) | Failure(message: string)
}
