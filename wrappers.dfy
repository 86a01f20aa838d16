/** Option and Result values used where the Java code returns null or throws. */
module Wrappers {

  datatype Option<T> = None | Some(value: T)

  /** `Failure` carries the message of the Java exception that would be thrown. */
  datatype Result<T> = Ok(value: T) | Failure(error: string)
}
