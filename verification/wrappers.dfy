/** Failure-compatible wrappers used across the model: Option for nullable
    lookups and Result for operations that can throw. */
module Wrappers {

  datatype Option<+T> = None | Some(value: T) {

    function GetOr(default: T): T {
      match this
      case Some(v) => v
      case None => default
    }
  }

  /** Exceptions raised by the modelled C++ code. */
  datatype Error =
    | OutOfRange(what: string)       // std::out_of_range from std::string::substr
    | Configuration(message: string) // cms::Exception("Configuration")

  datatype Result<+R> = Success(value: R) | Failure(error: Error) {

    predicate IsFailure() {
      Failure?
    }

    function PropagateFailure<U>(): Result<U>
      requires Failure?
    {
      Failure(error)
    }

    function Extract(): R
      requires Success?
    {
      value
    }
  }
}
