/** Option and Result values that stand for Kotlin's nullable types and thrown exceptions. */
module Wrappers {

  datatype Option<+T> = None | Some(value: T) {
    function GetOr(default: T): T {
      match this
      case Some(v) => v
      case None => default
    }
  }

  /** The exceptions the modelled code can throw. */
  datatype Error =
    | IllegalArgument(message: string)
    | IndexOutOfBounds(message: string)
    | NumberFormat
    | NullPointer

  datatype Result<+T> = Ok(value: T) | Err(error: Error)
}
