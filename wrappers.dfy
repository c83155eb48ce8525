/** Option and Result values standing for JavaScript's `null` returns and thrown errors. */
module Wrappers {

  datatype Option<+T> = None | Some(value: T) {
    function GetOr(default: T): T {
      match this
      case Some(v) => v
      case None => default
    }
  }

  /** A result that is either a value or the message of an `Error` the source throws. */
  datatype Result<+T> = Ok(value: T) | Err(message: string)

  /** The value of an awaited call, or the message of the error it threw. */
  datatype Attempt<+T> = Done(value: T) | Threw(message: string)
}
