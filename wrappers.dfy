/** Failure-carrying datatypes shared by the console, the media queue and the
    device model. The C# source signals misuse with exceptions; here every
    operation that can throw returns one of these instead. */
module Wrappers {

  /** A value that may be absent: `None` stands for a C# `null` reference. */
  datatype Option<+T> = None | Some(value: T) {
    function GetOr(default: T): T {
      match this
      case Some(v) => v
      case None => default
    }
  }

  /** The exceptions the modelled code can raise, plus `Diverges` for a call
      that would never return. */
  datatype Error =
    | ArgumentNull          // ArgumentNullException
    | ArgumentOutOfRange    // ArgumentOutOfRangeException / IndexOutOfRangeException
    | NullReference         // NullReferenceException
    | InvalidOperation      // the plain Exception thrown by the drawing guard
    | Diverges              // the C# loop would run forever

  /** Either a value or the exception that was raised instead. */
  datatype Result<+R> = Success(value: R) | Failure(error: Error)

  /** Completion of a void C# method: normal return or an exception. */
  datatype Outcome = Pass | Fail(error: Error)
}
