/** Option and Result shapes shared by every module of the model. */
module Wrappers {

  datatype Option<+T> = None | Some(value: T) {
    function GetOr(default: T): T {
      match this
      case Some(v) => v
      case None => default
    }
  }

  /** The result of a server action: a value, or an error message (a thrown Error). */
  datatype Result<+T> = Ok(value: T) | Err(message: string) {
    predicate IsFailure() { Err? }
  }

  /** What an action that catches its own errors returns: `{success: true, ...}` or `{success: false, error}`. */
  datatype Response<+T> = Success(data: T) | Failure(error: string)
}
