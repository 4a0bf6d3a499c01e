/** Option and Result, the two wrappers the model uses for a missing value and for a refused request. */
module Wrappers {

  datatype Option<+T> = None | Some(value: T) {
    function GetOr(default: T): T
    {
      match this
      case Some(v) => v
      case None => default
    }
  }

  /** A handler's outcome: a value, or the HTTP status and error message it answers with. */
  datatype Result<+T> = Ok(value: T) | Fail(status: nat, message: string)
}
