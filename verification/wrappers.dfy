/** Error-carrying results shared by every module of the model.
    Go's `(value, error)` pairs become `Result`, a bare `error` becomes `Outcome`,
    and a nil-able value becomes `Option`. Error texts are the Go messages. */
module Wrappers {

  datatype Option<+T> = None | Some(value: T) {
    function GetOr(default: T): T {
      match this
      case Some(v) => v
      case None => default
    }
  }

  datatype Result<+T> = Ok(value: T) | Err(msg: string)

  datatype Outcome = Pass | Fail(msg: string)
}
