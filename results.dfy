/**
  The two ways the server actions and background jobs report failure, kept apart
  because callers see them differently: `Result` is a value or a THROWN error
  (the caller's promise rejects with `msg`), `Reply` is the `{success, data}` /
  `{success: false, error}` object an action RETURNS after catching its error.
 */
module Results {

  datatype Option<+T> = None | Some(value: T) {
    function GetOr(default: T): T {
      match this
      case Some(v) => v
      case None => default
    }
  }

  datatype Result<+T> = Ok(value: T) | Err(msg: string)

  datatype Reply<+T> = Success(data: T) | Failure(error: string)
}
