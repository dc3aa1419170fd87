/** Option, Result and the HTTP error used across the model. */
module Wrappers {

  /** Python's `Optional[T]`: `None` or a present value. */
  datatype Option<+T> = None | Some(value: T) {
    function GetOr(default: T): T {
      match this
      case Some(v) => v
      case None => default
    }
  }

  /** A computation that either produces a value or raises an error. */
  datatype Result<+R, +E> = Success(value: R) | Failure(error: E)

  /** FastAPI's `HTTPException`: a status code and a structured detail. */
  datatype HttpError<+D> = HttpError(status: nat, detail: D)
}
