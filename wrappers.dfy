/** Failure-carrying result types shared by every module of the gateway model. */
module Wrappers {

  datatype Option<+T> = None | Some(value: T)

  datatype Result<+T, +E> = Ok(value: T) | Err(error: E)

  /** The HTTPException a handler raises: a status code and its `detail` text. */
  datatype HttpError = HttpError(status: int, detail: string)
}
