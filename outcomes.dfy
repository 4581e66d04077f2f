/** Shared result types: what a request handler answers. */
module Outcomes {

  datatype Option<+T> = None | Some(value: T)

  /** The HTTP outcome of a handler. `Ok` stands for every success code the
      routers use (200, 201, 204); `ServerError` is the 500 a handler answers
      when the storage engine rejects its commit or it dereferences a missing row. */
  datatype Status = Ok | BadRequest | Unauthorized | Forbidden | NotFound | ServerError

  /** The answer of a read-only endpoint: a body or an error status. */
  datatype Result<+T> = Success(value: T) | Failure(status: Status)
}
