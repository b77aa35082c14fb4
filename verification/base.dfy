/** Shared vocabulary of the model: object ids, optional values, and the ways
    a request handler can fail. */
module Base {

  /** A database object id (a MongoDB ObjectId). Users, galleries and media
      draw their ids from one counter in the store. */
  type Id = nat

  datatype Option<+T> = None | Some(value: T)

  /** A handler either throws an ApiError, whose status becomes the HTTP
      status of the reply, or some other exception: a null dereference, a
      database validation or duplicate-key error, or a plain `Error`. The
      latter is `Uncaught`; its status is chosen by the request wrapper,
      which is not part of this model. */
  datatype Failure = ApiError(status: nat) | Uncaught

  datatype Result<+T> = Ok(value: T) | Err(failure: Failure)

  const BadRequest: nat := 400
  const Unauthorized: nat := 401
  const Forbidden: nat := 403
  const NotFound: nat := 404
  const Conflict: nat := 409
  const ServerError: nat := 500
}
