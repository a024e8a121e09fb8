/** The outcomes a controller reports back to its HTTP caller. */
module Responses {

  datatype Option<+T> = None | Some(value: T)

  /** The error statuses the controllers answer with. */
  datatype Error =
    | BadRequest   // 400: a required upload field or the uploaded file is missing
    | Forbidden    // 403: the identity exists but lacks the requested group
    | NotFound     // 404: no user, no file record, or no blob on disk
    | ServerError  // 500: the store refused a save (a schema validation or a unique index)

  /** A response that carries a record on success. */
  datatype Result<+T> = Ok(value: T) | Err(error: Error)

  /** A response that carries nothing on success. */
  datatype Outcome = Pass | Fail(error: Error)
}
