/**
 * Replies of the REST handlers: a success status with a body, or one of the
 * error kinds the handlers answer with, each with its HTTP status code.
 */
module Http {

  datatype HttpError =
    | BadRequest(message: string)
    | Unauthorized(message: string)
    | Forbidden(message: string)
    | NotFound(message: string)
  {
    /** The HTTP status code the handler writes for this error. */
    function Status(): (code: int)
      ensures 400 <= code < 500
      ensures BadRequest? <==> code == 400
      ensures Unauthorized? <==> code == 401
      ensures Forbidden? <==> code == 403
      ensures NotFound? <==> code == 404
    {
      match this
      case BadRequest(_) => 400
      case Unauthorized(_) => 401
      case Forbidden(_) => 403
      case NotFound(_) => 404
    }
  }

  /** `Success(200, body)` for `res.json(body)`, `Success(201, body)` for `res.status(201).json(body)`. */
  datatype Result<+T> = Success(status: int, value: T) | Failure(error: HttpError)

  const OK := 200
  const CREATED := 201
}
