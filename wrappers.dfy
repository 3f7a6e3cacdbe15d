/** Nullable values and the HTTP replies that every controller action returns. */
module Wrappers {

  /** A value that may be NULL: a nullable column, an optional request field. */
  datatype Option<+T> = None | Some(value: T) {
    function GetOr(default: T): T {
      match this
      case Some(v) => v
      case None => default
    }
  }

  /** The outcome of one controller action: a 2xx reply with its payload,
      or the error reply with its message. */
  datatype Reply<+T> =
    | Ok(value: T)
    | Created(value: T)
    | BadRequest(msg: string)
    | NotFound(msg: string)
    | Conflict(msg: string)
    | ServerError(msg: string)
  {
    predicate IsSuccess() { Ok? || Created? }
  }

  /** The reply [ApiController] sends by itself when the request body fails
      its validation attributes, before the action runs. */
  const InvalidModel := "One or more validation errors occurred."

  function Min(a: int, b: int): int { if a <= b then a else b }

  function Max(a: int, b: int): int { if a <= b then b else a }
}
