/**
 * Optional values and the outcomes of the server's route handlers.
 *
 * The routes answer with an HTTP status and a JSON body carrying either a
 * `message` or an `error` text. The model keeps the text and replaces the
 * status code with a constructor: 200/201 is `Ok`, 400 is `BadRequest`,
 * 404 is `NotFound` and 500 is `ServerError`.
 */
module Outcomes {

  /** A value that may be absent (JavaScript `null` / `undefined`). */
  datatype Option<+T> = None | Some(value: T)

  /** The outcome of one request to a route handler. */
  datatype Response<+T> =
    | Ok(value: T, message: string)
    | BadRequest(error: string)
    | NotFound(error: string)
    | ServerError(error: string)
  {
    /** The same failure, re-typed for a caller that returns a different value. */
    function Forward<U>(): (r: Response<U>)
      requires !Ok?
      ensures !r.Ok? && r.error == error
      ensures r.BadRequest? == BadRequest? && r.NotFound? == NotFound?
    {
      match this
      case BadRequest(e) => BadRequest(e)
      case NotFound(e) => NotFound(e)
      case ServerError(e) => ServerError(e)
    }

    /** The HTTP status code the constructor stands for. */
    function Status(): (code: nat)
      ensures Ok? <==> code < 400
    {
      match this
      case Ok(_, _) => 200
      case BadRequest(_) => 400
      case NotFound(_) => 404
      case ServerError(_) => 500
    }
  }

  /** JavaScript's `a || b` for strings: the empty string is falsy. */
  function OrElse(s: string, fallback: string): (r: string)
    ensures s != "" ==> r == s
    ensures s == "" ==> r == fallback
  {
    if s != "" then s else fallback
  }
}
