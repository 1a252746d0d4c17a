/** What a route handler sends back: a status code and a JSON body, either the handler's
    result or `{ error: <message> }`; and what a middleware decides: call `next()` with a
    value for the downstream handler, or answer the request itself. */
module Http {

  const OK: int := 200
  const CREATED: int := 201
  const BAD_REQUEST: int := 400
  const UNAUTHORIZED: int := 401
  const FORBIDDEN: int := 403
  const NOT_FOUND: int := 404
  const SERVER_ERROR: int := 500

  /** The `error` field of a failure body: a fixed text of the handler, or the message of an
      error raised by the store, the identity provider or the completion service */
  datatype ErrorMessage = Text(text: string) | Upstream

  datatype Reply<+T> = Ok(status: int, body: T) | Fail(status: int, error: ErrorMessage)

  datatype Gate<+T> = Pass(value: T) | Halt(status: int, error: ErrorMessage)
}
