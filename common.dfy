/** Shared vocabulary of the masking service model: optional values, bytes,
    and the shapes of what a handler or a middleware answers. */
module Common {

  datatype Option<+T> = None | Some(value: T)

  /** One octet, as produced by the random source behind key generation. */
  newtype byte = x: int | 0 <= x < 256

  /** What an HTTP handler answers: status 200 with a body, or an error
      status with the message of the `{"error": ...}` payload. */
  datatype Reply<+T> = Ok(body: T) | Error(status: int, message: string)

  /** What a middleware decides: call the next handler, or answer with an
      error status and message itself. */
  datatype Verdict = Next | Reject(status: int, message: string)

  const StatusBadRequest := 400
  const StatusUnauthorized := 401
  const StatusForbidden := 403
  const StatusTooManyRequests := 429
  const StatusInternalServerError := 500
}
