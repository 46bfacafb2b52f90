/** Python's `None`, the exceptions the cache layer meets, and the outcome of a
    call that may raise. */
module Outcomes {

  /** `Optional[T]`: `None` or a value. */
  datatype Option<+T> = None | Some(value: T)

  /** The exceptions that can reach the cache layer.  The first three are
      raised by the Redis client (`redis.exceptions.ConnectionError`,
      `TimeoutError`, `ResponseError`); `ValidationError` is the one the
      memoized tools raise; anything else is `OtherError`. */
  datatype Exception =
    | ConnectionError
    | TimeoutError
    | ResponseError(message: string)
    | ValidationError(message: string)
    | OtherError(message: string)

  /** A Python call either returns a value or raises an exception. */
  datatype Outcome<+T> = Ok(value: T) | Raised(exception: Exception)
}
