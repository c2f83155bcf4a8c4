/** Shared result and error types for the telemetry store.
    HTTP status codes are reduced to the two error kinds the routes raise. */
module Common {

  datatype Option<+T> = None | Some(value: T)

  /** The two outward error kinds: a rejected request body or query parameter
      (HTTP 422), and a missing run or an empty "latest" selection (HTTP 404,
      with its `detail` message). */
  datatype Error = ValidationError | NotFound(detail: string)

  datatype Result<+T> = Success(value: T) | Failure(error: Error)

  /** The `detail` every route uses when a referenced run does not exist. */
  const RunNotFound: string := "Run not found"

  function Min(a: int, b: int): int
  {
    if a <= b then a else b
  }
}
