/** Failure-carrying values shared by the RBAC and git-service models: Go's
    `(value, error)` pairs and `error` returns become these datatypes. */
module Results {

  /** A value that may be absent (a Go nil pointer or nil map). */
  datatype Option<+T> = None | Some(value: T)

  /** A Go `(T, error)` pair: exactly one of the two is meaningful. */
  datatype Result<+T, +E> = Ok(value: T) | Err(error: E)

  /** A Go function that returns only an `error`. */
  datatype Outcome<+E> = Pass | Fail(error: E)
}
