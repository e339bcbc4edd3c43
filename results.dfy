/** Failure-carrying values used by the resolvers: a nullable result and a result-or-error. */
module Results {

  /** A value that may be absent (the resolvers' `null`). */
  datatype Option<+T> = None | Some(value: T)

  /** A resolver outcome: a value, or the error the resolver raised. */
  datatype Result<+R, +E> = Success(value: R) | Failure(error: E)
}
