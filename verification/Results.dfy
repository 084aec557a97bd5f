/** Optional values and outcomes. */
module Results {
  datatype Option<+T> = None | Some(value: T)

  /** How a call can fail: the exception's class, and the status or code it carries. */
  datatype Error =
    | MemoryApiError(status: nat)
    | PolicyError(code: PolicyCode)
    | ValueError

  datatype PolicyCode =
    | ValidationError | InvalidScope | NestedFilter | ScopeRequired
    | NotFound | Forbidden | InternalError | NotSupported

  datatype Result<+T> = Ok(value: T) | Err(error: Error)
}
