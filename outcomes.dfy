/** Failure-carrying results shared by the whole model. */
module Outcomes {

  datatype Option<T> = None | Some(value: T)

  /** The two conditions the cache core raises as a CacheException. */
  datatype CacheError =
    | NoKey       // "Key has not been set"
    | InvalidKey  // "Key must be an associative array of column => value pairs"

  /** The result of an operation that either completes or throws. */
  datatype Outcome = Done | Failed(error: CacheError)

  /** The result of an operation that either returns a value or throws. */
  datatype Result<T> = Ok(value: T) | Err(error: CacheError)
}
