/** Optional values and Go's `(value, error)` return pairs. */
module Wrappers {

  datatype Option<+T> = None | Some(value: T)

  /**
   * The outcome of a call that fills a value or returns a non-nil `error`;
   * `reason` is the error's `Error()` text.
   */
  datatype Result<+T> = Ok(value: T) | Failed(reason: string)
}
