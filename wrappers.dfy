/** Option and Result, used for values a selector may not find and for the exceptions that abort the crawl. */
module Wrappers {
  datatype Option<+T> = None | Some(value: T)

  datatype Result<+R, +E> = Success(value: R) | Failure(error: E)
}
