/** Failure-compatible optional values, used for lookups that may fail. */
module Wrappers {

  /** Either nothing or a value; stands for JavaScript's `null`/`undefined` alternatives. */
  datatype Option<+T> = None | Some(value: T)
}
