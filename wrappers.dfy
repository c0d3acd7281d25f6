/** Option, and Outcome for calls that may raise a Python exception. */
module Wrappers {

  datatype Option<+T> = None | Some(value: T)

  /** The result of a Python call that either returns `value` or raises an
      exception whose str() is `error`. */
  datatype Outcome<+T> = Ok(value: T) | Raised(error: string)
}
