/** Optional values and the outcome of a call that may throw. */
module Wrappers {

  datatype Option<+T> = None | Some(value: T)

  /** What an `async` function of the client settles to: a returned value,
      or an `Error` thrown with the given message. */
  datatype Outcome<+T> = Returned(value: T) | Threw(message: string)
}
