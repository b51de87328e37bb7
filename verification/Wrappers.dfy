/** Result types shared by every module. */
module Wrappers {

  datatype Option<+T> = None | Some(value: T)

  /** How an awaited call ended: with a value, or with an exception. */
  datatype Outcome<+T> = Returned(value: T) | Threw
}
