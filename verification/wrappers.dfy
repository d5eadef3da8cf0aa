/** The optional value used for a missing stored account and for an amount that is not a number. */
module Wrappers {
  datatype Option<+T> = None | Some(value: T)
}
