/** The conventional optional value, used for the result of parsing an amount. */
module Wrappers {

  datatype Option<+T> = None | Some(value: T)
}
