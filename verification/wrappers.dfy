/** The optional value used for calls that may raise instead of returning. */
module Wrappers {

  datatype Option<+T> = None | Some(value: T)
}
