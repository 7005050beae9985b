/** The Option datatype shared by both models. */
module Wrappers {

  datatype Option<+T> = None | Some(value: T)
}
