/** The optional values of the models. */
module Wrappers {
  datatype Option<+T> = None | Some(value: T)
}
