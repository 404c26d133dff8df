/** The optional value used for "present or absent" throughout the model. */
module Wrappers {
  datatype Option<+T> = None | Some(value: T)
}
