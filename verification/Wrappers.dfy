/** The usual Option type. */
module Wrappers {

  datatype Option<+T> = None | Some(value: T)
}
