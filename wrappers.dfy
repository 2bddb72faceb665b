/** Option, for values PHP represents as null or false. */
module Wrappers {
  datatype Option<+T> = None | Some(value: T)
}
