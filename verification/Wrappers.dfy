/** An optional value, as most services need one. */
module Wrappers {
  datatype Option<+T> = None | Some(value: T)
}
