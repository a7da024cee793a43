/** An optional value, for results the source may not have. */
module Wrappers {
  datatype Option<+T> = None | Some(value: T)
}
