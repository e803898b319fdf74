/** An optional value, for results the source signals by leaving something out. */
module Wrappers {
  datatype Option<T> = None | Some(value: T)
}
