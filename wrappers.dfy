/** An optional value: a lookup that may miss, a read that may fail. */
module Wrappers {
  datatype Option<+T> = None | Some(value: T)
}
