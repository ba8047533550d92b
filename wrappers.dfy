/** A value that may be absent: stands for JavaScript's `null` in the dashboard's state cells. */
module Wrappers {
  datatype Option<+T> = None | Some(value: T)
}
