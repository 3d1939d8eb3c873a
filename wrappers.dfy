/** An optional value: a field that may be missing, or an action that may not happen. */
module Wrappers {
  datatype Option<+T> = None | Some(value: T)
}
