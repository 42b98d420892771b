/** Python's `None`-or-value, as used for every optional field of the parsed records. */
module Wrappers {
  datatype Option<+T> = None | Some(value: T)
}
