/** The usual Option, used for nullable columns, missing keys and failed lookups. */
module Wrappers {
  datatype Option<+T> = None | Some(value: T)
}
