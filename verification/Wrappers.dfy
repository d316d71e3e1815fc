/** Results of partial lookups. */
module Wrappers {
  datatype Option<+T> = None | Some(value: T)
}
