/** A value that may be absent: an empty local-storage entry, or input rejected by validation. */
module Wrappers {
  datatype Option<+T> = None | Some(value: T)
}
