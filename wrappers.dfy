/** A value that may be absent, for lookups that can find nothing. */
module Wrappers {

  datatype Option<+T> = None | Some(value: T)
}
