/** A value that may be absent, as Go's nil pointers and empty settings are. */
module Wrappers {

  datatype Option<+T> = None | Some(value: T)
}
