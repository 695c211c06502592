/** A value that may be absent: a pandas null cell, or a street number that does not parse. */
module Wrappers {

  datatype Option<+T> = None | Some(value: T)
}
