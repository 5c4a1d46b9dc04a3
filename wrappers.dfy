/** A value that may be absent: a missing or unparsable field, a walk that ran out of steps. */
module Wrappers {

  datatype Option<+T> = None | Some(value: T)
}
