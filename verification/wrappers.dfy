/** A value that may be absent: a field that does not parse, an unselected answer. */
module Wrappers {

  datatype Option<T> = None | Some(value: T)
}
