/** A value that may be absent: a JavaScript `undefined` or SQL `NULL`. */
module Wrappers {

  datatype Option<+T> = None | Some(value: T)
}
