/** A value that may be absent: Python's `None` or a name left unbound. */
module Wrappers {

  datatype Option<T> = None | Some(value: T)
}
