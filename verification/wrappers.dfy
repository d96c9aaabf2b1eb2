/** The optional value used where the sources return a null pointer or a failed search. */
module Wrappers {
  datatype Option<+T> = None | Some(value: T)
}
