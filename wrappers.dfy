/** The optional value used for null names and absent collaborators. */
module Wrappers {

  datatype Option<T> = None | Some(value: T)
}
