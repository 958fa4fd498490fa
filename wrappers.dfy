/** The optional value used for the two lookups of the app that can fail. */
module Wrappers {

  datatype Option<T> = None | Some(value: T)
}
