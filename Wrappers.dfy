/** An optional value: a reply that may be missing, a search that may find
    nothing. */
module Wrappers {
  datatype Option<T> = None | Some(value: T)
}
