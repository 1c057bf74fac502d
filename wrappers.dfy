/// Optional values, for operations of the source that can find nothing.
module Wrappers {
  datatype Option<T> = None | Some(value: T)
}
