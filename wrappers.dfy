/** The outcome of a step that can fail. */
module Wrappers {
  datatype Option<T> = None | Some(value: T)
}
