/** The optional value used across the model for JavaScript's `null` / `undefined` slots. */
module Wrappers {
  datatype Option<T> = None | Some(value: T)
}
