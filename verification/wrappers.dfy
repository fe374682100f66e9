/** The optional-value type used throughout the model for JavaScript's
    `null` / `undefined` and for "not found" results. */
module Wrappers {

  datatype Option<+T> = None | Some(value: T)
}
