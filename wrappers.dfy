/** The optional value used across the model: a JavaScript value that may be
    `undefined` or `null`, a lookup that may miss, a decision that may not apply. */
module Wrappers {
  datatype Option<+T> = None | Some(value: T)
}
