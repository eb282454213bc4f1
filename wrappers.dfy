/** Option: a value that may be absent. Used for JavaScript's `null`/`undefined`
    and for "this step threw". */
module Wrappers {
  datatype Option<+T> = None | Some(value: T)
}
