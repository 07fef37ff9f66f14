/** Option, used for JavaScript's `undefined` at the places where the renderer can meet it. */
module Wrappers {

  /** `None` stands for `undefined`; `Some(v)` for a value that is there. */
  datatype Option<+T> = None | Some(value: T)
}
