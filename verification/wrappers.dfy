/** The optional-value datatype used for the pending connection timer and for catalog lookups. */
module Wrappers {

  /** `None` stands for JavaScript's `undefined` (no match, no timer scheduled). */
  datatype Option<+T> = None | Some(value: T)
}
