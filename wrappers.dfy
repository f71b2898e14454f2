/** The absent-value marker of the lookups: JavaScript's `undefined` becomes `None`. */
module Wrappers {

  datatype Option<+T> = None | Some(value: T)
}
