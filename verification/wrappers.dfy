/** A cell that may be missing: pandas writes NaN where a derivation has no value. */
module Wrappers {

  datatype Option<+T> = None | Some(value: T)
}
