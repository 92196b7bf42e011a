/** The optional value used wherever the storefront has `null`, `undefined` or NaN. */
module Wrappers {

  datatype Option<+T> = None | Some(value: T)
}
