/** The optional value used for JavaScript's `null`/`undefined` arguments and for lookups. */
module Wrappers {

  datatype Option<+T> = None | Some(value: T)
}
