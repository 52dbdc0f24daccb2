/** An optional value: JavaScript's `number | undefined` for the invoice's custom term length. */
module Wrappers {

  datatype Option<+T> = None | Some(value: T)
}
