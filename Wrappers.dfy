/** Option stands in for the driver's NaN "no data" result. */
module Wrappers {

  datatype Option<+T> = None | Some(value: T)
}
