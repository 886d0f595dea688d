/** Stock optional value, used where the source answers JavaScript `null`. */
module Wrappers {

  datatype Option<+T> = None | Some(value: T)
}
