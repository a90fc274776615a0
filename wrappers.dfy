/** An optional value: the outcome of a merge that may conflict. */
module Wrappers {

  datatype Option<+T> = None | Some(value: T)
}
