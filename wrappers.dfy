/** Option, used for Java references that may be null and for partial operations. */
module Wrappers {

  datatype Option<+T> = None | Some(value: T)
}
