/** The option type used where the source has a missing hash entry, a null pointer or an unset field. */
module Wrappers {

  datatype Option<+T> = None | Some(value: T)
}
