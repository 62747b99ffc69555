/** A value that may be absent: the customizer's render either echoes markup or returns early. */
module Wrappers {

  datatype Option<+T> = None | Some(value: T)
}
