/** A datatype that several components share. */
module Basics {

  datatype Option<+T> = None | Some(value: T)
}
