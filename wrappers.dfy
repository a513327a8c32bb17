/** Kotlin's nullable types, written as an Option. */
module Wrappers {

  datatype Option<+T> = None | Some(value: T)
}
