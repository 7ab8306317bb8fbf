/** The nullable values of the C# source (`T?`) become an Option. */
module Wrappers {

  datatype Option<+T> = None | Some(value: T)
}
