/** Option stands in for C#'s nullable references (`FirstOrDefault` yields null when nothing matches). */
module Wrappers {

  datatype Option<+T> = None | Some(value: T)
}
