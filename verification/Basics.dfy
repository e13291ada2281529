/** Types every module shares. */
module Basics {

  datatype Option<+T> = None | Some(value: T)
}
