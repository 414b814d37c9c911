/** The optional value used wherever the workbench code allows `null`. */
module Wrappers {

  datatype Option<+T> = None | Some(value: T)
}
