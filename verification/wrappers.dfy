/** The optional-value datatype used wherever the editor keeps "None or a value". */
module Wrappers {

  datatype Option<+T> = None | Some(value: T)
}
