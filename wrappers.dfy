/** The optional value used for "a cell was found" / "no cell fits". */
module Wrappers {
  datatype Option<+T> = None | Some(value: T)
}
