/** The optional-value datatype shared by the lookup tables and the readers. */
module Wrappers {

  datatype Option<+T> = None | Some(value: T)

}
