/** The optional value used where the sidebar code returns `false` or reads a nullable field. */
module Wrappers {

  datatype Option<+T> = None | Some(value: T)
}
