/** The optional value used where the logger hands its list to the save callback only sometimes. */
module Wrappers {
  datatype Option<+T> = None | Some(value: T)
}
