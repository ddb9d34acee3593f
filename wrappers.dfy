/** The optional value used for TypeScript's optional properties and for "nothing was sent". */
module Wrappers {
  datatype Option<+T> = None | Some(value: T)
}
