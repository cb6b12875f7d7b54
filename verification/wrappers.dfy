/** An optional value: the model of a record field or an argument that may be `undefined`. */
module Wrappers {

  datatype Option<+T> = None | Some(value: T)
}
