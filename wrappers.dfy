/** The optional value used wherever the quiz keeps "nothing yet", a value
    that JavaScript would represent as `null` or `undefined`. */
module Wrappers {

  datatype Option<+T> = None | Some(value: T)
}
