/** The optional value used wherever the modelled code may return null, and the result of code that may throw. */
module Wrappers {

  datatype Option<+T> = None | Some(value: T)

  datatype Try<+T> = Thrown | Done(value: T)
}
