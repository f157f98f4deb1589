/** The optional value that the Swift code writes as `T?`: a failable
    initializer or lookup either produces a value or produces nothing. */
module Wrappers {

  datatype Option<+T> = None | Some(value: T)
}
