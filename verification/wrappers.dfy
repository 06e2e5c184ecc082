/** The two failure-carrying shapes the resolvers need: an optional value
    (JavaScript's `undefined` from `Array.prototype.find`) and a result that
    is either a value or the error a resolver throws. */
module Wrappers {

  datatype Option<+T> = None | Some(value: T) {

    /** The carried value, or `default` when there is none. */
    function GetOr(default: T): T {
      match this
      case Some(v) => v
      case None => default
    }
  }

  datatype Result<+T, +E> = Success(value: T) | Failure(error: E)
}
