/** Optional values and results shared by the modules of this model. */
module Wrappers {

  /** A value that may be absent: JavaScript's `undefined` / `null` for a property. */
  datatype Option<+T> = None | Some(value: T) {

    /** The value, or `default` when absent. */
    function GetOr(default: T): T {
      match this
      case Some(v) => v
      case None => default
    }
  }

  /**
   * JavaScript truthiness of an optional string property: the only falsy
   * string values are a missing one (`undefined` / `null`) and `""`.
   */
  predicate Truthy(o: Option<string>): (t: bool)
    ensures !t <==> o == None || o == Some("")
  {
    o.Some? && o.value != ""
  }

  /** Either a value or an error message. */
  datatype Result<+R, +E> = Success(value: R) | Failure(error: E)
}
