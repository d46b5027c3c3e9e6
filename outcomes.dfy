/** Optional values and the three ways a call to the hosted backend can end. */
module Outcomes {

  /** A value that may be absent (`undefined` / `null` in the application). */
  datatype Option<+T> = None | Some(value: T) {

    /** `x ?? d` */
    function GetOr(default: T): T {
      match this
      case Some(v) => v
      case None => default
    }

    /** `x?.f(...)`: applies f when a value is present, stays absent otherwise. */
    function Map<U>(f: T -> U): Option<U> {
      match this
      case Some(v) => Some(f(v))
      case None => None
    }
  }

  /** The answer of one backend call: a result (`{ data }`), a returned
      error (`{ error }`), or an exception raised by the awaited promise. */
  datatype Reply<+T> = Ok(value: T) | Err | Throws
}
