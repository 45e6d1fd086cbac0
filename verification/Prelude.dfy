/** The two carriers every component of the operator uses: optional values and fallible calls. */
module Prelude {

  datatype Option<+T> = None | Some(value: T) {
    function GetOr(default: T): T {
      match this
      case None => default
      case Some(v) => v
    }
  }

  datatype Result<+T, +E> = Ok(value: T) | Err(error: E)

  /** The outcome of one call to the API server, seen from outside: it takes
      effect and is answered, never takes effect, or takes effect and the answer
      is lost. */
  datatype Fault = Delivered | LostBefore | LostAfter {
    predicate TakesEffect() {
      !LostBefore?
    }
  }
}
