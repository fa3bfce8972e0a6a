/** Optional values and outcomes shared by every module of the model. */
module Wrappers {

  /** A value that may be absent (`undefined` in the source). */
  datatype Option<+T> = None | Some(value: T) {
    function GetOr(default: T): T {
      match this
      case Some(v) => v
      case None => default
    }
  }

  /** The value of an operation that either returns or throws an `Error` with a message. */
  datatype Result<+T> = Success(value: T) | Failure(message: string)

  /** The outcome of a state-changing step that either completes or throws. */
  datatype Status = Ok | Thrown(message: string)

  /** Concatenation regrouped, stated once for the proofs that accumulate results piece by piece. */
  lemma AppendAssociative<T>(a: seq<T>, b: seq<T>, c: seq<T>)
    ensures (a + b) + c == a + (b + c)
  {
  }
}
