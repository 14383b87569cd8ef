/** Optional values and success-or-error results, used by the JSON accessors
    (Swift optionals) and by `parseJSON` / `decode` (Swift `Result`). */
module Wrappers {

  /** A value that may be missing. */
  datatype Option<+T> = None | Some(value: T) {

    /** Optional chaining: `o?.f` is `o.Then(f)`. A missing value stays
        missing and `f` is not applied; a present one is handed to `f`. */
    function Then<U>(f: T -> Option<U>): (r: Option<U>)
      ensures None? ==> r == None
      ensures Some? ==> r == f(value)
    {
      match this
      case None => None
      case Some(v) => f(v)
    }
  }

  /** Chaining twice is chaining once with the composed step: `(o?.f)?.g`
      is `o?.(f(_)?.g)`. */
  lemma ThenAssociative<T, U, V>(o: Option<T>, f: T -> Option<U>, g: U -> Option<V>)
    ensures o.Then(f).Then(g) == o.Then((x: T) => f(x).Then(g))
  {
  }

  /** The outcome of a call that either succeeds with a value or fails with an error. */
  datatype Result<+T, +E> = Success(value: T) | Failure(error: E)
}
