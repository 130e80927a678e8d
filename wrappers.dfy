/** Failure-compatible wrappers shared by the whole model: Swift's `T?` becomes
    `Option<T>`, a `throws` function becomes one returning `Result<T, E>`, and a
    `throws` function returning `Void` becomes one returning `Outcome<E>`. */
module Wrappers {

  datatype Option<+T> = None | Some(value: T) {
    /** `self ?? other` */
    function GetOr(other: T): T {
      match this
      case Some(v) => v
      case None => other
    }
  }

  datatype Result<+R, +E> = Success(value: R) | Failure(error: E) {
    predicate IsFailure() {
      Failure?
    }

    function PropagateFailure<U>(): Result<U, E>
      requires Failure?
    {
      Failure(error)
    }

    function Extract(): R
      requires Success?
    {
      value
    }
  }

  datatype Outcome<+E> = Pass | Fail(error: E)

  /** The index of the first element satisfying `p`, as `Collection.firstIndex(where:)`
      (and therefore `first(where:)`) finds it. */
  function FirstIndex<T>(s: seq<T>, p: T -> bool): (r: Option<nat>)
    ensures r.Some? ==> r.value < |s| && p(s[r.value])
    ensures r.Some? ==> forall j :: 0 <= j < r.value ==> !p(s[j])
    ensures r.None? <==> forall j :: 0 <= j < |s| ==> !p(s[j])
  {
    if s == [] then None
    else if p(s[0]) then Some(0)
    else match FirstIndex(s[1..], p)
      case None => None
      case Some(i) => Some(i + 1)
  }
}
