/** Failure-carrying values shared by the model: Java's nullable references,
    thrown exceptions and AssertJ's pass/fail outcome. */
module Wrappers {

  /** A Java reference that may be null. */
  datatype Option<+T> = None | Some(value: T)

  /** A value, or the exception that a Java method throws instead of returning. */
  datatype Result<+R, +E> = Success(value: R) | Failure(error: E)

  /** The outcome of an assertion: it returns normally, or it fails with a reason. */
  datatype Outcome<+E> = Pass | Fail(error: E)

  /** Runs `second` only when `first` passed: the first failure wins, as when
      AssertJ checks are chained on one object. */
  function AndThen<E>(first: Outcome<E>, second: Outcome<E>): (r: Outcome<E>)
    ensures r.Pass? <==> first.Pass? && second.Pass?
    ensures first.Fail? ==> r == first
  {
    if first.Fail? then first else second
  }
}
