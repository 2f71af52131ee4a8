/**
 * What the simulation takes from its host: optional values (JavaScript's
 * `undefined`), and the `Math` functions it calls, which this model does not
 * define. They are passed in as plain functions, so nothing is assumed of them
 * beyond what a member states in its `requires`.
 */
module Host {

  datatype Option<+T> = None | Some(value: T) {
    function GetOr(default: T): T {
      match this
      case Some(v) => v
      case None => default
    }
  }

  /** `Math.sqrt`, `Math.log`, `Math.cos` and `Math.sin` of the host. */
  datatype Math = Math(sqrt: real -> real, log: real -> real, cos: real -> real, sin: real -> real)

  /**
   * The one property of the host's square root the force computation needs:
   * only zero has the root zero, so `1 / vectorDist(v)` is defined whenever
   * the squared length is not zero.
   */
  ghost predicate SqrtNonZero(sqrt: real -> real) {
    forall x: real :: x != 0.0 ==> sqrt(x) != 0.0
  }

  /** `Math.PI`, written as the decimal that the double prints as. */
  const PI: real := 3.141592653589793
}
