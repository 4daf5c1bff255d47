/** Values shared by the two models: Python's optional arguments, its raised
    exceptions, and its truthiness and int() conversions on floats. */
module Common {

  /** An optional argument: `None` or a supplied value. */
  datatype Option<+T> = None | Some(value: T)

  /** The outcome of a computation that may raise. */
  datatype Result<+T, +E> = Ok(value: T) | Err(error: E)

  /** Python truthiness of an optional number: `None` and zero are false. */
  predicate Truthy(x: Option<real>)
  {
    x.Some? && x.value != 0.0
  }

  /** Python's `int(x)` on a float: drops the fractional part, rounding toward zero. */
  function Trunc(x: real): (n: int)
    ensures 0.0 <= x ==> 0 <= n && n as real <= x < n as real + 1.0
    ensures x < 0.0 ==> n <= 0 && n as real - 1.0 < x <= n as real
  {
    if 0.0 <= x then x.Floor else -((-x).Floor)
  }

  /** On non-negative input, truncation is the floor. */
  lemma TruncIsFloor(x: real)
    requires 0.0 <= x
    ensures Trunc(x) == x.Floor
  {
  }

  /** Truncation leaves a whole number unchanged. */
  lemma TruncOfWhole(k: int)
    ensures Trunc(k as real) == k
  {
  }
}
