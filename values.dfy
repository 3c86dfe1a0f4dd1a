/** Scalar values of the MATLAB front end: C doubles as far as the front end
    tells them apart, C's truncating integer cast, and the C library
    conversions `atoi`/`atof`, which the model takes as given functions. */
module Values {

  datatype Option<+T> = None | Some(value: T)

  /** An IEEE double. The front end compares doubles only with `>= 0` and
      with `HUGE_VAL` (positive infinity), so finite values are kept as reals. */
  datatype Double = Finite(value: real) | PosInf | NegInf | NaN

  /** C's `d >= 0` on a double: true for +inf, false for -inf and NaN. */
  predicate AtLeastZero(d: Double)
  {
    match d
    case Finite(r) => r >= 0.0
    case PosInf => true
    case _ => false
  }

  /** C's cast `(int) r` of a finite double: the fraction is dropped, so the
      result is rounded toward zero. */
  function TruncateToInt(r: real): (t: int)
    ensures 0.0 <= r ==> 0 <= t && t as real <= r < t as real + 1.0
    ensures r < 0.0 ==> t <= 0 && t as real - 1.0 < r <= t as real
  {
    if r >= 0.0 then r.Floor else -((-r).Floor)
  }

  /** A vector of finite doubles cast element by element. */
  function TruncateAll(ls: seq<real>): seq<int>
  {
    seq(|ls|, i requires 0 <= i < |ls| => TruncateToInt(ls[i]))
  }

  /** The C library's `atoi` and `atof` applied to one option token. */
  datatype Conversions = Conversions(atoi: string -> int, atof: string -> Double)
}
