/** The elementary functions the sources take from `Math` (or from Decimal.js
    in frontend/misc.js). Their values on reals are not computable here, so
    they are a record of functions every caller passes along, and `Lawful`
    collects the few laws the proofs rely on. */
module Elementary {

  /** `Math.sin`, `Math.cos`, `Math.sqrt` and `Math.atan2`. */
  datatype Math = Math(sin: real -> real, cos: real -> real, sqrt: real -> real, atan2: (real, real) -> real)

  /** The laws of the real functions that the proofs use: the square root
      of a non-negative number is a non-negative number whose square it is,
      `sin 0 = 0`, `cos 0 = 1`, and `sin² t + cos² t = 1`. */
  ghost predicate Lawful(m: Math) {
    m.sin(0.0) == 0.0 && m.cos(0.0) == 1.0 &&
    (forall x :: x >= 0.0 ==> m.sqrt(x) >= 0.0 && m.sqrt(x) * m.sqrt(x) == x) &&
    (forall t :: m.sin(t) * m.sin(t) + m.cos(t) * m.cos(t) == 1.0)
  }

  /** Degrees to radians, `d * Math.PI / 180`, with `Math.PI` the double
      nearest to pi. */
  function ToRad(d: real): real {
    d * 3.141592653589793 / 180.0
  }

  /** Radians to degrees, `r * 180 / Math.PI`. */
  function ToDeg(r: real): real {
    r * 180.0 / 3.141592653589793
  }

  /** Converting to radians and back is the identity. */
  lemma ToDegToRad(d: real)
    ensures ToDeg(ToRad(d)) == d
  {
  }

  /** A positive number has a positive square root. */
  lemma SqrtPositive(m: Math, x: real)
    requires Lawful(m) && x > 0.0
    ensures m.sqrt(x) > 0.0 && m.sqrt(x) * m.sqrt(x) == x
  {
  }

  /** A non-negative number has a non-negative square root whose square it
      is. */
  lemma SqrtOfNonNegative(m: Math, x: real)
    requires Lawful(m) && x >= 0.0
    ensures m.sqrt(x) >= 0.0 && m.sqrt(x) * m.sqrt(x) == x
  {
  }

  /** Sine and cosine lie in [-1, 1]. */
  lemma SinBounded(m: Math, t: real)
    requires Lawful(m)
    ensures m.sin(t) * m.sin(t) <= 1.0 && m.cos(t) * m.cos(t) <= 1.0
  {
  }
}
