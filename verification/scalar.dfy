/** Scalar helpers over the reals shared by several source files. */
module Scalar {

  function Abs(x: real): (r: real)
    ensures r >= 0.0
    ensures r == x || r == -x
  {
    if x < 0.0 then -x else x
  }

  function Max(x: real, y: real): (r: real)
    ensures r >= x && r >= y
    ensures r == x || r == y
  {
    if x >= y then x else y
  }

  function Min(x: real, y: real): (r: real)
    ensures r <= x && r <= y
    ensures r == x || r == y
  {
    if x <= y then x else y
  }

  /** `Math.max(0, Math.min(1, t))`, the clamp every opacity, edge-parameter
      and texture-coordinate setter uses. */
  function Clamp01(t: real): (r: real)
    ensures 0.0 <= r <= 1.0
    ensures 0.0 <= t <= 1.0 ==> r == t
    ensures t < 0.0 ==> r == 0.0
    ensures t > 1.0 ==> r == 1.0
  {
    Max(0.0, Min(1.0, t))
  }

  /** Clamping twice is clamping once. */
  lemma Clamp01Idempotent(t: real)
    ensures Clamp01(Clamp01(t)) == Clamp01(t)
  {
  }
}
