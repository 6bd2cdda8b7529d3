/** The clamped Newton solver `inverseBilinear` of
    frontend/distorted-messy.js, which finds the (u, v) texture coordinates
    of a point inside a quadrilateral, and the `updating`/`pendingUpdate`
    guard that coalesces calls of `updatePolygon`. */
module InverseBilinear {
  import opened Scalar
  import opened Elementary
  import Wgs84

  // ---------------------------------------------------------------------------
  // The bilinear patch
  // ---------------------------------------------------------------------------

  /** A point `[x, y]` (longitude and latitude in radians). */
  datatype Point = Point(x: real, y: real)

  /** The quadrilateral's corners, named after the (u, v) they sit at. */
  datatype Quad = Quad(p00: Point, p10: Point, p11: Point, p01: Point)

  /** `B(u, v)`: the bilinear blend of the four corners. */
  function Eval(q: Quad, u: real, v: real): Point {
    var ou, ov := 1.0 - u, 1.0 - v;
    Point(ou * ov * q.p00.x + u * ov * q.p10.x + u * v * q.p11.x + ou * v * q.p01.x,
          ou * ov * q.p00.y + u * ov * q.p10.y + u * v * q.p11.y + ou * v * q.p01.y)
  }

  /** The patch passes through its corners at the corners of the unit
      square. */
  lemma EvalCorners(q: Quad)
    ensures Eval(q, 0.0, 0.0) == q.p00 && Eval(q, 1.0, 0.0) == q.p10
    ensures Eval(q, 1.0, 1.0) == q.p11 && Eval(q, 0.0, 1.0) == q.p01
  {
  }

  // ---------------------------------------------------------------------------
  // The initial guess
  // ---------------------------------------------------------------------------

  /** The floor under the bounding-box extents of the initial guess. */
  const GuessFloor: real := 0.000000000001

  /** `Math.min` and `Math.max` of four numbers. */
  function Min4(a: real, b: real, c: real, d: real): (r: real)
    ensures r <= a && r <= b && r <= c && r <= d
    ensures r == a || r == b || r == c || r == d
  {
    Min(Min(a, b), Min(c, d))
  }

  function Max4(a: real, b: real, c: real, d: real): (r: real)
    ensures r >= a && r >= b && r >= c && r >= d
    ensures r == a || r == b || r == c || r == d
  {
    Max(Max(a, b), Max(c, d))
  }

  /** Where `t` sits inside `[lo, hi]`, with the extent floored at 1e-12,
      clamped to [0, 1]. */
  function Normalized(t: real, lo: real, hi: real): (r: real)
    ensures 0.0 <= r <= 1.0
    ensures lo <= t <= hi && hi - lo >= GuessFloor ==> r == (t - lo) / (hi - lo)
  {
    var r := Clamp01((t - lo) / Max(hi - lo, GuessFloor));
    if lo <= t <= hi && hi - lo >= GuessFloor then
      FractionInRange(t - lo, hi - lo);
      r
    else r
  }

  /** The starting (u, v): the target normalised to the corners' bounding
      box. */
  function InitialGuess(q: Quad, t: Point): (r: Point)
    ensures 0.0 <= r.x <= 1.0 && 0.0 <= r.y <= 1.0
  {
    var minX, maxX := Min4(q.p00.x, q.p10.x, q.p11.x, q.p01.x), Max4(q.p00.x, q.p10.x, q.p11.x, q.p01.x);
    var minY, maxY := Min4(q.p00.y, q.p10.y, q.p11.y, q.p01.y), Max4(q.p00.y, q.p10.y, q.p11.y, q.p01.y);
    Point(Normalized(t.x, minX, maxX), Normalized(t.y, minY, maxY))
  }

  // ---------------------------------------------------------------------------
  // One Newton step
  // ---------------------------------------------------------------------------

  /** The residual below which the iteration stops. */
  const Tolerance: real := 0.0000000001

  /** The Jacobian determinant below which the iteration stops. */
  const DetFloor: real := 0.00000000000001

  /** What one pass of the loop body leaves: the next iterate, or the
      (u, v) the loop breaks with. */
  datatype Outcome = Next(u: real, v: real) | Done(u: real, v: real)

  /** The Jacobian of `B` at (u, v), column by column: `dB/du` and `dB/dv`. */
  datatype Jacobian = Jacobian(dux: real, duy: real, dvx: real, dvy: real)

  function JacobianAt(q: Quad, u: real, v: real): Jacobian {
    var ou, ov := 1.0 - u, 1.0 - v;
    Jacobian(ov * (q.p10.x - q.p00.x) + v * (q.p11.x - q.p01.x),
             ov * (q.p10.y - q.p00.y) + v * (q.p11.y - q.p01.y),
             ou * (q.p01.x - q.p00.x) + u * (q.p11.x - q.p10.x),
             ou * (q.p01.y - q.p00.y) + u * (q.p11.y - q.p10.y))
  }

  function Det(j: Jacobian): real {
    j.dux * j.dvy - j.duy * j.dvx
  }

  /** `(fx, fy) = B(u, v) - target`. */
  function Residual(q: Quad, t: Point, u: real, v: real): Point {
    var b := Eval(q, u, v);
    Point(b.x - t.x, b.y - t.y)
  }

  /** `err = Math.sqrt(fx * fx + fy * fy)`. */
  function Error(m: Math, f: Point): real {
    m.sqrt(f.x * f.x + f.y * f.y)
  }

  /** True when the step `d` solves the linearised equation `J d = -f`. */
  predicate SolvesNewton(j: Jacobian, f: Point, d: Point) {
    j.dux * d.x + j.dvx * d.y == -f.x && j.duy * d.x + j.dvy * d.y == -f.y
  }

  /** `(deltaU, deltaV) = J^-1 (-f)` by the explicit 2x2 inverse. */
  function Delta(j: Jacobian, f: Point): (d: Point)
    requires Det(j) != 0.0
    ensures SolvesNewton(j, f, d)
  {
    var det := Det(j);
    var d := Point((-j.dvy * f.x + j.dvx * f.y) / det, (j.duy * f.x - j.dux * f.y) / det);
    Cramer(j.dux, j.duy, j.dvx, j.dvy, f.x, f.y, det, d.x, d.y);
    d
  }

  /** One pass of the loop body. It breaks, keeping (u, v), when the
      residual is below 1e-10 or `|det|` is below 1e-14; otherwise it takes
      the Newton step, and an iterate outside [-0.5, 1.5]^2 is clamped into
      [0, 1]^2 and ends the loop. */
  function Step(m: Math, q: Quad, t: Point, u: real, v: real): (r: Outcome)
    ensures r.Next? ==> -0.5 <= r.u <= 1.5 && -0.5 <= r.v <= 1.5
    ensures r.Done? ==> r == Done(u, v) || (0.0 <= r.u <= 1.0 && 0.0 <= r.v <= 1.0)
    ensures Error(m, Residual(q, t, u, v)) < Tolerance ==> r == Done(u, v)
    ensures Abs(Det(JacobianAt(q, u, v))) < DetFloor ==> r == Done(u, v)
    ensures r.Next? ==> SolvesNewton(JacobianAt(q, u, v), Residual(q, t, u, v), Point(r.u - u, r.v - v))
    ensures Error(m, Residual(q, t, u, v)) >= Tolerance && Abs(Det(JacobianAt(q, u, v))) >= DetFloor ==>
              (exists d :: SolvesNewton(JacobianAt(q, u, v), Residual(q, t, u, v), d)) &&
              forall d :: SolvesNewton(JacobianAt(q, u, v), Residual(q, t, u, v), d) ==>
                (InBand(u + d.x, v + d.y) ==> r == Next(u + d.x, v + d.y)) &&
                (!InBand(u + d.x, v + d.y) ==> r == Done(Clamp01(u + d.x), Clamp01(v + d.y)))
  {
    var f := Residual(q, t, u, v);
    if Error(m, f) < Tolerance then Done(u, v) else
    var j := JacobianAt(q, u, v);
    if Abs(Det(j)) < DetFloor then Done(u, v) else
    var d := Delta(j, f);
    NewtonUnique(j, f);
    var nu, nv := u + d.x, v + d.y;
    if nu < -0.5 || nu > 1.5 || nv < -0.5 || nv > 1.5 then
      Done(Clamp01(nu), Clamp01(nv))
    else
      assert Point(nu - u, nv - v) == d;
      Next(nu, nv)
  }

  /** The band `[-0.5, 1.5]^2` an iterate must stay in to continue. */
  predicate InBand(u: real, v: real) {
    -0.5 <= u <= 1.5 && -0.5 <= v <= 1.5
  }

  /** With a non-zero determinant the Newton step is the only solution of
      `J d = -f`. */
  lemma NewtonUnique(j: Jacobian, f: Point)
    requires Det(j) != 0.0
    ensures forall d :: SolvesNewton(j, f, d) ==> d == Delta(j, f)
  {
    forall d | SolvesNewton(j, f, d)
      ensures d == Delta(j, f)
    {
      CramerUnique(j.dux, j.duy, j.dvx, j.dvy, f.x, f.y, Det(j), d.x, d.y);
    }
  }

  /** The converse of Cramer's rule: any solution of the 2x2 system is the
      one the explicit inverse gives. */
  lemma CramerUnique(a: real, c: real, b: real, d: real, e: real, f: real, det: real, x: real, y: real)
    requires det == a * d - c * b && det != 0.0
    requires a * x + b * y == -e && c * x + d * y == -f
    ensures x == (-d * e + b * f) / det && y == (c * e - a * f) / det
  {
    assert x * det == d * (a * x + b * y) - b * (c * x + d * y);
    assert y * det == a * (c * x + d * y) - c * (a * x + b * y);
  }

  /** Cramer's rule for the 2x2 step. */
  lemma Cramer(a: real, c: real, b: real, d: real, e: real, f: real, det: real, x: real, y: real)
    requires det == a * d - c * b && det != 0.0
    requires x == (-d * e + b * f) / det && y == (c * e - a * f) / det
    ensures a * x + b * y == -e && c * x + d * y == -f
  {
    assert x * det == -d * e + b * f;
    assert y * det == c * e - a * f;
    assert (a * x + b * y) * det == -e * det;
    assert (c * x + d * y) * det == -f * det;
  }

  // ---------------------------------------------------------------------------
  // The loop
  // ---------------------------------------------------------------------------

  /** The iteration budget. */
  const MaxIterations: nat := 10

  /** At most `n` passes of the loop body from (u, v). */
  function Iterate(m: Math, q: Quad, t: Point, u: real, v: real, n: nat): (r: Point)
    decreases n
  {
    if n == 0 then Point(u, v)
    else
      match Step(m, q, t, u, v)
      case Done(a, b) => Point(a, b)
      case Next(a, b) => Iterate(m, q, t, a, b, n - 1)
  }

  /** `inverseBilinear(target, p00, p10, p11, p01)` as a whole: the guess,
      ten passes, and the final clamp. */
  function Solve(m: Math, q: Quad, t: Point): (r: Point)
    ensures 0.0 <= r.x <= 1.0 && 0.0 <= r.y <= 1.0
  {
    var g := InitialGuess(q, t);
    var p := Iterate(m, q, t, g.x, g.y, MaxIterations);
    Point(Clamp01(p.x), Clamp01(p.y))
  }

  /** The solver as the source writes it: a bounded `for` loop with two
      ways to break. Returns (u, v) and how many Newton steps it took. */
  method InverseBilinearLoop(m: Math, q: Quad, t: Point) returns (r: Point, steps: nat)
    ensures r == Solve(m, q, t)
    ensures steps <= MaxIterations
    ensures 0.0 <= r.x <= 1.0 && 0.0 <= r.y <= 1.0
  {
    var g := InitialGuess(q, t);
    var u, v := g.x, g.y;
    steps := 0;
    var iter := 0;
    while iter < MaxIterations
      invariant 0 <= iter <= MaxIterations && steps <= iter
      invariant Iterate(m, q, t, u, v, MaxIterations - iter) == Iterate(m, q, t, g.x, g.y, MaxIterations)
      decreases MaxIterations - iter
    {
      var o := Step(m, q, t, u, v);
      if o.Done? {
        u, v := o.u, o.v;
        break;
      }
      u, v := o.u, o.v;
      steps := steps + 1;
      iter := iter + 1;
    }
    r := Point(Clamp01(u), Clamp01(v));
  }

  // ---------------------------------------------------------------------------
  // Exactness on rectangles
  // ---------------------------------------------------------------------------

  /** The axis-aligned rectangle `[x0, x1] x [y0, y1]` as a quadrilateral. */
  function Rectangle(x0: real, x1: real, y0: real, y1: real): Quad {
    Quad(Point(x0, y0), Point(x1, y0), Point(x1, y1), Point(x0, y1))
  }

  /** On a rectangle the bilinear blend is the affine map
      `(x0 + u (x1 - x0), y0 + v (y1 - y0))`. */
  lemma EvalRectangle(x0: real, x1: real, y0: real, y1: real, u: real, v: real)
    ensures Eval(Rectangle(x0, x1, y0, y1), u, v) == Point(x0 + u * (x1 - x0), y0 + v * (y1 - y0))
  {
    var ou, ov := 1.0 - u, 1.0 - v;
    assert ou * ov * x0 + u * ov * x1 + u * v * x1 + ou * v * x0 == ou * x0 + u * x1;
    assert ou * ov * y0 + u * ov * y0 + u * v * y1 + ou * v * y1 == ov * y0 + v * y1;
  }

  /** On a rectangle whose sides reach the 1e-12 floor the solver inverts
      the patch exactly: the bounding-box guess already hits the target,
      the zero residual stops the loop at once, and (u, v) comes back. */
  lemma SolveInvertsRectangle(m: Math, x0: real, x1: real, y0: real, y1: real, u: real, v: real)
    requires Lawful(m)
    requires x1 - x0 >= GuessFloor && y1 - y0 >= GuessFloor
    requires 0.0 <= u <= 1.0 && 0.0 <= v <= 1.0
    ensures Solve(m, Rectangle(x0, x1, y0, y1), Eval(Rectangle(x0, x1, y0, y1), u, v)) == Point(u, v)
  {
    var q := Rectangle(x0, x1, y0, y1);
    var t := Eval(q, u, v);
    RectangleGuess(x0, x1, y0, y1, u, v);
    assert Residual(q, t, u, v) == Point(0.0, 0.0);
    SqrtZero(m);
    assert Error(m, Point(0.0, 0.0)) == 0.0;
    assert Step(m, q, t, u, v) == Done(u, v);
  }

  // ---------------------------------------------------------------------------
  // One Newton step on parallelograms
  // ---------------------------------------------------------------------------

  /** The parallelogram with corner `o` and sides `e` (along u) and `n`
      (along v). */
  function Parallelogram(o: Point, e: Point, n: Point): Quad {
    Quad(o, Point(o.x + e.x, o.y + e.y), Point(o.x + e.x + n.x, o.y + e.y + n.y), Point(o.x + n.x, o.y + n.y))
  }

  /** On a parallelogram the bilinear blend is affine. */
  lemma EvalParallelogram(o: Point, e: Point, n: Point, u: real, v: real)
    ensures Eval(Parallelogram(o, e, n), u, v) == Point(o.x + u * e.x + v * n.x, o.y + u * e.y + v * n.y)
  {
    var q := Parallelogram(o, e, n);
    var ou, ov := 1.0 - u, 1.0 - v;
    assert Eval(q, u, v).x == ou * ov * o.x + u * ov * (o.x + e.x) + u * v * (o.x + e.x + n.x) + ou * v * (o.x + n.x);
    assert Eval(q, u, v).y == ou * ov * o.y + u * ov * (o.y + e.y) + u * v * (o.y + e.y + n.y) + ou * v * (o.y + n.y);
    AffineBlend(o.x, e.x, n.x, u, v);
    AffineBlend(o.y, e.y, n.y, u, v);
  }

  /** One coordinate of the blend of a parallelogram's corners. */
  lemma AffineBlend(p: real, e: real, n: real, u: real, v: real)
    ensures (1.0 - u) * (1.0 - v) * p + u * (1.0 - v) * (p + e) + u * v * (p + e + n) + (1.0 - u) * v * (p + n)
         == p + u * e + v * n
  {
    assert (1.0 - u) * (1.0 - v) + u * (1.0 - v) + u * v + (1.0 - u) * v == 1.0;
    assert u * (1.0 - v) + u * v == u;
    assert u * v + (1.0 - u) * v == v;
  }

  /** On a parallelogram the Jacobian is the pair of sides everywhere. */
  lemma JacobianParallelogram(o: Point, e: Point, n: Point, u: real, v: real)
    ensures JacobianAt(Parallelogram(o, e, n), u, v) == Jacobian(e.x, e.y, n.x, n.y)
  {
  }

  /** On a parallelogram whose sides keep the determinant above the floor,
      the solver finds the (u, v) of any point of the patch: either the
      bounding-box guess is already within the tolerance, or one Newton step
      lands exactly on (u, v) and the next pass stops there. */
  lemma SolveInvertsParallelogram(m: Math, o: Point, e: Point, n: Point, u: real, v: real)
    requires Lawful(m)
    requires Abs(e.x * n.y - e.y * n.x) >= DetFloor
    requires 0.0 <= u <= 1.0 && 0.0 <= v <= 1.0
    ensures var q := Parallelogram(o, e, n);
      var t := Eval(q, u, v);
      var r := Solve(m, q, t);
      r == Point(u, v) || Error(m, Residual(q, t, r.x, r.y)) < Tolerance
  {
    var q := Parallelogram(o, e, n);
    var t := Eval(q, u, v);
    var g := InitialGuess(q, t);
    if Error(m, Residual(q, t, g.x, g.y)) < Tolerance {
      assert Step(m, q, t, g.x, g.y) == Done(g.x, g.y);
      assert Solve(m, q, t) == g;
    } else {
      NewtonLandsOnTarget(m, o, e, n, u, v, g.x, g.y);
      assert Iterate(m, q, t, g.x, g.y, MaxIterations) == Iterate(m, q, t, u, v, MaxIterations - 1);
      EvalParallelogram(o, e, n, u, v);
      assert Residual(q, t, u, v) == Point(0.0, 0.0);
      SqrtZero(m);
      assert Error(m, Point(0.0, 0.0)) == 0.0;
      assert Step(m, q, t, u, v) == Done(u, v);
    }
  }

  /** From any (a, b) with a residual above the tolerance, the Newton step
      on a parallelogram goes straight to the (u, v) of the target. */
  lemma NewtonLandsOnTarget(m: Math, o: Point, e: Point, n: Point, u: real, v: real, a: real, b: real)
    requires Abs(e.x * n.y - e.y * n.x) >= DetFloor
    requires 0.0 <= u <= 1.0 && 0.0 <= v <= 1.0
    requires Error(m, Residual(Parallelogram(o, e, n), Eval(Parallelogram(o, e, n), u, v), a, b)) >= Tolerance
    ensures Step(m, Parallelogram(o, e, n), Eval(Parallelogram(o, e, n), u, v), a, b) == Next(u, v)
  {
    var q := Parallelogram(o, e, n);
    var t := Eval(q, u, v);
    EvalParallelogram(o, e, n, u, v);
    EvalParallelogram(o, e, n, a, b);
    JacobianParallelogram(o, e, n, a, b);
    var j, f := JacobianAt(q, a, b), Residual(q, t, a, b);
    var d := Point(u - a, v - b);
    assert f == Point((a - u) * e.x + (b - v) * n.x, (a - u) * e.y + (b - v) * n.y);
    assert Det(j) == e.x * n.y - e.y * n.x;
    assert SolvesNewton(j, f, d);
    assert InBand(a + d.x, b + d.y);
  }

  /** On a rectangle the bounding-box guess of `B(u, v)` is `(u, v)`. */
  lemma RectangleGuess(x0: real, x1: real, y0: real, y1: real, u: real, v: real)
    requires x1 - x0 >= GuessFloor && y1 - y0 >= GuessFloor
    requires 0.0 <= u <= 1.0 && 0.0 <= v <= 1.0
    ensures InitialGuess(Rectangle(x0, x1, y0, y1), Eval(Rectangle(x0, x1, y0, y1), u, v)) == Point(u, v)
  {
    EvalRectangle(x0, x1, y0, y1, u, v);
    GuessRecovers(x0, x1, u);
    GuessRecovers(y0, y1, v);
  }

  /** The bounding-box guess of a point `lo + u (hi - lo)` is `u`. */
  lemma GuessRecovers(lo: real, hi: real, u: real)
    requires hi - lo >= GuessFloor && 0.0 <= u <= 1.0
    ensures Normalized(lo + u * (hi - lo), Min4(lo, hi, hi, lo), Max4(lo, hi, hi, lo)) == u
  {
    var d := hi - lo;
    assert Min4(lo, hi, hi, lo) == lo && Max4(lo, hi, hi, lo) == hi;
    ScaledInside(u, d);
    var t := lo + u * d;
    assert lo <= t <= hi;
    var r := Normalized(t, lo, hi);
    assert r == (t - lo) / (hi - lo);
    assert t - lo == u * d && hi - lo == d;
  }

  /** `0 <= u <= 1` and `d > 0` put `u d` in `[0, d]`, and dividing by `d`
      gives `u` back. */
  lemma ScaledInside(u: real, d: real)
    requires 0.0 <= u <= 1.0 && d > 0.0
    ensures 0.0 <= u * d <= d
    ensures (u * d) / d == u
  {
  }

  /** `sqrt 0 = 0`. */
  lemma SqrtZero(m: Math)
    requires Lawful(m)
    ensures m.sqrt(0.0) == 0.0
  {
    SqrtOfNonNegative(m, 0.0);
    Wgs84.ZeroProduct(m.sqrt(0.0), m.sqrt(0.0));
  }

  /** `0 <= a <= d` with `d` at the floor makes `a / max(d, 1e-12)` the
      fraction `a / d`, already inside [0, 1]. */
  lemma FractionInRange(a: real, d: real)
    requires 0.0 <= a <= d && d >= GuessFloor
    ensures Clamp01(a / Max(d, GuessFloor)) == a / d
  {
    assert Max(d, GuessFloor) == d;
    assert a / d <= 1.0;
  }

  // ---------------------------------------------------------------------------
  // The re-entrancy guard of updatePolygon
  // ---------------------------------------------------------------------------

  /** The two flags, and how many updates have started so far. */
  datatype Guard = Guard(updating: bool, pending: bool, started: nat)

  /** What reaches the guard: a call of `updatePolygon`, or the `finally`
      block of the run in progress. */
  datatype Event = Call | Finish

  /** A request while a run is in progress is only remembered; otherwise
      the run starts with `pendingUpdate` cleared. */
  function Request(g: Guard): (r: Guard)
    ensures g.updating ==> r == g.(pending := true)
    ensures !g.updating ==> r.updating && !r.pending && r.started == g.started + 1
  {
    if g.updating then g.(pending := true)
    else Guard(true, false, g.started + 1)
  }

  /** The `finally` block: `updating` is reset, and a remembered request
      clears `pendingUpdate` and calls `updatePolygon` once more, which
      starts at once. */
  function Complete(g: Guard): (r: Guard)
    ensures !g.pending ==> r == g.(updating := false)
    ensures g.pending ==> r == Guard(true, false, g.started + 1)
  {
    var done := g.(updating := false);
    if done.pending then Request(done.(pending := false)) else done
  }

  function Handle(g: Guard, e: Event): Guard {
    match e
    case Call => Request(g)
    case Finish => Complete(g)
  }

  function HandleAll(g: Guard, es: seq<Event>): Guard
    decreases |es|
  {
    if |es| == 0 then g else HandleAll(Handle(g, es[0]), es[1..])
  }

  /** A remembered request implies a run in progress. */
  predicate GuardOk(g: Guard) {
    g.pending ==> g.updating
  }

  /** Every event keeps the guard consistent. */
  lemma {:induction false} GuardStaysOk(g: Guard, es: seq<Event>)
    requires GuardOk(g)
    ensures GuardOk(HandleAll(g, es))
    decreases |es|
  {
    if |es| > 0 {
      GuardStaysOk(Handle(g, es[0]), es[1..]);
    }
  }

  /** Any number of calls while a run is in progress start nothing, and its
      completion starts exactly one rerun. */
  lemma {:induction false} CallsCoalesce(g: Guard, k: nat)
    requires g.updating && GuardOk(g)
    ensures var r := HandleAll(g, seq(k, _ => Call));
      r.updating && r.started == g.started && (k > 0 ==> r.pending) && (k == 0 ==> r == g)
    ensures k > 0 ==> Complete(HandleAll(g, seq(k, _ => Call))) == Guard(true, false, g.started + 1)
    decreases k
  {
    if k > 0 {
      var rest := seq(k - 1, _ => Call);
      assert seq(k, _ => Call) == [Call] + rest;
      assert ([Call] + rest)[1..] == rest;
      CallsCoalesce(Request(g), k - 1);
    }
  }
}
