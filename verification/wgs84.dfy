/** The WGS-84 sensor model of backend/figureout.js: the ellipsoid constants,
    geodetic/ECEF conversion, the rotations and 3x3 algebra of the attitude
    chain, the line-of-sight builder and the ray/ellipsoid intersection.
    Trigonometry, `sqrt`, `hypot` and `atan2` come from an `Elementary.Math`
    record; numbers are reals. */
module Wgs84 {
  import opened Wrappers
  import opened Linear
  import opened Elementary

  // ---------------------------------------------------------------------------
  // Ellipsoid constants (NIMA TR8350.2, chapter 3, table 3.1)
  // ---------------------------------------------------------------------------

  /** Semi-major axis `a`, in metres. */
  const SemiMajor: real := 6378137.0

  /** Flattening `f = 1 / 298.257223563`. */
  const Flattening: real := 1.0 / 298.257223563

  /** First eccentricity squared, `e2 = f (2 - f)`. */
  const EccentricitySquared: real := Flattening * (2.0 - Flattening)

  /** Semi-minor axis `b = a (1 - f)`. */
  const SemiMinor: real := SemiMajor * (1.0 - Flattening)

  /** The derived constants agree: `b^2 = a^2 (1 - e2)`, and the ellipsoid is
      oblate with `0 < e2 < 1`. */
  lemma DerivedConstants()
    ensures SemiMinor * SemiMinor == SemiMajor * SemiMajor * (1.0 - EccentricitySquared)
    ensures 0.0 < EccentricitySquared < 1.0 && 0.0 < SemiMinor < SemiMajor
  {
  }

  /** `(x^2 + y^2) / a^2 + z^2 / b^2 = 1`: the point lies on the ellipsoid. */
  predicate OnEllipsoid(p: Vec3) {
    OnSpheroid(p, SemiMajor * SemiMajor, SemiMinor * SemiMinor)
  }

  /** `(x^2 + y^2) / a2 + z^2 / b2 = 1` for squared semi-axes `a2` and `b2`. */
  predicate OnSpheroid(p: Vec3, a2: real, b2: real)
    requires a2 > 0.0 && b2 > 0.0
  {
    Level(p, a2, b2) == 1.0
  }

  /** `(x^2 + y^2) / a2 + z^2 / b2`, which is 1 on the surface. */
  function Level(p: Vec3, a2: real, b2: real): real
    requires a2 > 0.0 && b2 > 0.0
  {
    (p.x * p.x + p.y * p.y) / a2 + p.z * p.z / b2
  }

  /** `(x dx + y dy) / a2 + z dz / b2`, the mixed term of the level along a
      ray. */
  function Cross(s: Vec3, d: Vec3, a2: real, b2: real): real
    requires a2 > 0.0 && b2 > 0.0
  {
    (s.x * d.x + s.y * d.y) / a2 + s.z * d.z / b2
  }

  // ---------------------------------------------------------------------------
  // Rotations and 3x3 algebra
  // ---------------------------------------------------------------------------

  /** `rotX(t)`: rotation by `t` about the first axis. */
  function RotX(m: Math, t: real): (r: Mat3)
    ensures forall v :: MatVec(r, v).x == v.x
  {
    var c, s := m.cos(t), m.sin(t);
    Mat3(Vec3(1.0, 0.0, 0.0), Vec3(0.0, c, -s), Vec3(0.0, s, c))
  }

  /** `rotY(t)`: rotation by `t` about the second axis. */
  function RotY(m: Math, t: real): (r: Mat3)
    ensures forall v :: MatVec(r, v).y == v.y
  {
    var c, s := m.cos(t), m.sin(t);
    Mat3(Vec3(c, 0.0, s), Vec3(0.0, 1.0, 0.0), Vec3(-s, 0.0, c))
  }

  /** `rotZ(t)`: rotation by `t` about the third axis. */
  function RotZ(m: Math, t: real): (r: Mat3)
    ensures forall v :: MatVec(r, v).z == v.z
  {
    var c, s := m.cos(t), m.sin(t);
    Mat3(Vec3(c, -s, 0.0), Vec3(s, c, 0.0), Vec3(0.0, 0.0, 1.0))
  }

  /** A matrix whose transpose is its inverse. */
  predicate Orthogonal(r: Mat3) {
    MatMul(Transpose(r), r) == Identity && MatMul(r, Transpose(r)) == Identity
  }

  /** With `sin^2 + cos^2 = 1` each rotation is orthogonal, so it is undone
      by its transpose; a zero angle gives the identity. */
  lemma RotationsOrthogonal(m: Math, t: real)
    requires Lawful(m)
    ensures Orthogonal(RotX(m, t)) && Orthogonal(RotY(m, t)) && Orthogonal(RotZ(m, t))
  {
    var c, s := m.cos(t), m.sin(t);
    assert c * c + s * s == 1.0;
    assert RotX(m, t) == Mat3(Vec3(1.0, 0.0, 0.0), Vec3(0.0, c, -s), Vec3(0.0, s, c));
    assert RotY(m, t) == Mat3(Vec3(c, 0.0, s), Vec3(0.0, 1.0, 0.0), Vec3(-s, 0.0, c));
    assert RotZ(m, t) == Mat3(Vec3(c, -s, 0.0), Vec3(s, c, 0.0), Vec3(0.0, 0.0, 1.0));
    OrthogonalX(c, s);
    OrthogonalY(c, s);
    OrthogonalZ(c, s);
  }

  /** A zero angle rotates nothing. */
  lemma RotationsAtZero(m: Math)
    requires Lawful(m)
    ensures RotX(m, 0.0) == Identity && RotY(m, 0.0) == Identity && RotZ(m, 0.0) == Identity
  {
  }

  /** The entries of `matmul(A, B)` after its innermost loop has added the
      first `k` products `A[i][k'] * B[k'][j]` to the zero it started from. */
  function PartialEntry(a: Mat3, b: Mat3, i: nat, j: nat, k: nat): real
    requires i < 3 && j < 3 && k <= 3
  {
    if k == 0 then 0.0 else PartialEntry(a, b, i, j, k - 1) + Entry(a, i, k - 1) * Entry(b, k - 1, j)
  }

  /** The three-deep loop of `matmul(A, B)`, accumulating `R[i][j] +=
      A[i][k] * B[k][j]` into a zero matrix: it computes the matrix
      product. */
  method MatMulLoop(a: Mat3, b: Mat3) returns (r: seq<seq<real>>)
    ensures |r| == 3 && forall i :: 0 <= i < 3 ==> |r[i]| == 3
    ensures forall i, j :: 0 <= i < 3 && 0 <= j < 3 ==> r[i][j] == Entry(MatMul(a, b), i, j)
  {
    r := [[0.0, 0.0, 0.0], [0.0, 0.0, 0.0], [0.0, 0.0, 0.0]];
    var i := 0;
    while i < 3
      invariant 0 <= i <= 3
      invariant |r| == 3 && forall p :: 0 <= p < 3 ==> |r[p]| == 3
      invariant forall p, q :: 0 <= p < i && 0 <= q < 3 ==> r[p][q] == Entry(MatMul(a, b), p, q)
      invariant forall p, q :: i <= p < 3 && 0 <= q < 3 ==> r[p][q] == 0.0
    {
      var j := 0;
      while j < 3
        invariant 0 <= j <= 3
        invariant |r| == 3 && forall p :: 0 <= p < 3 ==> |r[p]| == 3
        invariant forall p, q :: 0 <= p < i && 0 <= q < 3 ==> r[p][q] == Entry(MatMul(a, b), p, q)
        invariant forall q :: 0 <= q < j ==> r[i][q] == Entry(MatMul(a, b), i, q)
        invariant forall p, q :: (i < p < 3 || (p == i && j <= q)) && 0 <= q < 3 ==> r[p][q] == 0.0
      {
        var k := 0;
        while k < 3
          invariant 0 <= k <= 3
          invariant |r| == 3 && forall p :: 0 <= p < 3 ==> |r[p]| == 3
          invariant forall p, q :: 0 <= p < i && 0 <= q < 3 ==> r[p][q] == Entry(MatMul(a, b), p, q)
          invariant forall q :: 0 <= q < j ==> r[i][q] == Entry(MatMul(a, b), i, q)
          invariant forall p, q :: (i < p < 3 || (p == i && j < q)) && 0 <= q < 3 ==> r[p][q] == 0.0
          invariant r[i][j] == PartialEntry(a, b, i, j, k)
        {
          r := r[i := r[i][j := r[i][j] + Entry(a, i, k) * Entry(b, k, j)]];
          k := k + 1;
        }
        FullEntry(a, b, i, j);
        j := j + 1;
      }
      i := i + 1;
    }
  }

  /** After all three products the accumulated entry is the product's. */
  lemma FullEntry(a: Mat3, b: Mat3, i: nat, j: nat)
    requires i < 3 && j < 3
    ensures PartialEntry(a, b, i, j, 3) == Entry(MatMul(a, b), i, j)
  {
    assert PartialEntry(a, b, i, j, 1) == Entry(a, i, 0) * Entry(b, 0, j);
    assert PartialEntry(a, b, i, j, 2) == PartialEntry(a, b, i, j, 1) + Entry(a, i, 1) * Entry(b, 1, j);
    assert PartialEntry(a, b, i, j, 3) == PartialEntry(a, b, i, j, 2) + Entry(a, i, 2) * Entry(b, 2, j);
    assert Row(a, i) == Vec3(Entry(a, i, 0), Entry(a, i, 1), Entry(a, i, 2));
    assert Col(b, j) == Vec3(Entry(b, 0, j), Entry(b, 1, j), Entry(b, 2, j));
  }

  /** Every row as long as the first. */
  predicate Rectangular(rows: seq<seq<real>>) {
    forall i :: 0 <= i < |rows| ==> |rows[i]| == |rows[0]|
  }

  /** `transpose(M)`, `M[0].map((_, i) => M.map(row => row[i]))`, on a
      rectangular matrix: entry `(i, j)` of the result is entry `(j, i)` of
      `M`. An empty `M` has no first row to map over, which throws. */
  function TransposeRows(rows: seq<seq<real>>): (r: Result<seq<seq<real>>>)
    requires Rectangular(rows)
    ensures r.Failure? <==> |rows| == 0
    ensures r.Failure? ==> r.error == TypeError
    ensures r.Success? ==> |r.value| == |rows[0]| && forall i :: 0 <= i < |r.value| ==> |r.value[i]| == |rows|
    ensures r.Success? ==> forall i, j :: 0 <= i < |rows[0]| && 0 <= j < |rows| ==> r.value[i][j] == rows[j][i]
  {
    if |rows| == 0 then Failure(TypeError)
    else Success(seq(|rows[0]|, i requires 0 <= i < |rows[0]| => seq(|rows|, j requires 0 <= j < |rows| => rows[j][i])))
  }

  /** Transposing twice gives back a matrix with at least one row and one
      column. */
  lemma TransposeRowsInvolution(rows: seq<seq<real>>)
    requires Rectangular(rows) && |rows| > 0 && |rows[0]| > 0
    ensures TransposeRows(rows).Success? && Rectangular(TransposeRows(rows).value)
    ensures TransposeRows(TransposeRows(rows).value) == Success(rows)
  {
    var t := TransposeRows(rows).value;
    assert |t| == |rows[0]| && |t[0]| == |rows|;
    assert Rectangular(t);
    var tt := TransposeRows(t).value;
    assert |tt| == |rows|;
    forall j | 0 <= j < |rows|
      ensures tt[j] == rows[j]
    {
      assert |tt[j]| == |t| == |rows[j]|;
      forall i | 0 <= i < |rows[j]|
        ensures tt[j][i] == rows[j][i]
      {
        assert tt[j][i] == t[i][j];
      }
    }
    assert tt == rows;
  }

  /** Rows of length zero have no columns: the transpose is empty, and
      transposing that throws. */
  lemma TransposeRowsEmptyRows(rows: seq<seq<real>>)
    requires Rectangular(rows) && |rows| > 0 && |rows[0]| == 0
    ensures TransposeRows(rows) == Success([])
    ensures TransposeRows(TransposeRows(rows).value) == Failure(TypeError)
  {
  }

  /** Rows of unit length and pairwise perpendicular make `r r^T = I`. */
  lemma OrthonormalRows(r: Mat3)
    requires Dot(r.r0, r.r0) == 1.0 && Dot(r.r1, r.r1) == 1.0 && Dot(r.r2, r.r2) == 1.0
    requires Dot(r.r0, r.r1) == 0.0 && Dot(r.r0, r.r2) == 0.0 && Dot(r.r1, r.r2) == 0.0
    ensures MatMul(r, Transpose(r)) == Identity
  {
    var t := Transpose(r);
    assert Col(t, 0) == r.r0 && Col(t, 1) == r.r1 && Col(t, 2) == r.r2;
    DotSymmetric(r.r0, r.r1);
    DotSymmetric(r.r0, r.r2);
    DotSymmetric(r.r1, r.r2);
  }

  lemma DotSymmetric(u: Vec3, v: Vec3)
    ensures Dot(u, v) == Dot(v, u)
  {
  }

  /** `Dot` of two vectors given by their components. */
  lemma DotEntries(a: real, b: real, c: real, d: real, e: real, f: real)
    ensures Dot(Vec3(a, b, c), Vec3(d, e, f)) == a * d + b * e + c * f
  {
  }

  /** A matrix given by its nine entries whose rows and columns are each
      of unit length and pairwise perpendicular is orthogonal. */
  lemma OrthogonalEntries(a: real, b: real, c: real, d: real, e: real, f: real, g: real, h: real, i: real)
    requires a * a + b * b + c * c == 1.0 && d * d + e * e + f * f == 1.0 && g * g + h * h + i * i == 1.0
    requires a * d + b * e + c * f == 0.0 && a * g + b * h + c * i == 0.0 && d * g + e * h + f * i == 0.0
    requires a * a + d * d + g * g == 1.0 && b * b + e * e + h * h == 1.0 && c * c + f * f + i * i == 1.0
    requires a * b + d * e + g * h == 0.0 && a * c + d * f + g * i == 0.0 && b * c + e * f + h * i == 0.0
    ensures Orthogonal(Mat3(Vec3(a, b, c), Vec3(d, e, f), Vec3(g, h, i)))
  {
    var r := Mat3(Vec3(a, b, c), Vec3(d, e, f), Vec3(g, h, i));
    var t := Mat3(Vec3(a, d, g), Vec3(b, e, h), Vec3(c, f, i));
    assert Transpose(r) == t;
    TransposeInvolution(r);
    DotEntries(a, b, c, a, b, c);
    DotEntries(d, e, f, d, e, f);
    DotEntries(g, h, i, g, h, i);
    DotEntries(a, b, c, d, e, f);
    DotEntries(a, b, c, g, h, i);
    DotEntries(d, e, f, g, h, i);
    OrthonormalRows(r);
    DotEntries(a, d, g, a, d, g);
    DotEntries(b, e, h, b, e, h);
    DotEntries(c, f, i, c, f, i);
    DotEntries(a, d, g, b, e, h);
    DotEntries(a, d, g, c, f, i);
    DotEntries(b, e, h, c, f, i);
    OrthonormalRows(t);
  }

  /** With `c^2 + s^2 = 1` the rotation shape about the first axis is
      orthogonal; likewise below for the second and third axes. */
  lemma OrthogonalX(c: real, s: real)
    requires c * c + s * s == 1.0
    ensures Orthogonal(Mat3(Vec3(1.0, 0.0, 0.0), Vec3(0.0, c, -s), Vec3(0.0, s, c)))
  {
    UnitCircle(c, s);
    OrthogonalEntries(1.0, 0.0, 0.0, 0.0, c, -s, 0.0, s, c);
  }

  lemma OrthogonalY(c: real, s: real)
    requires c * c + s * s == 1.0
    ensures Orthogonal(Mat3(Vec3(c, 0.0, s), Vec3(0.0, 1.0, 0.0), Vec3(-s, 0.0, c)))
  {
    UnitCircle(c, s);
    OrthogonalEntries(c, 0.0, s, 0.0, 1.0, 0.0, -s, 0.0, c);
  }

  lemma OrthogonalZ(c: real, s: real)
    requires c * c + s * s == 1.0
    ensures Orthogonal(Mat3(Vec3(c, -s, 0.0), Vec3(s, c, 0.0), Vec3(0.0, 0.0, 1.0)))
  {
    UnitCircle(c, s);
    OrthogonalEntries(c, -s, 0.0, s, c, 0.0, 0.0, 0.0, 1.0);
  }

  /** The sums of products of a cosine/sine pair that the rotation dot
      products reduce to. */
  lemma UnitCircle(c: real, s: real)
    requires c * c + s * s == 1.0
    ensures s * s + c * c == 1.0 && c * c + -s * -s == 1.0 && -s * -s + c * c == 1.0
    ensures c * s + -s * c == 0.0 && c * -s + s * c == 0.0
    ensures s * c + c * -s == 0.0 && -s * c + c * s == 0.0
  {
  }

  // ---------------------------------------------------------------------------
  // Geodetic and ECEF coordinates
  // ---------------------------------------------------------------------------

  /** `1 - e2 sin^2(phi)`. */
  function Weight(m: Math, phi: real): real {
    1.0 - EccentricitySquared * (m.sin(phi) * m.sin(phi))
  }

  /** `N = a / sqrt(1 - e2 sin^2 phi)`, the prime vertical radius of
      curvature both conversions compute. The square root is never zero
      for a lawful `Math`; the guard only keeps the division defined. */
  function PrimeVertical(m: Math, phi: real): real {
    var q := m.sqrt(Weight(m, phi));
    if q == 0.0 then 0.0 else SemiMajor / q
  }

  /** The weight is positive because `sin^2 <= 1` and `e2 < 1`, so `N` is a
      positive radius with `N^2 (1 - e2 sin^2 phi) = a^2`. */
  lemma PrimeVerticalRadius(m: Math, phi: real)
    requires Lawful(m)
    ensures Weight(m, phi) > 0.0 && PrimeVertical(m, phi) > 0.0
    ensures PrimeVertical(m, phi) * PrimeVertical(m, phi) * Weight(m, phi) == SemiMajor * SemiMajor
  {
    var w := Weight(m, phi);
    SinBounded(m, phi);
    WeightRaw(m.sin(phi) * m.sin(phi));
    SqrtPositive(m, w);
    RadiusRaw(SemiMajor, m.sqrt(w), w);
  }

  lemma WeightRaw(q: real)
    requires q <= 1.0
    ensures 1.0 - EccentricitySquared * q > 0.0
  {
  }

  lemma RadiusRaw(a: real, q: real, w: real)
    requires a > 0.0 && q > 0.0 && q * q == w
    ensures a / q > 0.0 && (a / q) * (a / q) * w == a * a
  {
    assert (a / q) * q == a;
    assert (a / q) * (a / q) * w == ((a / q) * q) * ((a / q) * q);
  }

  /** `geodeticToECEF(lat, lon, h)`, angles in degrees. */
  function GeodeticToEcef(m: Math, lat: real, lon: real, h: real): Vec3 {
    var phi, lambda := ToRad(lat), ToRad(lon);
    var n := PrimeVertical(m, phi);
    Vec3((n + h) * m.cos(phi) * m.cos(lambda), (n + h) * m.cos(phi) * m.sin(lambda),
         (n * (1.0 - EccentricitySquared) + h) * m.sin(phi))
  }

  /** The converted point lies at distance `(N + h) cos(phi)` from the
      polar axis, whatever the longitude, and at height `(N (1 - e2) + h)
      sin(phi)` above the equatorial plane. */
  lemma GeodeticToEcefAxes(m: Math, lat: real, lon: real, h: real)
    requires Lawful(m)
    ensures var phi, n, p := ToRad(lat), PrimeVertical(m, ToRad(lat)), GeodeticToEcef(m, lat, lon, h);
      p.z == (n * (1.0 - EccentricitySquared) + h) * m.sin(phi) &&
      p.x * p.x + p.y * p.y == ((n + h) * m.cos(phi)) * ((n + h) * m.cos(phi))
  {
    var phi, lambda := ToRad(lat), ToRad(lon);
    var k, c, s := (PrimeVertical(m, phi) + h) * m.cos(phi), m.cos(lambda), m.sin(lambda);
    assert GeodeticToEcef(m, lat, lon, h) ==
      Vec3(k * c, k * s, (PrimeVertical(m, phi) * (1.0 - EccentricitySquared) + h) * m.sin(phi));
    assert c * c + s * s == 1.0;
    HorizontalRaw(k, c, s);
  }

  lemma HorizontalRaw(k: real, c: real, s: real)
    requires c * c + s * s == 1.0
    ensures (k * c) * (k * c) + (k * s) * (k * s) == k * k
  {
    assert (k * c) * (k * c) + (k * s) * (k * s) == k * k * (c * c + s * s);
  }

  /** A point at height zero lies on the ellipsoid. */
  lemma SurfacePointOnEllipsoid(m: Math, lat: real, lon: real)
    requires Lawful(m)
    ensures OnEllipsoid(GeodeticToEcef(m, lat, lon, 0.0))
  {
    var phi := ToRad(lat);
    var n := PrimeVertical(m, phi);
    var p := GeodeticToEcef(m, lat, lon, 0.0);
    GeodeticToEcefAxes(m, lat, lon, 0.0);
    PrimeVerticalRadius(m, phi);
    SurfaceRaw(n, m.cos(phi), m.sin(phi), p.x * p.x + p.y * p.y, p.z);
  }

  lemma SurfaceRaw(n: real, c: real, s: real, horizontal: real, z: real)
    requires c * c + s * s == 1.0
    requires n * n * (1.0 - EccentricitySquared * (s * s)) == SemiMajor * SemiMajor
    requires horizontal == ((n + 0.0) * c) * ((n + 0.0) * c)
    requires z == (n * (1.0 - EccentricitySquared) + 0.0) * s
    ensures horizontal / (SemiMajor * SemiMajor) + z * z / (SemiMinor * SemiMinor) == 1.0
  {
    var e, a2 := EccentricitySquared, SemiMajor * SemiMajor;
    DerivedConstants();
    assert SemiMinor * SemiMinor == a2 * (1.0 - e);
    assert z * z == n * n * (1.0 - e) * (1.0 - e) * (s * s);
    assert z * z / (a2 * (1.0 - e)) == n * n * (1.0 - e) * (s * s) / a2;
    assert horizontal == n * n * (c * c);
    assert n * n * (c * c) + n * n * (1.0 - e) * (s * s) == n * n * (1.0 - e * (s * s));
  }

  /** `Math.hypot(x, y)`. */
  function Hypot(m: Math, x: real, y: real): real {
    m.sqrt(x * x + y * y)
  }

  lemma SquareNonNegative(x: real)
    ensures x * x >= 0.0
  {
  }

  /** The square root of a square is the absolute value. */
  lemma SqrtOfSquare(m: Math, q: real)
    requires Lawful(m) && q >= 0.0
    ensures m.sqrt(q * q) == q
  {
    SquareNonNegative(q);
    var r := m.sqrt(q * q);
    assert r >= 0.0 && r * r == q * q;
    if r < q {
      SquareMonotone(r, q);
    } else if q < r {
      SquareMonotone(q, r);
    }
  }

  lemma SquareMonotone(a: real, b: real)
    requires 0.0 <= a < b
    ensures a * a < b * b
  {
    PositiveProduct(b - a, b + a);
    assert b * b - a * a == (b - a) * (b + a);
  }

  /** The result of one pass of the refinement loop: the height and the
      next latitude estimate, in radians. */
  datatype Pass = Pass(h: real, phi: real)

  /** One pass of the loop of `ecefToGeodetic` at distance `p` from the
      polar axis: `h = p / cos(phi) - N`, then `phi' = atan2(z, p (1 - e2 N
      / (N + h)))`. A pass that would divide by zero has no value. */
  function Refine(m: Math, p: real, z: real, phi: real): (r: Option<Pass>)
    ensures r.None? <==> m.cos(phi) == 0.0 || p == 0.0
  {
    var n, c := PrimeVertical(m, phi), m.cos(phi);
    if c == 0.0 then None
    else
      var h := p / c - n;
      DivisionZero(p, c);
      if n + h == 0.0 then None
      else Some(Pass(h, m.atan2(z, Reduced(p, n, h))))
  }

  /** The second argument of the latitude `atan2`: `p (1 - e2 N / (N + h))`. */
  function Reduced(p: real, n: real, h: real): real
    requires n + h != 0.0
  {
    p * (1.0 - EccentricitySquared * n / (n + h))
  }

  /** A pass's height puts the point at distance `p` from the polar axis
      when measured along the normal at `phi`: `(N + h) cos(phi) = p`. */
  lemma RefineHeight(m: Math, p: real, z: real, phi: real)
    requires Refine(m, p, z, phi).Some?
    ensures (PrimeVertical(m, phi) + Refine(m, p, z, phi).value.h) * m.cos(phi) == p
  {
    DivisionZero(p, m.cos(phi));
  }

  lemma DivisionZero(p: real, c: real)
    requires c != 0.0
    ensures p / c == 0.0 <==> p == 0.0
    ensures (p / c) * c == p
  {
  }

  /** One pass of `Refine` as a function of the latitude estimate. */
  function RefineStep(m: Math, p: real, z: real): real -> Option<Pass> {
    phi => Refine(m, p, z, phi)
  }

  /** `trace` lists the estimates of a loop of up to `count` passes of
      `step` from `phi0`: each estimate is the pass of the one before, and
      the loop stops early only at a pass that has no value. */
  ghost predicate Chained(step: real -> Option<Pass>, phi0: real, count: nat, trace: seq<real>) {
    1 <= |trace| <= count + 1 && trace[0] == phi0 &&
    (forall k :: 0 <= k < |trace| - 1 ==> step(trace[k]).Some? && step(trace[k]).value.phi == trace[k + 1]) &&
    (|trace| <= count ==> step(trace[|trace| - 1]).None?)
  }

  /** The loop of `ecefToGeodetic` for any pass `step`; `h` is the height
      of the last pass. */
  method Iterate(step: real -> Option<Pass>, phi0: real, count: nat) returns (trace: seq<real>, h: real)
    ensures Chained(step, phi0, count, trace)
    ensures |trace| == count + 1 && count > 0 ==> h == step(trace[count - 1]).value.h
  {
    trace, h := [phi0], 0.0;
    var i := 0;
    while i < count
      invariant 0 <= i <= count && |trace| == i + 1 && trace[0] == phi0
      invariant forall k :: 0 <= k < i ==> step(trace[k]).Some? && step(trace[k]).value.phi == trace[k + 1]
      invariant i > 0 ==> h == step(trace[i - 1]).value.h
    {
      match step(trace[i])
      case None =>
        return;
      case Some(pass) =>
        trace, h := trace + [pass.phi], pass.h;
        i := i + 1;
    }
  }

  /** The answer of `ecefToGeodetic`: latitude and longitude in degrees and
      the height in metres. */
  datatype Geodetic = Geodetic(lat: real, lon: real, h: real)

  /** `r` and `trace` are what `ecefToGeodetic(x, y, z)` computes: `trace`
      lists the latitude estimates, the first `atan2(z, p (1 - e2))` with
      `p = hypot(x, y)` and each next one the pass of `Refine` on the one
      before. There is an answer exactly when all ten passes have a value:
      the last estimate and the last pass's height, with the longitude
      `atan2(y, x)`. */
  ghost predicate Converted(m: Math, x: real, y: real, z: real, r: Option<Geodetic>, trace: seq<real>) {
    Chained(RefineStep(m, Hypot(m, x, y), z), m.atan2(z, Hypot(m, x, y) * (1.0 - EccentricitySquared)), 10, trace) &&
    (r.Some? <==> |trace| == 11) &&
    (r.Some? ==> r.value == Geodetic(ToDeg(trace[10]), ToDeg(m.atan2(y, x)), Refine(m, Hypot(m, x, y), z, trace[9]).value.h))
  }

  /** `ecefToGeodetic(x, y, z)`, ten passes of the latitude refinement. */
  method EcefToGeodetic(m: Math, x: real, y: real, z: real) returns (r: Option<Geodetic>, trace: seq<real>)
    ensures Converted(m, x, y, z, r, trace)
  {
    var p := Hypot(m, x, y);
    var h;
    trace, h := Iterate(RefineStep(m, p, z), m.atan2(z, p * (1.0 - EccentricitySquared)), 10);
    r := if |trace| == 11 then Some(Geodetic(ToDeg(trace[10]), ToDeg(m.atan2(y, x)), h)) else None;
  }

  /** At the true latitude of a point off the polar axis, on the side of
      the equator where `cos(phi) > 0`, one pass of the refinement recovers
      the point's height exactly. */
  lemma RefineRecoversHeight(m: Math, lat: real, lon: real, h: real)
    requires Lawful(m)
    requires m.cos(ToRad(lat)) > 0.0 && PrimeVertical(m, ToRad(lat)) + h > 0.0
    ensures var phi, p := ToRad(lat), GeodeticToEcef(m, lat, lon, h);
      Refine(m, Hypot(m, p.x, p.y), p.z, phi).Some? && Refine(m, Hypot(m, p.x, p.y), p.z, phi).value.h == h
  {
    var phi, p := ToRad(lat), GeodeticToEcef(m, lat, lon, h);
    var n, c := PrimeVertical(m, phi), m.cos(phi);
    var q := (n + h) * c;
    GeodeticToEcefAxes(m, lat, lon, h);
    PositiveProduct(n + h, c);
    HypotOfSquare(m, p.x, p.y, q);
    RefineAtHeight(m, q, p.z, phi, h);
  }

  lemma HypotOfSquare(m: Math, x: real, y: real, q: real)
    requires Lawful(m) && q >= 0.0 && x * x + y * y == q * q
    ensures Hypot(m, x, y) == q
  {
    SqrtOfSquare(m, q);
  }

  lemma RefineAtHeight(m: Math, p: real, z: real, phi: real, h: real)
    requires m.cos(phi) > 0.0 && PrimeVertical(m, phi) + h > 0.0
    requires p == (PrimeVertical(m, phi) + h) * m.cos(phi)
    ensures Refine(m, p, z, phi).Some? && Refine(m, p, z, phi).value.h == h
  {
    var n, c := PrimeVertical(m, phi), m.cos(phi);
    PositiveProduct(n + h, c);
    RefineUnfold(m, p, z, phi);
    HeightRaw(n, h, c, p);
  }

  lemma HeightRaw(n: real, h: real, c: real, q: real)
    requires c > 0.0 && q == (n + h) * c
    ensures q / c - n == h
  {
  }

  /** A pass whose divisions are defined. */
  lemma RefineUnfold(m: Math, p: real, z: real, phi: real)
    requires m.cos(phi) != 0.0 && p != 0.0
    ensures var n, h := PrimeVertical(m, phi), p / m.cos(phi) - PrimeVertical(m, phi);
      Refine(m, p, z, phi) == Some(Pass(h, m.atan2(z, Reduced(p, n, h))))
  {
    var n, c := PrimeVertical(m, phi), m.cos(phi);
    var h := p / c - n;
    DivisionZero(p, c);
    assert n + h == p / c && n + h != 0.0;
  }


  lemma PositiveProduct(a: real, b: real)
    requires a > 0.0 && b > 0.0
    ensures a * b > 0.0
  {
  }

  // ---------------------------------------------------------------------------
  // Ray and ellipsoid
  // ---------------------------------------------------------------------------

  /** The coefficients of `A t^2 + B t + C`. */
  datatype Quadratic = Quadratic(a: real, b: real, c: real)

  /** The quadratic `intersectEllipsoid` solves: the ray `s + t d` meets the
      ellipsoid where it vanishes. */
  function RayQuadratic(s: Vec3, d: Vec3): Quadratic {
    SpheroidQuadratic(s, d, SemiMajor * SemiMajor, SemiMinor * SemiMinor)
  }

  /** The same quadratic for squared semi-axes `a2` and `b2`. */
  function SpheroidQuadratic(s: Vec3, d: Vec3, a2: real, b2: real): Quadratic
    requires a2 > 0.0 && b2 > 0.0
  {
    Quadratic(Level(d, a2, b2), 2.0 * Cross(s, d, a2, b2), Level(s, a2, b2) - 1.0)
  }

  predicate IsRoot(q: Quadratic, t: real) {
    q.a * (t * t) + q.b * t + q.c == 0.0
  }

  function Discriminant(q: Quadratic): real {
    q.b * q.b - 4.0 * q.a * q.c
  }

  /** The point `s + t d` of the ray. */
  function Along(s: Vec3, d: Vec3, t: real): Vec3 {
    Vec3(s.x + t * d.x, s.y + t * d.y, s.z + t * d.z)
  }

  /** The roots of the quadratic are exactly the parameters at which the
      ray lies on the ellipsoid. */
  lemma RayMeetsEllipsoid(s: Vec3, d: Vec3, t: real)
    ensures OnEllipsoid(Along(s, d, t)) <==> IsRoot(RayQuadratic(s, d), t)
  {
    DerivedConstants();
    RayMeetsSpheroid(s, d, t, SemiMajor * SemiMajor, SemiMinor * SemiMinor);
  }

  /** The same for any squared semi-axes. */
  lemma RayMeetsSpheroid(s: Vec3, d: Vec3, t: real, a2: real, b2: real)
    requires a2 > 0.0 && b2 > 0.0
    ensures OnSpheroid(Along(s, d, t), a2, b2) <==> IsRoot(SpheroidQuadratic(s, d, a2, b2), t)
  {
    var p := Along(s, d, t);
    RayRoots(s.x, s.y, s.z, d.x, d.y, d.z, t, a2, b2, p.x, p.y, p.z,
             Level(d, a2, b2), Cross(s, d, a2, b2), Level(s, a2, b2), Level(p, a2, b2));
  }

  /** `RayRaw` with the ray point and the levels as names. */
  lemma RayRoots(x: real, y: real, z: real, dx: real, dy: real, dz: real, t: real, a2: real, b2: real,
                 px: real, py: real, pz: real, la: real, cr: real, ls: real, lp: real)
    requires a2 > 0.0 && b2 > 0.0
    requires px == x + t * dx && py == y + t * dy && pz == z + t * dz
    requires la == (dx * dx + dy * dy) / a2 + dz * dz / b2
    requires cr == (x * dx + y * dy) / a2 + z * dz / b2
    requires ls == (x * x + y * y) / a2 + z * z / b2
    requires lp == (px * px + py * py) / a2 + pz * pz / b2
    ensures lp == 1.0 <==> la * (t * t) + 2.0 * cr * t + (ls - 1.0) == 0.0
  {
    RayRaw(x, y, z, dx, dy, dz, t, a2, b2);
    assert lp == la * (t * t) + 2.0 * cr * t + ls;
  }

  lemma RayRaw(x: real, y: real, z: real, dx: real, dy: real, dz: real, t: real, a2: real, b2: real)
    requires a2 > 0.0 && b2 > 0.0
    ensures ((x + t * dx) * (x + t * dx) + (y + t * dy) * (y + t * dy)) / a2 + (z + t * dz) * (z + t * dz) / b2 ==
      ((dx * dx + dy * dy) / a2 + dz * dz / b2) * (t * t) +
      2.0 * ((x * dx + y * dy) / a2 + z * dz / b2) * t +
      ((x * x + y * y) / a2 + z * z / b2)
  {
    SquareOfSum(x, t, dx);
    SquareOfSum(y, t, dy);
    SquareOfSum(z, t, dz);
    var h0, h1, h2 := x * x + y * y, 2.0 * (x * dx + y * dy), dx * dx + dy * dy;
    var v0, v1, v2 := z * z, 2.0 * (z * dz), dz * dz;
    assert (x + t * dx) * (x + t * dx) + (y + t * dy) * (y + t * dy) == h0 + h1 * t + h2 * (t * t);
    assert (z + t * dz) * (z + t * dz) == v0 + v1 * t + v2 * (t * t);
    DivideQuadratic(h0, h1, h2, t, a2);
    DivideQuadratic(v0, v1, v2, t, b2);
    assert (h2 / a2) * (t * t) + (v2 / b2) * (t * t) == (h2 / a2 + v2 / b2) * (t * t);
    assert (h1 / a2) * t + (v1 / b2) * t == (h1 / a2 + v1 / b2) * t;
    assert h1 / a2 + v1 / b2 == 2.0 * ((x * dx + y * dy) / a2 + z * dz / b2);
  }

  lemma SquareOfSum(x: real, t: real, d: real)
    ensures (x + t * d) * (x + t * d) == x * x + 2.0 * (x * d) * t + (d * d) * (t * t)
  {
  }

  lemma DivideQuadratic(c0: real, c1: real, c2: real, t: real, k: real)
    requires k > 0.0
    ensures (c0 + c1 * t + c2 * (t * t)) / k == c0 / k + (c1 / k) * t + (c2 / k) * (t * t)
  {
  }

  /** The leading coefficient is positive unless the direction is zero. */
  lemma LeadingCoefficient(s: Vec3, d: Vec3)
    ensures RayQuadratic(s, d).a >= 0.0
    ensures RayQuadratic(s, d).a == 0.0 <==> d == Vec3(0.0, 0.0, 0.0)
  {
    DerivedConstants();
    var a2, b2 := SemiMajor * SemiMajor, SemiMinor * SemiMinor;
    PositiveProduct(SemiMajor, SemiMajor);
    PositiveProduct(SemiMinor, SemiMinor);
    WeightedSquares(d.x, d.y, d.z, a2, b2);
    assert RayQuadratic(s, d).a == (d.x * d.x + d.y * d.y) / a2 + d.z * d.z / b2;
    assert d == Vec3(d.x, d.y, d.z);
  }

  lemma WeightedSquares(x: real, y: real, z: real, a2: real, b2: real)
    requires a2 > 0.0 && b2 > 0.0
    ensures (x * x + y * y) / a2 + z * z / b2 >= 0.0
    ensures (x * x + y * y) / a2 + z * z / b2 == 0.0 <==> x == 0.0 && y == 0.0 && z == 0.0
  {
    SquareNonNegative(x);
    SquareNonNegative(y);
    SquareNonNegative(z);
    Quotient(x * x + y * y, a2);
    Quotient(z * z, b2);
    if (x * x + y * y) / a2 + z * z / b2 == 0.0 {
      assert x * x + y * y == 0.0 && z * z == 0.0;
      ZeroProduct(x, x);
      ZeroProduct(y, y);
      ZeroProduct(z, z);
    }
  }

  lemma ZeroProduct(x: real, y: real)
    requires x * y == 0.0
    ensures x == 0.0 || y == 0.0
  {
  }

  /** Dividing by a positive number keeps the sign. */
  lemma Quotient(n: real, d: real)
    requires n >= 0.0 && d > 0.0
    ensures n / d >= 0.0
    ensures n / d == 0.0 ==> n == 0.0
  {
  }

  lemma SquarePositive(x: real)
    requires x != 0.0
    ensures x * x > 0.0
  {
    if x < 0.0 {
      PositiveProduct(-x, -x);
    } else {
      PositiveProduct(x, x);
    }
  }

  /** The smaller-parameter root of `intersectEllipsoid`: no value when the
      discriminant is negative, and for a zero direction, where the source
      divides zero by zero; otherwise `t = (-B - sqrt(disc)) / (2 A)`. */
  function RayHit(m: Math, s: Vec3, d: Vec3): (r: Option<real>)
    ensures r.None? <==> Discriminant(RayQuadratic(s, d)) < 0.0 || d == Vec3(0.0, 0.0, 0.0)
  {
    var q := RayQuadratic(s, d);
    LeadingCoefficient(s, d);
    if Discriminant(q) < 0.0 || q.a == 0.0 then None
    else Some((-q.b - m.sqrt(Discriminant(q))) / (2.0 * q.a))
  }

  /** A hit lies on the ellipsoid and on the line `s + t d`, at the
      smallest parameter of any such point. That parameter may be negative,
      so the point can lie behind the sensor when the ray points away. */
  lemma RayHitIsSmallerRoot(m: Math, s: Vec3, d: Vec3)
    requires Lawful(m) && RayHit(m, s, d).Some?
    ensures var t := RayHit(m, s, d).value;
      IsRoot(RayQuadratic(s, d), t) && OnEllipsoid(Along(s, d, t)) &&
      forall u :: IsRoot(RayQuadratic(s, d), u) ==> t <= u
  {
    HitFromRoot(m, s, d);
  }

  lemma HitFromRoot(m: Math, s: Vec3, d: Vec3)
    requires RayHit(m, s, d).Some?
    requires Lawful(m)
    ensures var t := RayHit(m, s, d).value;
      IsRoot(RayQuadratic(s, d), t) && OnEllipsoid(Along(s, d, t)) &&
      forall u :: IsRoot(RayQuadratic(s, d), u) ==> t <= u
  {
    LeadingCoefficient(s, d);
    SolvedRoot(m, RayQuadratic(s, d));
    RayMeetsEllipsoid(s, d, RayHit(m, s, d).value);
  }

  lemma SolvedRoot(m: Math, q: Quadratic)
    requires Lawful(m) && q.a > 0.0 && Discriminant(q) >= 0.0
    ensures var t := (-q.b - m.sqrt(Discriminant(q))) / (2.0 * q.a);
      IsRoot(q, t) && forall u :: IsRoot(q, u) ==> t <= u
  {
    SqrtOfNonNegative(m, Discriminant(q));
    NearestRoot(q, m.sqrt(Discriminant(q)), (-q.b - m.sqrt(Discriminant(q))) / (2.0 * q.a));
  }

  /** `(-B - sqrt(disc)) / (2 A)` is the least root when `A > 0`. */
  lemma NearestRoot(q: Quadratic, root: real, t: real)
    requires q.a > 0.0 && root >= 0.0 && root * root == Discriminant(q)
    requires t == (-q.b - root) / (2.0 * q.a)
    ensures IsRoot(q, t) && forall u :: IsRoot(q, u) ==> t <= u
  {
    SmallerRoot(q, root, t);
    forall u | IsRoot(q, u)
      ensures t <= u
    {
      BeforeEveryRoot(q, root, t, u);
    }
  }

  /** With a negative discriminant the line misses the ellipsoid. */
  lemma RayMissIsReal(m: Math, s: Vec3, d: Vec3)
    requires Discriminant(RayQuadratic(s, d)) < 0.0
    ensures forall u :: !OnEllipsoid(Along(s, d, u))
  {
    forall u
      ensures !OnEllipsoid(Along(s, d, u))
    {
      RayMeetsEllipsoid(s, d, u);
      if IsRoot(RayQuadratic(s, d), u) {
        RootDiscriminant(RayQuadratic(s, d), u);
      }
    }
  }

  /** At a root `u`, `B^2 - 4 A C = (2 A u + B)^2`. */
  lemma RootDiscriminant(q: Quadratic, u: real)
    requires IsRoot(q, u)
    ensures Discriminant(q) == (2.0 * q.a * u + q.b) * (2.0 * q.a * u + q.b)
    ensures Discriminant(q) >= 0.0
  {
    var w := 2.0 * q.a * u + q.b;
    assert w * w == 4.0 * q.a * (q.a * (u * u) + q.b * u) + q.b * q.b;
    SquareNonNegative(w);
  }

  lemma SmallerRoot(q: Quadratic, root: real, t: real)
    requires q.a > 0.0 && root >= 0.0 && root * root == Discriminant(q)
    requires t == (-q.b - root) / (2.0 * q.a)
    ensures IsRoot(q, t)
  {
    var w := 2.0 * q.a * t + q.b;
    assert 2.0 * q.a * t == -q.b - root;
    assert w == -root;
    assert w * w == root * root;
    assert w * w == 4.0 * q.a * (q.a * (t * t) + q.b * t) + q.b * q.b;
    assert 4.0 * q.a * (q.a * (t * t) + q.b * t + q.c) == 0.0;
  }

  lemma BeforeEveryRoot(q: Quadratic, root: real, t: real, u: real)
    requires q.a > 0.0 && root >= 0.0 && root * root == Discriminant(q)
    requires t == (-q.b - root) / (2.0 * q.a) && IsRoot(q, u)
    ensures t <= u
  {
    var w := 2.0 * q.a * u + q.b;
    RootDiscriminant(q, u);
    assert (w - root) * (w + root) == 0.0;
    assert w == root || w == -root;
    assert 2.0 * q.a * t == -q.b - root;
    assert 2.0 * q.a * u >= 2.0 * q.a * t;
  }

  // ---------------------------------------------------------------------------
  // The intersection, the east-north-up frame and the line of sight
  // ---------------------------------------------------------------------------

  /** `intersectEllipsoid(sensor, dir)`: no answer when the ray misses the
      ellipsoid (or has no direction); otherwise the geodetic conversion of
      the intersection point of smaller parameter. */
  method IntersectEllipsoid(m: Math, sensor: Vec3, dir: Vec3) returns (r: Option<Geodetic>, trace: seq<real>)
    ensures RayHit(m, sensor, dir).None? ==> r.None?
    ensures RayHit(m, sensor, dir).Some? ==>
      var p := Along(sensor, dir, RayHit(m, sensor, dir).value);
      Converted(m, p.x, p.y, p.z, r, trace)
  {
    match RayHit(m, sensor, dir)
    case None =>
      r, trace := None, [];
    case Some(t) =>
      var p := Along(sensor, dir, t);
      r, trace := EcefToGeodetic(m, p.x, p.y, p.z);
  }

  /** The matrix `enuToEcefMatrix(lat, lon)` returns, angles in degrees:
      its rows are the east, north and up unit vectors of the tangent
      plane, in ECEF coordinates. */
  function EnuRows(m: Math, lat: real, lon: real): Mat3 {
    var phi, lambda := ToRad(lat), ToRad(lon);
    Mat3(Vec3(-m.sin(lambda), m.cos(lambda), 0.0),
         Vec3(-m.sin(phi) * m.cos(lambda), -m.sin(phi) * m.sin(lambda), m.cos(phi)),
         Vec3(m.cos(phi) * m.cos(lambda), m.cos(phi) * m.sin(lambda), m.sin(phi)))
  }

  /** The local up direction at latitude `lat` and longitude `lon`. */
  function Up(m: Math, lat: real, lon: real): Vec3 {
    EnuRows(m, lat, lon).r2
  }

  /** The east-north-up to ECEF rotation: the east, north and up vectors as
      columns, so that a vector with local components `(e, n, u)` becomes
      `e East + n North + u Up`. */
  function EnuToEcef(m: Math, lat: real, lon: real): Mat3 {
    Transpose(EnuRows(m, lat, lon))
  }

  /** Both matrices are orthogonal: east, north and up are unit vectors at
      right angles to each other. */
  lemma EnuOrthogonal(m: Math, lat: real, lon: real)
    requires Lawful(m)
    ensures Orthogonal(EnuRows(m, lat, lon)) && Orthogonal(EnuToEcef(m, lat, lon))
  {
    var phi, lambda := ToRad(lat), ToRad(lon);
    var sp, cp, sl, cl := m.sin(phi), m.cos(phi), m.sin(lambda), m.cos(lambda);
    assert sp * sp + cp * cp == 1.0 && sl * sl + cl * cl == 1.0;
    assert EnuRows(m, lat, lon) == Mat3(Vec3(-sl, cl, 0.0), Vec3(-sp * cl, -sp * sl, cp), Vec3(cp * cl, cp * sl, sp));
    EnuEntries(sp, cp, sl, cl);
    OrthogonalEntries(-sl, cl, 0.0, -sp * cl, -sp * sl, cp, cp * cl, cp * sl, sp);
    OrthogonalTranspose(EnuRows(m, lat, lon));
  }

  /** The identities behind `EnuOrthogonal`, over plain numbers. */
  lemma EnuEntries(sp: real, cp: real, sl: real, cl: real)
    requires sp * sp + cp * cp == 1.0 && sl * sl + cl * cl == 1.0
    ensures var a, b, c, d, e, f, g, h, i := -sl, cl, 0.0, -sp * cl, -sp * sl, cp, cp * cl, cp * sl, sp;
      a * a + b * b + c * c == 1.0 && d * d + e * e + f * f == 1.0 && g * g + h * h + i * i == 1.0 &&
      a * d + b * e + c * f == 0.0 && a * g + b * h + c * i == 0.0 && d * g + e * h + f * i == 0.0 &&
      a * a + d * d + g * g == 1.0 && b * b + e * e + h * h == 1.0 && c * c + f * f + i * i == 1.0 &&
      a * b + d * e + g * h == 0.0 && a * c + d * f + g * i == 0.0 && b * c + e * f + h * i == 0.0
  {
    assert (sp * cl) * (sp * cl) + (sp * sl) * (sp * sl) == sp * sp * (cl * cl + sl * sl);
    assert (cp * cl) * (cp * cl) + (cp * sl) * (cp * sl) == cp * cp * (cl * cl + sl * sl);
    assert (-sl) * (-sp * cl) + cl * (-sp * sl) == 0.0;
    assert (-sl) * (cp * cl) + cl * (cp * sl) == 0.0;
    assert (-sp * cl) * (cp * cl) + (-sp * sl) * (cp * sl) + cp * sp == -sp * cp * (cl * cl + sl * sl) + cp * sp;
    assert (-sl) * (-sl) + (-sp * cl) * (-sp * cl) + (cp * cl) * (cp * cl) == sl * sl + cl * cl * (sp * sp + cp * cp);
    assert cl * cl + (-sp * sl) * (-sp * sl) + (cp * sl) * (cp * sl) == cl * cl + sl * sl * (sp * sp + cp * cp);
    assert (-sl) * cl + (-sp * cl) * (-sp * sl) + (cp * cl) * (cp * sl) == -sl * cl + sl * cl * (sp * sp + cp * cp);
  }

  /** The transpose of an orthogonal matrix is orthogonal. */
  lemma OrthogonalTranspose(r: Mat3)
    requires Orthogonal(r)
    ensures Orthogonal(Transpose(r))
  {
    TransposeInvolution(r);
  }

  /** The corrected rotation takes the local axes to east, north and up,
      and up is the outward normal of the ellipsoid at the surface point:
      the gradient `(x / a^2, y / a^2, z / b^2)` of its equation there is
      a positive multiple of it. */
  lemma EnuToEcefAxes(m: Math, lat: real, lon: real)
    requires Lawful(m)
    ensures MatVec(EnuToEcef(m, lat, lon), Vec3(1.0, 0.0, 0.0)) == EnuRows(m, lat, lon).r0
    ensures MatVec(EnuToEcef(m, lat, lon), Vec3(0.0, 1.0, 0.0)) == EnuRows(m, lat, lon).r1
    ensures MatVec(EnuToEcef(m, lat, lon), Vec3(0.0, 0.0, 1.0)) == Up(m, lat, lon)
    ensures var p, u, k := GeodeticToEcef(m, lat, lon, 0.0), Up(m, lat, lon), PrimeVertical(m, ToRad(lat)) / (SemiMajor * SemiMajor);
      k > 0.0 && Vec3(p.x / (SemiMajor * SemiMajor), p.y / (SemiMajor * SemiMajor), p.z / (SemiMinor * SemiMinor)) == Vec3(k * u.x, k * u.y, k * u.z)
  {
    var phi, lambda := ToRad(lat), ToRad(lon);
    var n := PrimeVertical(m, phi);
    PrimeVerticalRadius(m, phi);
    NormalRaw(n, m.cos(phi), m.sin(phi), m.cos(lambda), m.sin(lambda));
  }

  lemma NormalRaw(n: real, cp: real, sp: real, cl: real, sl: real)
    requires n > 0.0
    ensures var a2, b2, k := SemiMajor * SemiMajor, SemiMinor * SemiMinor, n / (SemiMajor * SemiMajor);
      k > 0.0 &&
      (n + 0.0) * cp * cl / a2 == k * (cp * cl) &&
      (n + 0.0) * cp * sl / a2 == k * (cp * sl) &&
      (n * (1.0 - EccentricitySquared) + 0.0) * sp / b2 == k * sp
  {
    DerivedConstants();
  }

  /** FINDING, as written: the source applies the rows of the frame to the
      local vector, so the local up direction lands on `(0, cos(lat),
      sin(lat))` whatever the longitude. */
  lemma EnuRowsMisplaceUp(m: Math, lat: real, lon: real)
    ensures MatVec(EnuRows(m, lat, lon), Vec3(0.0, 0.0, 1.0)) == Vec3(0.0, m.cos(ToRad(lat)), m.sin(ToRad(lat)))
  {
  }

  /** The counterexample at latitude and longitude zero: the source sends
      up to `(0, 1, 0)`, the east direction there, while the up direction
      is `(1, 0, 0)`, where the corrected rotation sends it. */
  lemma EnuRowsAtOrigin(m: Math)
    requires m.sin(0.0) == 0.0 && m.cos(0.0) == 1.0
    ensures MatVec(EnuRows(m, 0.0, 0.0), Vec3(0.0, 0.0, 1.0)) == Vec3(0.0, 1.0, 0.0)
    ensures Up(m, 0.0, 0.0) == Vec3(1.0, 0.0, 0.0) == MatVec(EnuToEcef(m, 0.0, 0.0), Vec3(0.0, 0.0, 1.0))
  {
    assert ToRad(0.0) == 0.0;
    var e := Mat3(Vec3(0.0, 1.0, 0.0), Vec3(0.0, 0.0, 1.0), Vec3(1.0, 0.0, 0.0));
    assert EnuRows(m, 0.0, 0.0) == e;
    assert MatVec(e, Vec3(0.0, 0.0, 1.0)) == Vec3(0.0, 1.0, 0.0);
    var t := Mat3(Vec3(0.0, 0.0, 1.0), Vec3(1.0, 0.0, 0.0), Vec3(0.0, 1.0, 0.0));
    assert Transpose(e) == t;
    assert MatVec(t, Vec3(0.0, 0.0, 1.0)) == Vec3(1.0, 0.0, 0.0);
  }

  /** A matrix that keeps lengths: `|R v|^2 = |v|^2` for an orthogonal `R`. */
  lemma OrthogonalPreservesLength(r: Mat3, v: Vec3)
    requires Orthogonal(r)
    ensures Dot(MatVec(r, v), MatVec(r, v)) == Dot(v, v)
  {
    var u := MatVec(r, v);
    DotVecMat(u, r, v);
    VecMatTranspose(u, r);
    MatVecMatMul(Transpose(r), r, v);
    IdentityNeutral(r, v);
  }

  /** A row vector times `m` is `m^T` applied to it. */
  lemma VecMatTranspose(u: Vec3, m: Mat3)
    ensures VecMat(u, m) == MatVec(Transpose(m), u)
  {
  }

  /** The product of two orthogonal matrices is orthogonal. */
  lemma OrthogonalProduct(a: Mat3, b: Mat3)
    requires Orthogonal(a) && Orthogonal(b)
    ensures Orthogonal(MatMul(a, b))
  {
    var ta, tb := Transpose(a), Transpose(b);
    TransposeMatMul(a, b);
    MatMulAssociative(tb, ta, MatMul(a, b));
    MatMulAssociative(ta, a, b);
    IdentityNeutral(b, Vec3(0.0, 0.0, 0.0));
    MatMulAssociative(a, b, MatMul(tb, ta));
    MatMulAssociative(b, tb, ta);
    IdentityNeutral(ta, Vec3(0.0, 0.0, 0.0));
  }

  /** The attitude a line of sight is built from: platform heading, pitch
      and roll, the sensor's roll relative to the platform, and the sensor
      position, all in degrees. */
  datatype Attitude = Attitude(heading: real, pitch: real, roll: real, sensorRoll: real, lat: real, lon: real)

  /** The sensor-frame direction at azimuth `az` and elevation `el`, in
      radians: `(cos el cos az, cos el sin az, sin el)`. */
  function SensorFrame(m: Math, az: real, el: real): Vec3 {
    Vec3(m.cos(el) * m.cos(az), m.cos(el) * m.sin(az), m.sin(el))
  }

  /** The sensor-frame direction has unit length. */
  lemma SensorFrameUnit(m: Math, az: real, el: real)
    requires Lawful(m)
    ensures Dot(SensorFrame(m, az, el), SensorFrame(m, az, el)) == 1.0
  {
    var ce, se, ca, sa := m.cos(el), m.sin(el), m.cos(az), m.sin(az);
    assert ca * ca + sa * sa == 1.0 && se * se + ce * ce == 1.0;
    assert (ce * ca) * (ce * ca) + (ce * sa) * (ce * sa) == ce * ce * (ca * ca + sa * sa);
  }

  /** `heading(Z) * pitch(Y) * roll(X)`, nested as the source nests it. */
  function PlatformRotation(m: Math, a: Attitude): Mat3 {
    MatMul(RotZ(m, ToRad(a.heading)), MatMul(RotY(m, ToRad(a.pitch)), RotX(m, ToRad(a.roll))))
  }

  /** The platform rotation is orthogonal. */
  lemma PlatformRotationOrthogonal(m: Math, a: Attitude)
    requires Lawful(m)
    ensures Orthogonal(PlatformRotation(m, a))
  {
    RotationProductOrthogonal(m, ToRad(a.heading), ToRad(a.pitch), ToRad(a.roll));
  }

  /** `Rz(h) Ry(p) Rx(r)` is orthogonal for any three angles. */
  lemma RotationProductOrthogonal(m: Math, h: real, p: real, r: real)
    requires Lawful(m)
    ensures Orthogonal(MatMul(RotZ(m, h), MatMul(RotY(m, p), RotX(m, r))))
  {
    RotationsOrthogonal(m, h);
    RotationsOrthogonal(m, p);
    RotationsOrthogonal(m, r);
    OrthogonalProduct(RotY(m, p), RotX(m, r));
    OrthogonalProduct(RotZ(m, h), MatMul(RotY(m, p), RotX(m, r)));
  }

  /** The line of sight in the local east-north-up frame: the sensor-frame
      direction turned by the sensor roll, then by the platform attitude
      (figureout.js:80-89). */
  function LocalLineOfSight(m: Math, az: real, el: real, a: Attitude): Vec3 {
    var sensor := MatVec(RotX(m, ToRad(a.sensorRoll)), SensorFrame(m, ToRad(az), ToRad(el)));
    MatVec(PlatformRotation(m, a), sensor)
  }

  /** The ECEF direction before normalisation, with the corrected frame
      rotation `EnuToEcef`. */
  function LineOfSight(m: Math, az: real, el: real, a: Attitude): Vec3 {
    MatVec(EnuToEcef(m, a.lat, a.lon), LocalLineOfSight(m, az, el, a))
  }

  /** The ECEF direction before normalisation as figureout.js:90-91 computes
      it: multiplied by `enuToEcefMatrix` as written, whose rows are east,
      north and up. */
  function LineOfSightAsWritten(m: Math, az: real, el: real, a: Attitude): Vec3 {
    MatVec(EnuRows(m, a.lat, a.lon), LocalLineOfSight(m, az, el, a))
  }

  /** `Math.hypot(x, y, z)`. */
  function Norm(m: Math, v: Vec3): real {
    m.sqrt(Dot(v, v))
  }

  /** `v.map(x => x / n)` with `n = norm(v)`; a zero vector, which the
      source turns into NaNs, has no value. */
  function Normalize(m: Math, v: Vec3): (r: Option<Vec3>)
    ensures r.Some? ==> Norm(m, v) != 0.0
  {
    var n := Norm(m, v);
    if n == 0.0 then None else Some(Vec3(v.x / n, v.y / n, v.z / n))
  }

  /** A nonzero vector normalises to a vector pointing the same way,
      which scaled back by the norm gives the vector; a zero vector does
      not normalise. */
  lemma NormalizeScales(m: Math, v: Vec3)
    requires Lawful(m)
    ensures Normalize(m, v).None? <==> v == Vec3(0.0, 0.0, 0.0)
    ensures Normalize(m, v).Some? ==> var u, n := Normalize(m, v).value, Norm(m, v);
      n > 0.0 && Vec3(u.x * n, u.y * n, u.z * n) == v
    ensures Normalize(m, v).Some? ==> Dot(Normalize(m, v).value, Normalize(m, v).value) == 1.0
  {
    SumOfSquares(v.x, v.y, v.z);
    if Dot(v, v) == 0.0 {
      SqrtOfNonNegative(m, 0.0);
      ZeroProduct(m.sqrt(0.0), m.sqrt(0.0));
      NormalizeZero(m, v);
    } else {
      NormalizeNonZero(m, v);
    }
  }

  /** A vector of zero squared length is the zero vector and does not
      normalise. */
  lemma NormalizeZero(m: Math, v: Vec3)
    requires m.sqrt(0.0) == 0.0 && Dot(v, v) == 0.0
    ensures v == Vec3(0.0, 0.0, 0.0) && Normalize(m, v).None?
  {
    ZeroDot(v);
    assert Dot(Vec3(0.0, 0.0, 0.0), Vec3(0.0, 0.0, 0.0)) == 0.0;
  }

  /** Only the zero vector has squared length zero. */
  lemma ZeroDot(v: Vec3)
    requires Dot(v, v) == 0.0
    ensures v == Vec3(0.0, 0.0, 0.0)
  {
    SumOfSquares(v.x, v.y, v.z);
  }

  /** A vector of positive squared length normalises to the unit vector
      that scales back to it. */
  lemma NormalizeNonZero(m: Math, v: Vec3)
    requires Lawful(m) && Dot(v, v) > 0.0
    ensures Norm(m, v) > 0.0
    ensures var n := Norm(m, v); Normalize(m, v) == Some(Vec3(v.x / n, v.y / n, v.z / n))
    ensures var u, n := Normalize(m, v).value, Norm(m, v);
      Vec3(u.x * n, u.y * n, u.z * n) == v && Dot(u, u) == 1.0
  {
    var n := m.sqrt(Dot(v, v));
    SqrtPositive(m, Dot(v, v));
    var u := Vec3(v.x / n, v.y / n, v.z / n);
    QuotientTimes(v.x, n);
    QuotientTimes(v.y, n);
    QuotientTimes(v.z, n);
    UnitRaw(u.x, u.y, u.z, n, v.x, v.y, v.z);
  }

  /** Components that scale back to a vector of length `n` have squares
      summing to 1. */
  lemma UnitRaw(p: real, q: real, r: real, n: real, x: real, y: real, z: real)
    requires n > 0.0 && n * n == x * x + y * y + z * z
    requires p * n == x && q * n == y && r * n == z
    ensures p * p + q * q + r * r == 1.0
  {
    SquareScaled(p, n, x);
    SquareScaled(q, n, y);
    SquareScaled(r, n, z);
    assert (p * p + q * q + r * r - 1.0) * (n * n) == 0.0;
    ZeroProduct(p * p + q * q + r * r - 1.0, n * n);
    if n * n == 0.0 {
      ZeroProduct(n, n);
      assert false;
    }
  }

  lemma SquareScaled(p: real, n: real, x: real)
    requires p * n == x
    ensures x * x == (p * p) * (n * n)
  {
  }

  lemma QuotientTimes(x: real, n: real)
    requires n != 0.0
    ensures (x / n) * n == x
  {
  }

  /** A sum of three squares is non-negative and is zero only when every
      term is. */
  lemma SumOfSquares(x: real, y: real, z: real)
    ensures x * x + y * y + z * z >= 0.0
    ensures x * x + y * y + z * z == 0.0 <==> x == 0.0 && y == 0.0 && z == 0.0
  {
    SquareNonNegative(x);
    SquareNonNegative(y);
    SquareNonNegative(z);
    if x * x + y * y + z * z == 0.0 {
      assert x * x == 0.0 && y * y == 0.0 && z * z == 0.0;
      ZeroProduct(x, x);
      ZeroProduct(y, y);
      ZeroProduct(z, z);
    }
  }

  /** `losFromSensorAzEl(az, el, metadata)`, angles in degrees, with the
      corrected frame rotation. */
  function LosFromSensorAzEl(m: Math, az: real, el: real, a: Attitude): Option<Vec3> {
    Normalize(m, LineOfSight(m, az, el, a))
  }

  /** `losFromSensorAzEl(az, el, metadata)` as written (figureout.js:78-94),
      with the row matrix of `enuToEcefMatrix`. */
  function LosAsWritten(m: Math, az: real, el: real, a: Attitude): Option<Vec3> {
    Normalize(m, LineOfSightAsWritten(m, az, el, a))
  }

  /** The local line of sight has unit length: the sensor roll and the
      platform rotation keep the unit length of the sensor-frame direction. */
  lemma LocalLineOfSightUnit(m: Math, az: real, el: real, a: Attitude)
    requires Lawful(m)
    ensures Dot(LocalLineOfSight(m, az, el, a), LocalLineOfSight(m, az, el, a)) == 1.0
  {
    var frame := SensorFrame(m, ToRad(az), ToRad(el));
    var sensor := MatVec(RotX(m, ToRad(a.sensorRoll)), frame);
    SensorFrameUnit(m, ToRad(az), ToRad(el));
    RotationsOrthogonal(m, ToRad(a.sensorRoll));
    OrthogonalPreservesLength(RotX(m, ToRad(a.sensorRoll)), frame);
    PlatformRotationOrthogonal(m, a);
    OrthogonalPreservesLength(PlatformRotation(m, a), sensor);
  }

  /** Every rotation in the chain keeps lengths, so the direction before
      normalisation already has unit length and normalising returns it
      unchanged. */
  lemma LineOfSightUnit(m: Math, az: real, el: real, a: Attitude)
    requires Lawful(m)
    ensures Dot(LineOfSight(m, az, el, a), LineOfSight(m, az, el, a)) == 1.0
    ensures LosFromSensorAzEl(m, az, el, a) == Some(LineOfSight(m, az, el, a))
  {
    LocalLineOfSightUnit(m, az, el, a);
    EnuOrthogonal(m, a.lat, a.lon);
    OrthogonalPreservesLength(EnuToEcef(m, a.lat, a.lon), LocalLineOfSight(m, az, el, a));
    UnitNormal(m, LineOfSight(m, az, el, a));
  }

  /** The source's line of sight also has unit length, because the row
      matrix is orthogonal too; it points elsewhere than the corrected one,
      the row matrix being the inverse of the intended rotation
      (`EnuRowsAtOrigin`). */
  lemma LosAsWrittenUnit(m: Math, az: real, el: real, a: Attitude)
    requires Lawful(m)
    ensures Dot(LineOfSightAsWritten(m, az, el, a), LineOfSightAsWritten(m, az, el, a)) == 1.0
    ensures LosAsWritten(m, az, el, a) == Some(LineOfSightAsWritten(m, az, el, a))
  {
    LocalLineOfSightUnit(m, az, el, a);
    EnuOrthogonal(m, a.lat, a.lon);
    OrthogonalPreservesLength(EnuRows(m, a.lat, a.lon), LocalLineOfSight(m, az, el, a));
    UnitNormal(m, LineOfSightAsWritten(m, az, el, a));
  }

  /** A unit vector normalises to itself. */
  lemma UnitNormal(m: Math, v: Vec3)
    requires Lawful(m) && Dot(v, v) == 1.0
    ensures Normalize(m, v) == Some(v)
  {
    SqrtOfSquare(m, 1.0);
    assert Norm(m, v) == 1.0;
  }
}
