/** The projective math of the WebGL perspective warp, identical in
    frontend/perspective.js and frontend/perspective-gpu.js:
    `#computeHomography` sets up the direct-linear-transform system for four
    point correspondences and solves it with `#solveLinear`, `#invert3x3`
    inverts the result by the adjugate, `#mat3ToGL` lays it out for the
    shader, and the fragment shader maps each output pixel back to a texture
    coordinate. */
module Homography {
  import opened Wrappers
  import opened Scalar
  import opened Linear
  import Gauss

  /** The determinant threshold of `#invert3x3`. */
  const DetEps: real := 0.000000000001

  // ----- the inverse -----

  /** Every component divided by `d`. */
  function DivVec(v: Vec3, d: real): (r: Vec3)
    requires d != 0.0
    ensures r.x * d == v.x && r.y * d == v.y && r.z * d == v.z
  {
    Vec3(v.x / d, v.y / d, v.z / d)
  }

  /** Every entry divided by `d`. */
  function DivMat(m: Mat3, d: real): (r: Mat3)
    requires d != 0.0
    ensures forall i :: 0 <= i < 3 ==> Row(r, i) == DivVec(Row(m, i), d)
    ensures forall j :: 0 <= j < 3 ==> Col(r, j) == DivVec(Col(m, j), d)
  {
    Mat3(DivVec(m.r0, d), DivVec(m.r1, d), DivVec(m.r2, d))
  }

  /** `#invert3x3(m)`: fails with "Singular matrix" exactly when the
      determinant, expanded along the first row, is below `1e-12` in
      magnitude; otherwise the adjugate over the determinant, which is an
      inverse on both sides. */
  function Invert3x3(m: Mat3): (r: Result<Mat3>)
    ensures r.Failure? <==> Abs(Det(m)) < DetEps
    ensures r.Failure? ==> r.error == SingularMatrix
    ensures r.Success? ==> MatMul(m, r.value) == Identity && MatMul(r.value, m) == Identity
  {
    var det := Det(m);
    if Abs(det) < DetEps then
      Failure(SingularMatrix)
    else
      InverseRight(m);
      InverseLeft(m);
      Success(DivMat(Adjugate(m), det))
  }

  /** Dividing one factor of a dot product divides the product. */
  lemma DotDivRight(u: Vec3, v: Vec3, d: real)
    requires d != 0.0
    ensures Dot(u, DivVec(v, d)) * d == Dot(u, v)
  {
    var w := DivVec(v, d);
    DotWith(u, w, v.x / d, v.y / d, v.z / d);
    DotWith(u, v, v.x, v.y, v.z);
    DivideTerms(u.x, u.y, u.z, v.x, v.y, v.z, d);
  }

  /** The same with the left factor divided. */
  lemma DotDivLeft(u: Vec3, v: Vec3, d: real)
    requires d != 0.0
    ensures Dot(DivVec(u, d), v) * d == Dot(u, v)
  {
    var w := DivVec(u, d);
    DotWithLeft(w, v, u.x / d, u.y / d, u.z / d);
    DotWithLeft(u, v, u.x, u.y, u.z);
    DivideTermsLeft(u.x, u.y, u.z, v.x, v.y, v.z, d);
  }

  /** Over plain reals: `(p*(x/d) + q*(y/d) + r*(z/d)) * d == p*x + q*y + r*z`. */
  lemma DivideTerms(p: real, q: real, r: real, x: real, y: real, z: real, d: real)
    requires d != 0.0
    ensures (p * (x / d) + q * (y / d) + r * (z / d)) * d == p * x + q * y + r * z
  {
  }

  /** Over plain reals, with the divided factors on the left. */
  lemma DivideTermsLeft(p: real, q: real, r: real, x: real, y: real, z: real, d: real)
    requires d != 0.0
    ensures ((p / d) * x + (q / d) * y + (r / d) * z) * d == p * x + q * y + r * z
  {
  }

  /** Cancelling a nonzero factor. */
  lemma Cancel(e: real, d: real, k: real)
    requires d != 0.0 && e * d == k * d
    ensures e == k
  {
  }

  /** One entry of `m` times its computed inverse. */
  lemma InverseRightEntry(m: Mat3, i: nat, j: nat)
    requires Det(m) != 0.0 && i < 3 && j < 3
    ensures Entry(MatMul(m, DivMat(Adjugate(m), Det(m))), i, j) == Entry(Identity, i, j)
  {
    var d := Det(m);
    var u, v := Row(m, i), Col(Adjugate(m), j);
    AdjugateRight(m);
    assert Dot(u, v) == Entry(DetIdentity(m), i, j);
    DotDivRight(u, v, d);
    IdentityEntries();
    Cancel(Dot(u, DivVec(v, d)), d, Entry(Identity, i, j));
  }

  /** One entry of the computed inverse times `m`. */
  lemma InverseLeftEntry(m: Mat3, i: nat, j: nat)
    requires Det(m) != 0.0 && i < 3 && j < 3
    ensures Entry(MatMul(DivMat(Adjugate(m), Det(m)), m), i, j) == Entry(Identity, i, j)
  {
    var d := Det(m);
    var u, v := Row(Adjugate(m), i), Col(m, j);
    AdjugateLeft(m);
    assert Dot(u, v) == Entry(DetIdentity(m), i, j);
    DotDivLeft(u, v, d);
    IdentityEntries();
    Cancel(Dot(DivVec(u, d), v), d, Entry(Identity, i, j));
  }

  /** The adjugate over a nonzero determinant is a right inverse. */
  lemma InverseRight(m: Mat3)
    requires Det(m) != 0.0
    ensures MatMul(m, DivMat(Adjugate(m), Det(m))) == Identity
  {
    forall i, j | 0 <= i < 3 && 0 <= j < 3
      ensures Entry(MatMul(m, DivMat(Adjugate(m), Det(m))), i, j) == Entry(Identity, i, j)
    {
      InverseRightEntry(m, i, j);
    }
    Extensionality(MatMul(m, DivMat(Adjugate(m), Det(m))), Identity);
  }

  /** The adjugate over a nonzero determinant is a left inverse. */
  lemma InverseLeft(m: Mat3)
    requires Det(m) != 0.0
    ensures MatMul(DivMat(Adjugate(m), Det(m)), m) == Identity
  {
    forall i, j | 0 <= i < 3 && 0 <= j < 3
      ensures Entry(MatMul(DivMat(Adjugate(m), Det(m)), m), i, j) == Entry(Identity, i, j)
    {
      InverseLeftEntry(m, i, j);
    }
    Extensionality(MatMul(DivMat(Adjugate(m), Det(m)), m), Identity);
  }

  // ----- the direct linear transform -----

  datatype Point = Point(x: real, y: real)

  /** The homogeneous coordinates `(x, y, 1)` of a point. */
  function Lift(p: Point): (v: Vec3)
    ensures v.z == 1.0
  {
    Vec3(p.x, p.y, 1.0)
  }

  /** `H` sends `s` to `d` up to the homogeneous scale: `H (s, 1)` is
      `(d.x w, d.y w, w)` for its own third component `w`. */
  predicate MapsTo(H: Mat3, s: Point, d: Point) {
    MatVec(H, Lift(s)).x == d.x * MatVec(H, Lift(s)).z && MatVec(H, Lift(s)).y == d.y * MatVec(H, Lift(s)).z
  }

  /** The equation a correspondence contributes for the x coordinate. */
  function XRow(s: Point, d: Point): seq<real> {
    [s.x, s.y, 1.0, 0.0, 0.0, 0.0, -s.x * d.x, -s.y * d.x]
  }

  /** The equation a correspondence contributes for the y coordinate. */
  function YRow(s: Point, d: Point): seq<real> {
    [0.0, 0.0, 0.0, s.x, s.y, 1.0, -s.x * d.y, -s.y * d.y]
  }

  /** The matrix `A` of `#computeHomography`: two rows per correspondence,
      in the order the loop pushes them. */
  function DltMatrix(src: seq<Point>, dst: seq<Point>): (A: Gauss.Matrix)
    requires |src| >= 4 && |dst| >= 4
    ensures |A| == 8 && forall r :: 0 <= r < 8 ==> |A[r]| == 8
    ensures forall k :: 0 <= k < 4 ==> A[2 * k] == XRow(src[k], dst[k]) && A[2 * k + 1] == YRow(src[k], dst[k])
  {
    [XRow(src[0], dst[0]), YRow(src[0], dst[0]), XRow(src[1], dst[1]), YRow(src[1], dst[1]),
     XRow(src[2], dst[2]), YRow(src[2], dst[2]), XRow(src[3], dst[3]), YRow(src[3], dst[3])]
  }

  /** The right-hand side `b`: the destination coordinates, x then y. */
  function DltVector(dst: seq<Point>): (b: seq<real>)
    requires |dst| >= 4
    ensures |b| == 8
    ensures forall k :: 0 <= k < 4 ==> b[2 * k] == dst[k].x && b[2 * k + 1] == dst[k].y
  {
    [dst[0].x, dst[0].y, dst[1].x, dst[1].y, dst[2].x, dst[2].y, dst[3].x, dst[3].y]
  }

  /** The eight free entries of a homography, row by row. */
  function Unknowns(H: Mat3): (h: seq<real>)
    ensures |h| == 8
  {
    [H.r0.x, H.r0.y, H.r0.z, H.r1.x, H.r1.y, H.r1.z, H.r2.x, H.r2.y]
  }

  /** The returned `[[h0, h1, h2], [h3, h4, h5], [h6, h7, 1]]`. */
  function FromUnknowns(h: seq<real>): (H: Mat3)
    requires |h| == 8
    ensures H.r2.z == 1.0 && Unknowns(H) == h
  {
    Mat3(Vec3(h[0], h[1], h[2]), Vec3(h[3], h[4], h[5]), Vec3(h[6], h[7], 1.0))
  }

  /** A homography with `H[2][2] == 1` is determined by its eight unknowns. */
  lemma UnknownsDetermine(H: Mat3)
    requires H.r2.z == 1.0
    ensures FromUnknowns(Unknowns(H)) == H
  {
  }

  /** `#computeHomography(src, dst)`. A destination list with fewer than four
      points fails on the destructuring of `dst[i]`; a singular system fails
      in the solver. A result has `H[2][2] == 1` and sends each source corner
      to its destination corner. */
  function ComputeHomography(src: seq<Point>, dst: seq<Point>): (r: Result<Mat3>)
    requires |src| == 4
    ensures |dst| < 4 <==> r == Failure(TypeError)
    ensures r.Failure? && |dst| >= 4 ==> r.error == SingularMatrix
    ensures r.Success? ==> r.value.r2.z == 1.0
    ensures r.Success? ==> forall k :: 0 <= k < 4 ==> MapsTo(r.value, src[k], dst[k])
  {
    if |dst| < 4 then
      Failure(TypeError)
    else
      var A, b := DltMatrix(src, dst), DltVector(dst);
      match Gauss.SolveLinear(A, b)
      case Failure(e) => Failure(e)
      case Success(h) =>
        DltEquations(src, dst, FromUnknowns(h));
        Success(FromUnknowns(h))
  }

  /** No other homography with `H[2][2] == 1` sends the four corners where
      the computed one does. */
  lemma ComputeHomographyUnique(src: seq<Point>, dst: seq<Point>, H: Mat3)
    requires |src| == 4 && ComputeHomography(src, dst).Success?
    requires H.r2.z == 1.0 && forall k :: 0 <= k < 4 ==> MapsTo(H, src[k], dst[k])
    ensures H == ComputeHomography(src, dst).value
  {
    var A, b := DltMatrix(src, dst), DltVector(dst);
    DltEquations(src, dst, H);
    assert Gauss.Solves(A, b, Unknowns(H));
    UnknownsDetermine(H);
  }

  /** The eight equations hold for the unknowns of `H` exactly when `H`
      sends every source corner to its destination corner. */
  lemma DltEquations(src: seq<Point>, dst: seq<Point>, H: Mat3)
    requires |src| >= 4 && |dst| >= 4 && H.r2.z == 1.0
    ensures Gauss.SquareSystem(DltMatrix(src, dst), DltVector(dst))
    ensures Gauss.Solves(DltMatrix(src, dst), DltVector(dst), Unknowns(H)) <==>
      forall k :: 0 <= k < 4 ==> MapsTo(H, src[k], dst[k])
  {
    var A, b, h := DltMatrix(src, dst), DltVector(dst), Unknowns(H);
    forall k | 0 <= k < 4
      ensures (Gauss.Sum(A[2 * k], h, 8) == b[2 * k] && Gauss.Sum(A[2 * k + 1], h, 8) == b[2 * k + 1])
        <==> MapsTo(H, src[k], dst[k])
    {
      CorrespondenceEquations(src[k], dst[k], H);
    }
    SolvesByPairs(A, b, h);
  }

  /** The two equations of a correspondence say that `H` sends its source
      point to its destination point. */
  lemma CorrespondenceEquations(s: Point, d: Point, H: Mat3)
    requires H.r2.z == 1.0
    ensures (Gauss.Sum(XRow(s, d), Unknowns(H), 8) == d.x && Gauss.Sum(YRow(s, d), Unknowns(H), 8) == d.y)
      <==> MapsTo(H, s, d)
  {
    XRowEquation(s, d, H);
    YRowEquation(s, d, H);
  }

  /** Eight equations hold when each of the four pairs does. */
  lemma SolvesByPairs(A: Gauss.Matrix, b: seq<real>, h: seq<real>)
    requires |A| == 8 && |b| == 8 && |h| == 8 && forall r :: 0 <= r < 8 ==> |A[r]| == 8
    ensures Gauss.SquareSystem(A, b)
    ensures Gauss.Solves(A, b, h) <==> forall k :: 0 <= k < 4 ==>
      Gauss.Sum(A[2 * k], h, 8) == b[2 * k] && Gauss.Sum(A[2 * k + 1], h, 8) == b[2 * k + 1]
  {
    if forall k :: 0 <= k < 4 ==> Gauss.Sum(A[2 * k], h, 8) == b[2 * k] && Gauss.Sum(A[2 * k + 1], h, 8) == b[2 * k + 1] {
      forall r | 0 <= r < 8 ensures Gauss.Sum(A[r], h, 8) == b[r] {
        var k := r / 2;
        assert r == 2 * k || r == 2 * k + 1;
      }
    }
  }

  /** `Sum` over eight terms, written out. */
  lemma {:induction false} SumEight(row: seq<real>, x: seq<real>)
    requires |row| == 8 && |x| == 8
    ensures Gauss.Sum(row, x, 8) == row[0] * x[0] + row[1] * x[1] + row[2] * x[2] + row[3] * x[3]
      + row[4] * x[4] + row[5] * x[5] + row[6] * x[6] + row[7] * x[7]
  {
    assert Gauss.Sum(row, x, 1) == row[0] * x[0];
    assert Gauss.Sum(row, x, 2) == Gauss.Sum(row, x, 1) + row[1] * x[1];
    assert Gauss.Sum(row, x, 3) == Gauss.Sum(row, x, 2) + row[2] * x[2];
    assert Gauss.Sum(row, x, 4) == Gauss.Sum(row, x, 3) + row[3] * x[3];
    assert Gauss.Sum(row, x, 5) == Gauss.Sum(row, x, 4) + row[4] * x[4];
    assert Gauss.Sum(row, x, 6) == Gauss.Sum(row, x, 5) + row[5] * x[5];
    assert Gauss.Sum(row, x, 7) == Gauss.Sum(row, x, 6) + row[6] * x[6];
  }

  /** `SumEight` with the entries of both sequences named. */
  lemma SumEightWith(row: seq<real>, x: seq<real>, p0: real, p1: real, p2: real, p3: real, p4: real, p5: real,
                     p6: real, p7: real, h0: real, h1: real, h2: real, h3: real, h4: real, h5: real, h6: real, h7: real)
    requires row == [p0, p1, p2, p3, p4, p5, p6, p7] && x == [h0, h1, h2, h3, h4, h5, h6, h7]
    ensures Gauss.Sum(row, x, 8) == p0 * h0 + p1 * h1 + p2 * h2 + p3 * h3 + p4 * h4 + p5 * h5 + p6 * h6 + p7 * h7
  {
    SumEight(row, x);
  }

  /** Over plain reals: the x equation of a correspondence, rearranged. */
  lemma XEquationRaw(xs: real, ys: real, xd: real, h0: real, h1: real, h2: real, h6: real, h7: real, h8: real)
    requires h8 == 1.0
    ensures xs * h0 + ys * h1 + 1.0 * h2 + 0.0 * 0.0 + 0.0 * 0.0 + 0.0 * 0.0 + (-xs * xd) * h6 + (-ys * xd) * h7 == xd
      <==> h0 * xs + h1 * ys + h2 * 1.0 == xd * (h6 * xs + h7 * ys + h8 * 1.0)
  {
  }

  /** Over plain reals: the y equation of a correspondence, rearranged. */
  lemma YEquationRaw(xs: real, ys: real, yd: real, h3: real, h4: real, h5: real, h6: real, h7: real, h8: real)
    requires h8 == 1.0
    ensures 0.0 * 0.0 + 0.0 * 0.0 + 0.0 * 0.0 + xs * h3 + ys * h4 + 1.0 * h5 + (-xs * yd) * h6 + (-ys * yd) * h7 == yd
      <==> h3 * xs + h4 * ys + h5 * 1.0 == yd * (h6 * xs + h7 * ys + h8 * 1.0)
  {
  }

  /** The x equation of a correspondence says `H` gets the x coordinate right. */
  lemma XRowEquation(s: Point, d: Point, H: Mat3)
    requires H.r2.z == 1.0
    ensures Gauss.Sum(XRow(s, d), Unknowns(H), 8) == d.x <==> MatVec(H, Lift(s)).x == d.x * MatVec(H, Lift(s)).z
  {
    SumEightWith(XRow(s, d), Unknowns(H), s.x, s.y, 1.0, 0.0, 0.0, 0.0, -s.x * d.x, -s.y * d.x,
                 H.r0.x, H.r0.y, H.r0.z, H.r1.x, H.r1.y, H.r1.z, H.r2.x, H.r2.y);
    DotWith(H.r0, Lift(s), s.x, s.y, 1.0);
    DotWith(H.r2, Lift(s), s.x, s.y, 1.0);
    XEquationRaw(s.x, s.y, d.x, H.r0.x, H.r0.y, H.r0.z, H.r2.x, H.r2.y, H.r2.z);
  }

  /** The y equation of a correspondence says `H` gets the y coordinate right. */
  lemma YRowEquation(s: Point, d: Point, H: Mat3)
    requires H.r2.z == 1.0
    ensures Gauss.Sum(YRow(s, d), Unknowns(H), 8) == d.y <==> MatVec(H, Lift(s)).y == d.y * MatVec(H, Lift(s)).z
  {
    SumEightWith(YRow(s, d), Unknowns(H), 0.0, 0.0, 0.0, s.x, s.y, 1.0, -s.x * d.y, -s.y * d.y,
                 H.r0.x, H.r0.y, H.r0.z, H.r1.x, H.r1.y, H.r1.z, H.r2.x, H.r2.y);
    DotWith(H.r1, Lift(s), s.x, s.y, 1.0);
    DotWith(H.r2, Lift(s), s.x, s.y, 1.0);
    YEquationRaw(s.x, s.y, d.y, H.r1.x, H.r1.y, H.r1.z, H.r2.x, H.r2.y, H.r2.z);
  }

  // ----- projecting and sampling -----

  /** The four texture corners `draw` pairs with the destination points:
      `(0, 0)`, `(W, 0)`, `(W, H)`, `(0, H)`. */
  function SourceCorners(w: real, h: real): (c: seq<Point>)
    ensures |c| == 4
    ensures c[0] == Point(0.0, 0.0) && c[2] == Point(w, h)
    ensures c[1].x == c[2].x && c[1].y == c[0].y && c[3].x == c[0].x && c[3].y == c[2].y
  {
    [Point(0.0, 0.0), Point(w, 0.0), Point(w, h), Point(0.0, h)]
  }

  /** `H` applied to a point followed by the homogeneous divide; nothing when
      the third component vanishes. */
  function Project(H: Mat3, p: Point): (r: Option<Point>)
    ensures r.None? <==> MatVec(H, Lift(p)).z == 0.0
    ensures r.Some? ==> r.value.x * MatVec(H, Lift(p)).z == MatVec(H, Lift(p)).x
    ensures r.Some? ==> r.value.y * MatVec(H, Lift(p)).z == MatVec(H, Lift(p)).y
  {
    var v := MatVec(H, Lift(p));
    if v.z == 0.0 then None else Some(Point(v.x / v.z, v.y / v.z))
  }

  /** Over plain reals: `(d * w) / w == d`. */
  lemma DivideBack(d: real, w: real, t: real)
    requires w != 0.0 && t == d * w
    ensures t / w == d
  {
  }

  /** A point `H` sends to `d` up to scale lands exactly on `d` after the
      divide, unless the divide is by zero. */
  lemma MapsToProjects(H: Mat3, s: Point, d: Point)
    requires MapsTo(H, s, d) && MatVec(H, Lift(s)).z != 0.0
    ensures Project(H, s) == Some(d)
  {
    var v := MatVec(H, Lift(s));
    DivideBack(d.x, v.z, v.x);
    DivideBack(d.y, v.z, v.y);
  }

  /** After the homogeneous divide, a computed homography sends each source
      corner exactly onto its destination corner, unless the divide is by
      zero. */
  lemma CornersReachDestinations(src: seq<Point>, dst: seq<Point>, k: nat)
    requires |src| == 4 && ComputeHomography(src, dst).Success? && k < 4
    requires MatVec(ComputeHomography(src, dst).value, Lift(src[k])).z != 0.0
    ensures Project(ComputeHomography(src, dst).value, src[k]) == Some(dst[k])
  {
    MapsToProjects(ComputeHomography(src, dst).value, src[k], dst[k]);
  }

  /** Whether a texture coordinate lies in the unit square the shader keeps. */
  predicate InUnitSquare(uv: Point) {
    0.0 <= uv.x <= 1.0 && 0.0 <= uv.y <= 1.0
  }

  /** The fragment shader's lookup for the pixel at window position
      `(fx, fy)`: flip y against the canvas height `resY`, apply `invH`,
      divide by z, divide by the texture size, and `discard` (nothing)
      outside the unit square. */
  function ShaderSample(invH: Mat3, resY: real, srcW: real, srcH: real, fx: real, fy: real): (r: Option<Point>)
    requires srcW != 0.0 && srcH != 0.0
    ensures r.Some? ==> InUnitSquare(r.value)
    ensures r.Some? ==> Project(invH, Point(fx, resY - fy)).Some?
    ensures r.Some? ==> r.value.x * srcW == Project(invH, Point(fx, resY - fy)).value.x
    ensures r.Some? ==> r.value.y * srcH == Project(invH, Point(fx, resY - fy)).value.y
    ensures r.None? ==> (Project(invH, Point(fx, resY - fy)).None? ||
      !InUnitSquare(Point(Project(invH, Point(fx, resY - fy)).value.x / srcW,
                          Project(invH, Point(fx, resY - fy)).value.y / srcH)))
  {
    match Project(invH, Point(fx, resY - fy))
    case None => None
    case Some(p) =>
      var uv := Point(p.x / srcW, p.y / srcH);
      if uv.x < 0.0 || uv.x > 1.0 || uv.y < 0.0 || uv.y > 1.0 then None else Some(uv)
  }

  /** `MatVec` commutes with dividing the vector. */
  lemma MatVecDiv(m: Mat3, v: Vec3, d: real)
    requires d != 0.0
    ensures MatVec(m, DivVec(v, d)) == DivVec(MatVec(m, v), d)
  {
    DotDivRight(m.r0, v, d);
    DotDivRight(m.r1, v, d);
    DotDivRight(m.r2, v, d);
    DivideBack(Dot(m.r0, DivVec(v, d)), d, Dot(m.r0, v));
    DivideBack(Dot(m.r1, DivVec(v, d)), d, Dot(m.r1, v));
    DivideBack(Dot(m.r2, DivVec(v, d)), d, Dot(m.r2, v));
  }

  /** Over plain reals: dividing by `1/w` undoes dividing by `w`. */
  lemma DivideByReciprocal(a: real, w: real)
    requires w != 0.0
    ensures (a / w) / (1.0 / w) == a && 1.0 / w != 0.0
  {
  }

  /** Over plain reals: scaling by the texture size and back. */
  lemma ScaleBack(u: real, s: real)
    requires s != 0.0
    ensures (u * s) / s == u
  {
  }

  /** The shader undoes the forward warp: when `invH` is the computed inverse
      of `H` and `H` takes the texture point at `(u, v)` of the unit square
      to canvas position `q`, the pixel drawn at `q` samples exactly
      `(u, v)`. */
  lemma ShaderInvertsWarp(H: Mat3, invH: Mat3, resY: real, srcW: real, srcH: real, u: real, v: real, q: Point)
    requires Invert3x3(H) == Success(invH) && srcW != 0.0 && srcH != 0.0
    requires InUnitSquare(Point(u, v))
    requires Project(H, Point(u * srcW, v * srcH)) == Some(q)
    ensures ShaderSample(invH, resY, srcW, srcH, q.x, resY - q.y) == Some(Point(u, v))
  {
    var p := Point(u * srcW, v * srcH);
    var W := MatVec(H, Lift(p));
    var w := W.z;
    assert Point(q.x, resY - (resY - q.y)) == q;
    assert Lift(q) == DivVec(W, w);
    MatVecDiv(invH, W, w);
    MatVecMatMul(invH, H, Lift(p));
    IdentityNeutral(H, Lift(p));
    assert MatVec(invH, Lift(q)) == DivVec(Lift(p), w);
    DivideByReciprocal(p.x, w);
    DivideByReciprocal(p.y, w);
    assert Project(invH, q) == Some(p);
    ScaleBack(u, srcW);
    ScaleBack(v, srcH);
  }
}
