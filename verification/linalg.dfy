/** Three-by-three real linear algebra shared by the homography code, the
    WGS-84 sensor model and the Cesium-style helpers: vectors, matrices in
    the row-of-rows layout `[[..], [..], [..]]`, and the flat column-major
    layout used by WebGL uniforms and Cesium's `Matrix3`. */
module Linear {

  datatype Vec3 = Vec3(x: real, y: real, z: real)

  /** A matrix as its three rows, the nested-array layout of the source. */
  datatype Mat3 = Mat3(r0: Vec3, r1: Vec3, r2: Vec3)

  /** `v[i]`. */
  function Comp(v: Vec3, i: nat): real
    requires i < 3
  {
    if i == 0 then v.x else if i == 1 then v.y else v.z
  }

  /** `m[i]`. */
  function Row(m: Mat3, i: nat): Vec3
    requires i < 3
  {
    if i == 0 then m.r0 else if i == 1 then m.r1 else m.r2
  }

  /** `m[i][j]`. */
  function Entry(m: Mat3, i: nat, j: nat): real
    requires i < 3 && j < 3
  {
    Comp(Row(m, i), j)
  }

  /** Column `j`, read top to bottom. */
  function Col(m: Mat3, j: nat): (c: Vec3)
    requires j < 3
    ensures forall i :: 0 <= i < 3 ==> Comp(c, i) == Entry(m, i, j)
  {
    if j == 0 then Vec3(m.r0.x, m.r1.x, m.r2.x)
    else if j == 1 then Vec3(m.r0.y, m.r1.y, m.r2.y)
    else Vec3(m.r0.z, m.r1.z, m.r2.z)
  }

  /** Two matrices with the same nine entries are the same matrix. */
  lemma Extensionality(a: Mat3, b: Mat3)
    requires forall i, j :: 0 <= i < 3 && 0 <= j < 3 ==> Entry(a, i, j) == Entry(b, i, j)
    ensures a == b
  {
    assert Entry(a, 0, 0) == Entry(b, 0, 0) && Entry(a, 0, 1) == Entry(b, 0, 1) && Entry(a, 0, 2) == Entry(b, 0, 2);
    assert Entry(a, 1, 0) == Entry(b, 1, 0) && Entry(a, 1, 1) == Entry(b, 1, 1) && Entry(a, 1, 2) == Entry(b, 1, 2);
    assert Entry(a, 2, 0) == Entry(b, 2, 0) && Entry(a, 2, 1) == Entry(b, 2, 1) && Entry(a, 2, 2) == Entry(b, 2, 2);
  }

  /** The sum of componentwise products, accumulated left to right from 0
      as the source's `+=` loops do. */
  function Dot(u: Vec3, v: Vec3): real {
    u.x * v.x + u.y * v.y + u.z * v.z
  }

  const Identity: Mat3 := Mat3(Vec3(1.0, 0.0, 0.0), Vec3(0.0, 1.0, 0.0), Vec3(0.0, 0.0, 1.0))

  /** The entries of the identity: one on the diagonal, zero elsewhere. */
  lemma IdentityEntries()
    ensures forall i, j :: 0 <= i < 3 && 0 <= j < 3 ==>
      Entry(Identity, i, j) == if i == j then 1.0 else 0.0
  {
  }

  /** `matvec(M, v)` (backend/figureout.js): component `i` is row `i` of `m`
      dotted with `v`. */
  function MatVec(m: Mat3, v: Vec3): (r: Vec3)
    ensures forall i :: 0 <= i < 3 ==> Comp(r, i) == Dot(Row(m, i), v)
  {
    Vec3(Dot(m.r0, v), Dot(m.r1, v), Dot(m.r2, v))
  }

  /** `matmul(A, B)` (backend/figureout.js): entry `(i, j)` is row `i` of
      `a` dotted with column `j` of `b`. */
  function MatMul(a: Mat3, b: Mat3): (r: Mat3)
    ensures forall i, j :: 0 <= i < 3 && 0 <= j < 3 ==> Entry(r, i, j) == Dot(Row(a, i), Col(b, j))
  {
    Mat3(Vec3(Dot(a.r0, Col(b, 0)), Dot(a.r0, Col(b, 1)), Dot(a.r0, Col(b, 2))),
         Vec3(Dot(a.r1, Col(b, 0)), Dot(a.r1, Col(b, 1)), Dot(a.r1, Col(b, 2))),
         Vec3(Dot(a.r2, Col(b, 0)), Dot(a.r2, Col(b, 1)), Dot(a.r2, Col(b, 2))))
  }

  /** `transpose(M)` (backend/figureout.js), which builds row `i` of the result
      from entry `i` of every row. */
  function Transpose(m: Mat3): (t: Mat3)
    ensures forall i, j :: 0 <= i < 3 && 0 <= j < 3 ==> Entry(t, i, j) == Entry(m, j, i)
  {
    Mat3(Col(m, 0), Col(m, 1), Col(m, 2))
  }

  /** The determinant by cofactor expansion along the first row, the form
      `a*A + b*B + c*C` the inverter computes. */
  function Det(m: Mat3): real {
    m.r0.x * (m.r1.y * m.r2.z - m.r1.z * m.r2.y)
    + m.r0.y * -(m.r1.x * m.r2.z - m.r1.z * m.r2.x)
    + m.r0.z * (m.r1.x * m.r2.y - m.r1.y * m.r2.x)
  }

  /** Transposing twice gives back the matrix. */
  lemma TransposeInvolution(m: Mat3)
    ensures Transpose(Transpose(m)) == m
  {
  }

  /** The product applied to a vector is the two factors applied in turn:
      the composition the platform-attitude chain relies on. */
  lemma MatVecMatMul(a: Mat3, b: Mat3, v: Vec3)
    ensures MatVec(MatMul(a, b), v) == MatVec(a, MatVec(b, v))
  {
  }

  /** Matrix products associate, so the nesting of the attitude product does
      not matter. */
  lemma MatMulAssociative(a: Mat3, b: Mat3, c: Mat3)
    ensures MatMul(MatMul(a, b), c) == MatMul(a, MatMul(b, c))
  {
    forall i, j | 0 <= i < 3 && 0 <= j < 3
      ensures Entry(MatMul(MatMul(a, b), c), i, j) == Entry(MatMul(a, MatMul(b, c)), i, j)
    {
      assert Row(MatMul(a, b), i) == VecMat(Row(a, i), b);
      assert Col(MatMul(b, c), j) == MatVec(b, Col(c, j));
      DotVecMat(Row(a, i), b, Col(c, j));
    }
    Extensionality(MatMul(MatMul(a, b), c), MatMul(a, MatMul(b, c)));
  }

  /** The row vector `u` times `m`. */
  function VecMat(u: Vec3, m: Mat3): Vec3 {
    Vec3(Dot(u, Col(m, 0)), Dot(u, Col(m, 1)), Dot(u, Col(m, 2)))
  }

  /** `(u m) . w == u . (m w)`. */
  lemma DotVecMat(u: Vec3, m: Mat3, w: Vec3)
    ensures Dot(VecMat(u, m), w) == Dot(u, MatVec(m, w))
  {
  }

  /** The identity is neutral on both sides and fixes every vector. */
  lemma IdentityNeutral(m: Mat3, v: Vec3)
    ensures MatMul(Identity, m) == m && MatMul(m, Identity) == m
    ensures MatVec(Identity, v) == v
  {
  }

  /** The transpose of a product is the product of the transposes, reversed. */
  lemma TransposeMatMul(a: Mat3, b: Mat3)
    ensures Transpose(MatMul(a, b)) == MatMul(Transpose(b), Transpose(a))
  {
  }

  /** Cofactor expansion along the first row equals expansion along the
      first column. */
  lemma DetTranspose(m: Mat3)
    ensures Det(Transpose(m)) == Det(m)
  {
  }

  /** The transposed cofactor matrix, entry for entry the `A`..`I` of
      `#invert3x3` (frontend/perspective.js) placed as its result places
      them before dividing by the determinant. */
  function Adjugate(m: Mat3): Mat3 {
    var a, b, c := m.r0.x, m.r0.y, m.r0.z;
    var d, e, f := m.r1.x, m.r1.y, m.r1.z;
    var g, h, i := m.r2.x, m.r2.y, m.r2.z;
    var A, B, C := e * i - f * h, -(d * i - f * g), d * h - e * g;
    var D, E, F := -(b * i - c * h), a * i - c * g, -(a * h - b * g);
    var G, H, I := b * f - c * e, -(a * f - c * d), a * e - b * d;
    Mat3(Vec3(A, D, G), Vec3(B, E, H), Vec3(C, F, I))
  }

  /** The determinant times the identity. */
  function DetIdentity(m: Mat3): Mat3 {
    Mat3(Vec3(Det(m), 0.0, 0.0), Vec3(0.0, Det(m), 0.0), Vec3(0.0, 0.0, Det(m)))
  }

  /** A matrix times its adjugate is its determinant times the identity:
      row `i` of `m` against column `j` of the adjugate is the cofactor
      expansion of the determinant along row `i` when `i == j`, and the
      expansion of a matrix with a repeated row otherwise. */
  lemma AdjugateRight(m: Mat3)
    ensures MatMul(m, Adjugate(m)) == DetIdentity(m)
  {
    RightCofactor00(m); RightCofactor01(m); RightCofactor02(m);
    RightCofactor10(m); RightCofactor11(m); RightCofactor12(m);
    RightCofactor20(m); RightCofactor21(m); RightCofactor22(m);
  }

  /** The same with the adjugate on the left: column expansions. */
  lemma AdjugateLeft(m: Mat3)
    ensures MatMul(Adjugate(m), m) == DetIdentity(m)
  {
    LeftCofactor00(m); LeftCofactor01(m); LeftCofactor02(m);
    LeftCofactor10(m); LeftCofactor11(m); LeftCofactor12(m);
    LeftCofactor20(m); LeftCofactor21(m); LeftCofactor22(m);
  }

  /** `Dot(u, v)` with the components of `v` named. */
  lemma DotWith(u: Vec3, v: Vec3, p: real, q: real, r: real)
    requires v.x == p && v.y == q && v.z == r
    ensures Dot(u, v) == u.x * p + u.y * q + u.z * r
  {
  }

  /** `Dot(u, v)` with the components of `u` named. */
  lemma DotWithLeft(u: Vec3, v: Vec3, p: real, q: real, r: real)
    requires u.x == p && u.y == q && u.z == r
    ensures Dot(u, v) == p * v.x + q * v.y + r * v.z
  {
  }

  /** The nine polynomial identities behind `AdjugateRight`, over plain
      reals: a row dotted with its own cofactors gives the determinant, and
      with the cofactors of another row gives zero. */
  lemma RowExpansions(a: real, b: real, c: real, d: real, e: real, f: real, g: real, h: real, i: real)
    ensures var A, B, C := e * i - f * h, -(d * i - f * g), d * h - e * g;
            var D, E, F := -(b * i - c * h), a * i - c * g, -(a * h - b * g);
            var G, H, I := b * f - c * e, -(a * f - c * d), a * e - b * d;
            var det := a * A + b * B + c * C;
            a * A + b * B + c * C == det &&
            a * D + b * E + c * F == 0.0 &&
            a * G + b * H + c * I == 0.0 &&
            d * A + e * B + f * C == 0.0 &&
            d * D + e * E + f * F == det &&
            d * G + e * H + f * I == 0.0 &&
            g * A + h * B + i * C == 0.0 &&
            g * D + h * E + i * F == 0.0 &&
            g * G + h * H + i * I == det
  {
  }

  /** The nine identities behind `AdjugateLeft`: the same for columns. */
  lemma ColumnExpansions(a: real, b: real, c: real, d: real, e: real, f: real, g: real, h: real, i: real)
    ensures var A, B, C := e * i - f * h, -(d * i - f * g), d * h - e * g;
            var D, E, F := -(b * i - c * h), a * i - c * g, -(a * h - b * g);
            var G, H, I := b * f - c * e, -(a * f - c * d), a * e - b * d;
            var det := a * A + b * B + c * C;
            A * a + D * d + G * g == det &&
            A * b + D * e + G * h == 0.0 &&
            A * c + D * f + G * i == 0.0 &&
            B * a + E * d + H * g == 0.0 &&
            B * b + E * e + H * h == det &&
            B * c + E * f + H * i == 0.0 &&
            C * a + F * d + I * g == 0.0 &&
            C * b + F * e + I * h == 0.0 &&
            C * c + F * f + I * i == det
  {
  }

  lemma RightCofactor00(m: Mat3)
    ensures Dot(m.r0, Col(Adjugate(m), 0)) == Det(m)
  {
    var a, b, c := m.r0.x, m.r0.y, m.r0.z;
    var d, e, f := m.r1.x, m.r1.y, m.r1.z;
    var g, h, i := m.r2.x, m.r2.y, m.r2.z;
    DotWith(m.r0, Col(Adjugate(m), 0), e * i - f * h, -(d * i - f * g), d * h - e * g);
    RowExpansions(m.r0.x, m.r0.y, m.r0.z, m.r1.x, m.r1.y, m.r1.z, m.r2.x, m.r2.y, m.r2.z);
  }

  lemma RightCofactor01(m: Mat3)
    ensures Dot(m.r0, Col(Adjugate(m), 1)) == 0.0
  {
    var a, b, c := m.r0.x, m.r0.y, m.r0.z;
    var d, e, f := m.r1.x, m.r1.y, m.r1.z;
    var g, h, i := m.r2.x, m.r2.y, m.r2.z;
    DotWith(m.r0, Col(Adjugate(m), 1), -(b * i - c * h), a * i - c * g, -(a * h - b * g));
    RowExpansions(m.r0.x, m.r0.y, m.r0.z, m.r1.x, m.r1.y, m.r1.z, m.r2.x, m.r2.y, m.r2.z);
  }

  lemma RightCofactor02(m: Mat3)
    ensures Dot(m.r0, Col(Adjugate(m), 2)) == 0.0
  {
    var a, b, c := m.r0.x, m.r0.y, m.r0.z;
    var d, e, f := m.r1.x, m.r1.y, m.r1.z;
    var g, h, i := m.r2.x, m.r2.y, m.r2.z;
    DotWith(m.r0, Col(Adjugate(m), 2), b * f - c * e, -(a * f - c * d), a * e - b * d);
    RowExpansions(m.r0.x, m.r0.y, m.r0.z, m.r1.x, m.r1.y, m.r1.z, m.r2.x, m.r2.y, m.r2.z);
  }

  lemma RightCofactor10(m: Mat3)
    ensures Dot(m.r1, Col(Adjugate(m), 0)) == 0.0
  {
    var a, b, c := m.r0.x, m.r0.y, m.r0.z;
    var d, e, f := m.r1.x, m.r1.y, m.r1.z;
    var g, h, i := m.r2.x, m.r2.y, m.r2.z;
    DotWith(m.r1, Col(Adjugate(m), 0), e * i - f * h, -(d * i - f * g), d * h - e * g);
    RowExpansions(m.r0.x, m.r0.y, m.r0.z, m.r1.x, m.r1.y, m.r1.z, m.r2.x, m.r2.y, m.r2.z);
  }

  lemma RightCofactor11(m: Mat3)
    ensures Dot(m.r1, Col(Adjugate(m), 1)) == Det(m)
  {
    var a, b, c := m.r0.x, m.r0.y, m.r0.z;
    var d, e, f := m.r1.x, m.r1.y, m.r1.z;
    var g, h, i := m.r2.x, m.r2.y, m.r2.z;
    DotWith(m.r1, Col(Adjugate(m), 1), -(b * i - c * h), a * i - c * g, -(a * h - b * g));
    RowExpansions(m.r0.x, m.r0.y, m.r0.z, m.r1.x, m.r1.y, m.r1.z, m.r2.x, m.r2.y, m.r2.z);
  }

  lemma RightCofactor12(m: Mat3)
    ensures Dot(m.r1, Col(Adjugate(m), 2)) == 0.0
  {
    var a, b, c := m.r0.x, m.r0.y, m.r0.z;
    var d, e, f := m.r1.x, m.r1.y, m.r1.z;
    var g, h, i := m.r2.x, m.r2.y, m.r2.z;
    DotWith(m.r1, Col(Adjugate(m), 2), b * f - c * e, -(a * f - c * d), a * e - b * d);
    RowExpansions(m.r0.x, m.r0.y, m.r0.z, m.r1.x, m.r1.y, m.r1.z, m.r2.x, m.r2.y, m.r2.z);
  }

  lemma RightCofactor20(m: Mat3)
    ensures Dot(m.r2, Col(Adjugate(m), 0)) == 0.0
  {
    var a, b, c := m.r0.x, m.r0.y, m.r0.z;
    var d, e, f := m.r1.x, m.r1.y, m.r1.z;
    var g, h, i := m.r2.x, m.r2.y, m.r2.z;
    DotWith(m.r2, Col(Adjugate(m), 0), e * i - f * h, -(d * i - f * g), d * h - e * g);
    RowExpansions(m.r0.x, m.r0.y, m.r0.z, m.r1.x, m.r1.y, m.r1.z, m.r2.x, m.r2.y, m.r2.z);
  }

  lemma RightCofactor21(m: Mat3)
    ensures Dot(m.r2, Col(Adjugate(m), 1)) == 0.0
  {
    var a, b, c := m.r0.x, m.r0.y, m.r0.z;
    var d, e, f := m.r1.x, m.r1.y, m.r1.z;
    var g, h, i := m.r2.x, m.r2.y, m.r2.z;
    DotWith(m.r2, Col(Adjugate(m), 1), -(b * i - c * h), a * i - c * g, -(a * h - b * g));
    RowExpansions(m.r0.x, m.r0.y, m.r0.z, m.r1.x, m.r1.y, m.r1.z, m.r2.x, m.r2.y, m.r2.z);
  }

  lemma RightCofactor22(m: Mat3)
    ensures Dot(m.r2, Col(Adjugate(m), 2)) == Det(m)
  {
    var a, b, c := m.r0.x, m.r0.y, m.r0.z;
    var d, e, f := m.r1.x, m.r1.y, m.r1.z;
    var g, h, i := m.r2.x, m.r2.y, m.r2.z;
    DotWith(m.r2, Col(Adjugate(m), 2), b * f - c * e, -(a * f - c * d), a * e - b * d);
    RowExpansions(m.r0.x, m.r0.y, m.r0.z, m.r1.x, m.r1.y, m.r1.z, m.r2.x, m.r2.y, m.r2.z);
  }

  lemma LeftCofactor00(m: Mat3)
    ensures Dot(Adjugate(m).r0, Col(m, 0)) == Det(m)
  {
    var a, b, c := m.r0.x, m.r0.y, m.r0.z;
    var d, e, f := m.r1.x, m.r1.y, m.r1.z;
    var g, h, i := m.r2.x, m.r2.y, m.r2.z;
    DotWithLeft(Adjugate(m).r0, Col(m, 0), e * i - f * h, -(b * i - c * h), b * f - c * e);
    ColumnExpansions(m.r0.x, m.r0.y, m.r0.z, m.r1.x, m.r1.y, m.r1.z, m.r2.x, m.r2.y, m.r2.z);
  }

  lemma LeftCofactor01(m: Mat3)
    ensures Dot(Adjugate(m).r0, Col(m, 1)) == 0.0
  {
    var a, b, c := m.r0.x, m.r0.y, m.r0.z;
    var d, e, f := m.r1.x, m.r1.y, m.r1.z;
    var g, h, i := m.r2.x, m.r2.y, m.r2.z;
    DotWithLeft(Adjugate(m).r0, Col(m, 1), e * i - f * h, -(b * i - c * h), b * f - c * e);
    ColumnExpansions(m.r0.x, m.r0.y, m.r0.z, m.r1.x, m.r1.y, m.r1.z, m.r2.x, m.r2.y, m.r2.z);
  }

  lemma LeftCofactor02(m: Mat3)
    ensures Dot(Adjugate(m).r0, Col(m, 2)) == 0.0
  {
    var a, b, c := m.r0.x, m.r0.y, m.r0.z;
    var d, e, f := m.r1.x, m.r1.y, m.r1.z;
    var g, h, i := m.r2.x, m.r2.y, m.r2.z;
    DotWithLeft(Adjugate(m).r0, Col(m, 2), e * i - f * h, -(b * i - c * h), b * f - c * e);
    ColumnExpansions(m.r0.x, m.r0.y, m.r0.z, m.r1.x, m.r1.y, m.r1.z, m.r2.x, m.r2.y, m.r2.z);
  }

  lemma LeftCofactor10(m: Mat3)
    ensures Dot(Adjugate(m).r1, Col(m, 0)) == 0.0
  {
    var a, b, c := m.r0.x, m.r0.y, m.r0.z;
    var d, e, f := m.r1.x, m.r1.y, m.r1.z;
    var g, h, i := m.r2.x, m.r2.y, m.r2.z;
    DotWithLeft(Adjugate(m).r1, Col(m, 0), -(d * i - f * g), a * i - c * g, -(a * f - c * d));
    ColumnExpansions(m.r0.x, m.r0.y, m.r0.z, m.r1.x, m.r1.y, m.r1.z, m.r2.x, m.r2.y, m.r2.z);
  }

  lemma LeftCofactor11(m: Mat3)
    ensures Dot(Adjugate(m).r1, Col(m, 1)) == Det(m)
  {
    var a, b, c := m.r0.x, m.r0.y, m.r0.z;
    var d, e, f := m.r1.x, m.r1.y, m.r1.z;
    var g, h, i := m.r2.x, m.r2.y, m.r2.z;
    DotWithLeft(Adjugate(m).r1, Col(m, 1), -(d * i - f * g), a * i - c * g, -(a * f - c * d));
    ColumnExpansions(m.r0.x, m.r0.y, m.r0.z, m.r1.x, m.r1.y, m.r1.z, m.r2.x, m.r2.y, m.r2.z);
  }

  lemma LeftCofactor12(m: Mat3)
    ensures Dot(Adjugate(m).r1, Col(m, 2)) == 0.0
  {
    var a, b, c := m.r0.x, m.r0.y, m.r0.z;
    var d, e, f := m.r1.x, m.r1.y, m.r1.z;
    var g, h, i := m.r2.x, m.r2.y, m.r2.z;
    DotWithLeft(Adjugate(m).r1, Col(m, 2), -(d * i - f * g), a * i - c * g, -(a * f - c * d));
    ColumnExpansions(m.r0.x, m.r0.y, m.r0.z, m.r1.x, m.r1.y, m.r1.z, m.r2.x, m.r2.y, m.r2.z);
  }

  lemma LeftCofactor20(m: Mat3)
    ensures Dot(Adjugate(m).r2, Col(m, 0)) == 0.0
  {
    var a, b, c := m.r0.x, m.r0.y, m.r0.z;
    var d, e, f := m.r1.x, m.r1.y, m.r1.z;
    var g, h, i := m.r2.x, m.r2.y, m.r2.z;
    DotWithLeft(Adjugate(m).r2, Col(m, 0), d * h - e * g, -(a * h - b * g), a * e - b * d);
    ColumnExpansions(m.r0.x, m.r0.y, m.r0.z, m.r1.x, m.r1.y, m.r1.z, m.r2.x, m.r2.y, m.r2.z);
  }

  lemma LeftCofactor21(m: Mat3)
    ensures Dot(Adjugate(m).r2, Col(m, 1)) == 0.0
  {
    var a, b, c := m.r0.x, m.r0.y, m.r0.z;
    var d, e, f := m.r1.x, m.r1.y, m.r1.z;
    var g, h, i := m.r2.x, m.r2.y, m.r2.z;
    DotWithLeft(Adjugate(m).r2, Col(m, 1), d * h - e * g, -(a * h - b * g), a * e - b * d);
    ColumnExpansions(m.r0.x, m.r0.y, m.r0.z, m.r1.x, m.r1.y, m.r1.z, m.r2.x, m.r2.y, m.r2.z);
  }

  lemma LeftCofactor22(m: Mat3)
    ensures Dot(Adjugate(m).r2, Col(m, 2)) == Det(m)
  {
    var a, b, c := m.r0.x, m.r0.y, m.r0.z;
    var d, e, f := m.r1.x, m.r1.y, m.r1.z;
    var g, h, i := m.r2.x, m.r2.y, m.r2.z;
    DotWithLeft(Adjugate(m).r2, Col(m, 2), d * h - e * g, -(a * h - b * g), a * e - b * d);
    ColumnExpansions(m.r0.x, m.r0.y, m.r0.z, m.r1.x, m.r1.y, m.r1.z, m.r2.x, m.r2.y, m.r2.z);
  }

  // ----- the flat column-major layout -----

  /** The nine entries in column-major order, `out[3*c + r] == m[r][c]`:
      `#mat3ToGL` (frontend/perspective.js) and Cesium's `Matrix3` storage
      (frontend/misc.js). */
  function ColumnMajor(m: Mat3): (out: seq<real>)
    ensures |out| == 9
    ensures forall r, c :: 0 <= r < 3 && 0 <= c < 3 ==> out[3 * c + r] == Entry(m, r, c)
  {
    [m.r0.x, m.r1.x, m.r2.x, m.r0.y, m.r1.y, m.r2.y, m.r0.z, m.r1.z, m.r2.z]
  }

  /** Reads a column-major array back as rows. */
  function FromColumnMajor(s: seq<real>): (m: Mat3)
    requires |s| == 9
    ensures forall r, c :: 0 <= r < 3 && 0 <= c < 3 ==> Entry(m, r, c) == s[3 * c + r]
  {
    Mat3(Vec3(s[0], s[3], s[6]), Vec3(s[1], s[4], s[7]), Vec3(s[2], s[5], s[8]))
  }

  /** The two layouts are inverse to each other in both directions. */
  lemma ColumnMajorRoundTrip(m: Mat3, s: seq<real>)
    requires |s| == 9
    ensures FromColumnMajor(ColumnMajor(m)) == m
    ensures ColumnMajor(FromColumnMajor(s)) == s
  {
    assert ColumnMajor(FromColumnMajor(s)) == [s[0], s[1], s[2], s[3], s[4], s[5], s[6], s[7], s[8]];
  }

  /** The column-major array read row by row is the transpose, which is how
      `#mat3ToGL` transposes for `uniformMatrix3fv(.., false, ..)`. */
  lemma ColumnMajorIsTransposedRows(m: Mat3)
    ensures ColumnMajor(m) == RowMajor(Transpose(m))
  {
  }

  /** The nine entries row by row. */
  function RowMajor(m: Mat3): (out: seq<real>)
    ensures |out| == 9
    ensures forall r, c :: 0 <= r < 3 && 0 <= c < 3 ==> out[3 * r + c] == Entry(m, r, c)
  {
    [m.r0.x, m.r0.y, m.r0.z, m.r1.x, m.r1.y, m.r1.z, m.r2.x, m.r2.y, m.r2.z]
  }
}
