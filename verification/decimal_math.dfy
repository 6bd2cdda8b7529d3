/** The Decimal.js re-implementation of Cesium's `Matrix3` helpers in
    frontend/misc.js: `toDecimal`, the column-major `Matrix3` constructor,
    the quaternion and heading/pitch/roll rotation matrices, `toRad` and
    the matrix-vector product. Decimals are reals; `sin` and `cos` come from
    an `Elementary.Math` record. */
module DecimalMath {
  import opened Wrappers
  import opened Js
  import opened Linear
  import opened Elementary
  import opened Wgs84

  // ---------------------------------------------------------------------------
  // toDecimal
  // ---------------------------------------------------------------------------

  /** What `toDecimal` may be handed: a value that already is a Decimal, or
      any other JavaScript value. */
  datatype Input = Decimal(d: real) | Plain(v: Value)

  /** `toDecimal(value)`: a Decimal is returned as it is; anything else goes
      through `new Decimal(value.toString())`. Calling `toString` on
      `undefined` or `null` throws a TypeError before the `?? '0'` fallback
      is reached, so that fallback never applies. A number converts to
      itself; a string is read by `parse`, the abstract Decimal number-text
      reader (`None` is text Decimal.js rejects). */
  function ToDecimal(parse: string -> Option<real>, x: Input): (r: Result<real>)
    ensures x.Decimal? ==> r == Success(x.d)
    ensures r.Failure? <==> x.Plain? && NotConvertible(parse, x.v)
    ensures x.Plain? && (x.v.Undefined? || x.v.Null?) ==> r == Failure(TypeError)
    ensures x.Plain? && x.v.Num? ==> r == Success(x.v.n)
  {
    match x
    case Decimal(d) => Success(d)
    case Plain(v) =>
      match v
      case Undefined => Failure(TypeError)
      case Null => Failure(TypeError)
      case Num(n) => Success(n)
      case Str(s) => if parse(s).Some? then Success(parse(s).value) else Failure(DecimalError)
      case _ => Failure(DecimalError)
  }

  /** The plain values `new Decimal(value.toString() ?? '0')` cannot turn
      into a number: the nullish ones, text `parse` rejects, and the text of
      booleans, arrays and objects. */
  predicate NotConvertible(parse: string -> Option<real>, v: Value) {
    !v.Num? && !(v.Str? && parse(v.s).Some?)
  }

  /** Converting twice changes nothing: once a value is a Decimal it is
      returned unchanged. */
  lemma ToDecimalIdempotent(parse: string -> Option<real>, x: Input)
    requires ToDecimal(parse, x).Success?
    ensures ToDecimal(parse, Decimal(ToDecimal(parse, x).value)) == ToDecimal(parse, x)
  {
  }

  // ---------------------------------------------------------------------------
  // HeadingPitchRoll and toRad
  // ---------------------------------------------------------------------------

  /** A `HeadingPitchRoll` record: three Decimal angles in radians. */
  datatype HeadingPitchRoll = HeadingPitchRoll(heading: real, pitch: real, roll: real)

  /** `new HeadingPitchRoll(heading, pitch, roll)`: each argument goes
      through `toDecimal`, and the first failing one raises its error. */
  function NewHeadingPitchRoll(parse: string -> Option<real>, h: Input, p: Input, r: Input): (o: Result<HeadingPitchRoll>)
    ensures o.Success? <==> ToDecimal(parse, h).Success? && ToDecimal(parse, p).Success? && ToDecimal(parse, r).Success?
    ensures o.Success? ==> o.value == HeadingPitchRoll(ToDecimal(parse, h).value, ToDecimal(parse, p).value, ToDecimal(parse, r).value)
    ensures ToDecimal(parse, h).Failure? ==> o == Failure(ToDecimal(parse, h).error)
  {
    var hd := ToDecimal(parse, h);
    if hd.Failure? then Failure(hd.error) else
    var pd := ToDecimal(parse, p);
    if pd.Failure? then Failure(pd.error) else
    var rd := ToDecimal(parse, r);
    if rd.Failure? then Failure(rd.error) else
    Success(HeadingPitchRoll(hd.value, pd.value, rd.value))
  }

  /** `RADIANS_PER_DEGREE`: `Math.PI / 180`. */
  const RadiansPerDegree: real := 3.141592653589793 / 180.0

  /** `toRad(degrees)`: the Decimal form of `degrees` times `RADIANS_PER_DEGREE`;
      converting the result back to degrees gives the input. */
  function ToRadians(parse: string -> Option<real>, degrees: Input): (r: Result<real>)
    ensures r.Success? <==> ToDecimal(parse, degrees).Success?
    ensures r.Failure? ==> r.error == ToDecimal(parse, degrees).error
    ensures r.Success? ==> r.value == Elementary.ToRad(ToDecimal(parse, degrees).value)
    ensures r.Success? ==> ToDeg(r.value) == ToDecimal(parse, degrees).value
  {
    var d := ToDecimal(parse, degrees);
    if d.Failure? then Failure(d.error) else Success(d.value * RadiansPerDegree)
  }

  // ---------------------------------------------------------------------------
  // Matrix3 storage
  // ---------------------------------------------------------------------------

  /** `new Matrix3(column0Row0, column1Row0, .., column2Row2)`: the arguments
      come row by row and are stored column by column, entry (row, col) at
      index `3 * col + row`. */
  function NewMatrix3(
    a00: real, a01: real, a02: real,
    a10: real, a11: real, a12: real,
    a20: real, a21: real, a22: real): (s: seq<real>)
    ensures s == ColumnMajor(Mat3(Vec3(a00, a01, a02), Vec3(a10, a11, a12), Vec3(a20, a21, a22)))
  {
    [a00, a10, a20, a01, a11, a21, a02, a12, a22]
  }

  /** The same nine entries written into a caller-supplied `result` matrix,
      in the order of `result[0] = m00; result[1] = m10; ..`. */
  function FillResult(result: seq<real>, m: Mat3): (s: seq<real>)
    requires |result| == 9
    ensures s == ColumnMajor(m)
  {
    var s := result[0 := m.r0.x][1 := m.r1.x][2 := m.r2.x]
                   [3 := m.r0.y][4 := m.r1.y][5 := m.r2.y]
                   [6 := m.r0.z][7 := m.r1.z][8 := m.r2.z];
    assert s == [s[0], s[1], s[2], s[3], s[4], s[5], s[6], s[7], s[8]];
    s
  }

  /** Both ways the rotation builders return their matrix: a new `Matrix3`
      when no `result` is supplied, else the supplied one filled in. */
  function Emit(m: Mat3, result: Option<seq<real>>): (s: seq<real>)
    requires result.Some? ==> |result.value| == 9
    ensures s == ColumnMajor(m)
  {
    if result.None? then NewMatrix3(m.r0.x, m.r0.y, m.r0.z, m.r1.x, m.r1.y, m.r1.z, m.r2.x, m.r2.y, m.r2.z)
    else FillResult(result.value, m)
  }

  /** `multiplyMatrix3ByVector(matrix, cartesian, result)`: component `r` is
      `matrix[r] * x + matrix[r + 3] * y + matrix[r + 6] * z`. Reading a
      missing entry gives `undefined`, which `toDecimal` rejects. */
  function MultiplyByVector(matrix: seq<real>, v: Vec3): (r: Result<Vec3>)
    ensures r.Success? <==> |matrix| >= 9
    ensures r.Failure? ==> r.error == TypeError
    ensures r.Success? ==> r.value == MatVec(FromColumnMajor(matrix[..9]), v)
  {
    if |matrix| < 9 then Failure(TypeError) else
    Success(Vec3(
      matrix[0] * v.x + matrix[3] * v.y + matrix[6] * v.z,
      matrix[1] * v.x + matrix[4] * v.y + matrix[7] * v.z,
      matrix[2] * v.x + matrix[5] * v.y + matrix[8] * v.z))
  }

  /** Storing a matrix with the constructor and multiplying by the stored
      array is the ordinary matrix-vector product. */
  lemma StoredProduct(m: Mat3, v: Vec3)
    ensures MultiplyByVector(ColumnMajor(m), v) == Success(MatVec(m, v))
  {
    ColumnMajorRoundTrip(m, ColumnMajor(m));
  }

  // ---------------------------------------------------------------------------
  // Quaternion to Matrix3
  // ---------------------------------------------------------------------------

  /** A quaternion `x i + y j + z k + w`. */
  datatype Quaternion = Quaternion(x: real, y: real, z: real, w: real)

  /** The rotation matrix of a quaternion, `m00 .. m22` of
      `matrix3FromQuaternion`, as rows, from the ten products the source
      names `x2 .. w2`. */
  function QuaternionRows(q: Quaternion): Mat3 {
    ProductRows(q.x * q.x, q.y * q.y, q.z * q.z, q.w * q.w,
                q.x * q.y, q.x * q.z, q.y * q.z,
                q.x * q.w, q.y * q.w, q.z * q.w)
  }

  /** `m00 .. m22` in terms of the component products. */
  function ProductRows(x2: real, y2: real, z2: real, w2: real,
                       xy: real, xz: real, yz: real,
                       xw: real, yw: real, zw: real): Mat3 {
    Mat3(
      Vec3(x2 - y2 - z2 + w2, 2.0 * (xy - zw), 2.0 * (xz + yw)),
      Vec3(2.0 * (xy + zw), y2 - x2 - z2 + w2, 2.0 * (yz - xw)),
      Vec3(2.0 * (xz - yw), 2.0 * (yz + xw), w2 - x2 - y2 + z2))
  }

  /** `matrix3FromQuaternion(quaternion, result)`: with or without a
      supplied `result`, the matrix comes back in the constructor's
      column-major layout. */
  function MatrixFromQuaternion(q: Quaternion, result: Option<seq<real>>): (s: seq<real>)
    requires result.Some? ==> |result.value| == 9
    ensures s == ColumnMajor(QuaternionRows(q))
  {
    Emit(QuaternionRows(q), result)
  }

  /** The identity quaternion `(0, 0, 0, 1)` gives the identity matrix. */
  lemma IdentityQuaternion(result: Option<seq<real>>)
    requires result.Some? ==> |result.value| == 9
    ensures QuaternionRows(Quaternion(0.0, 0.0, 0.0, 1.0)) == Identity
    ensures MatrixFromQuaternion(Quaternion(0.0, 0.0, 0.0, 1.0), result) == ColumnMajor(Identity)
  {
    IdentityRows();
  }

  lemma IdentityRows()
    ensures QuaternionRows(Quaternion(0.0, 0.0, 0.0, 1.0)) == Identity
  {
  }
  /** The conjugate quaternion gives the transposed matrix. */
  lemma ConjugateTransposes(q: Quaternion)
    ensures QuaternionRows(Quaternion(-q.x, -q.y, -q.z, q.w)) == Transpose(QuaternionRows(q))
  {
    NegatedProduct(q.x, q.x);
    NegatedProduct(q.y, q.y);
    NegatedProduct(q.z, q.z);
    NegatedProduct(q.x, q.y);
    NegatedProduct(q.x, q.z);
    NegatedProduct(q.y, q.z);
    NegatedFactor(q.x, q.w);
    NegatedFactor(q.y, q.w);
    NegatedFactor(q.z, q.w);
    var x2, y2, z2, w2 := q.x * q.x, q.y * q.y, q.z * q.z, q.w * q.w;
    var xy, xz, yz, xw, yw, zw := q.x * q.y, q.x * q.z, q.y * q.z, q.x * q.w, q.y * q.w, q.z * q.w;
    assert QuaternionRows(Quaternion(-q.x, -q.y, -q.z, q.w)) ==
      ProductRows(x2, y2, z2, w2, xy, xz, yz, -xw, -yw, -zw);
    TransposedProducts(x2, y2, z2, w2, xy, xz, yz, xw, yw, zw);
  }

  /** Negating the three products with `w` transposes the matrix. */
  lemma TransposedProducts(x2: real, y2: real, z2: real, w2: real,
                           xy: real, xz: real, yz: real,
                           xw: real, yw: real, zw: real)
    ensures ProductRows(x2, y2, z2, w2, xy, xz, yz, -xw, -yw, -zw) ==
      Transpose(ProductRows(x2, y2, z2, w2, xy, xz, yz, xw, yw, zw))
  {
  }

  /** `q` and `-q` give the same matrix. */
  lemma NegatedQuaternion(q: Quaternion)
    ensures QuaternionRows(Quaternion(-q.x, -q.y, -q.z, -q.w)) == QuaternionRows(q)
  {
    NegatedProduct(q.x, q.x);
    NegatedProduct(q.y, q.y);
    NegatedProduct(q.z, q.z);
    NegatedProduct(q.w, q.w);
    NegatedProduct(q.x, q.y);
    NegatedProduct(q.x, q.z);
    NegatedProduct(q.y, q.z);
    NegatedProduct(q.x, q.w);
    NegatedProduct(q.y, q.w);
    NegatedProduct(q.z, q.w);
    SameProducts(Quaternion(-q.x, -q.y, -q.z, -q.w), q);
  }

  /** Two quaternions with the same ten component products give the same
      matrix. */
  lemma SameProducts(p: Quaternion, q: Quaternion)
    requires p.x * p.x == q.x * q.x && p.y * p.y == q.y * q.y && p.z * p.z == q.z * q.z && p.w * p.w == q.w * q.w
    requires p.x * p.y == q.x * q.y && p.x * p.z == q.x * q.z && p.y * p.z == q.y * q.z
    requires p.x * p.w == q.x * q.w && p.y * p.w == q.y * q.w && p.z * p.w == q.z * q.w
    ensures QuaternionRows(p) == QuaternionRows(q)
  {
  }

  /** `(-a) (-b) = a b`. */
  lemma NegatedProduct(a: real, b: real)
    ensures (-a) * (-b) == a * b
  {
  }

  /** `(-a) b = -(a b)`. */
  lemma NegatedFactor(a: real, b: real)
    ensures (-a) * b == -(a * b)
  {
  }

  // ---------------------------------------------------------------------------
  // HeadingPitchRoll to Matrix3
  // ---------------------------------------------------------------------------

  /** `m00 .. m22` of `matrix3fromHeadingPitchRoll`, as rows: the angles are
      `theta = -pitch`, `psi = -heading` and `phi = roll`. */
  function HeadingPitchRollRows(m: Math, hpr: HeadingPitchRoll): Mat3 {
    var pitch, heading, roll := -hpr.pitch, -hpr.heading, hpr.roll;
    AngleRows(m.cos(pitch), m.sin(pitch), m.cos(heading), m.sin(heading), m.cos(roll), m.sin(roll))
  }

  /** `m00 .. m22` in terms of the six cosines and sines. */
  function AngleRows(cosTheta: real, sinTheta: real, cosPsi: real, sinPsi: real, cosPhi: real, sinPhi: real): Mat3 {
    Mat3(
      Vec3(cosTheta * cosPsi,
           -cosPhi * sinPsi + sinPhi * sinTheta * cosPsi,
           sinPhi * sinPsi + cosPhi * sinTheta * cosPsi),
      Vec3(cosTheta * sinPsi,
           cosPhi * cosPsi + sinPhi * sinTheta * sinPsi,
           -sinPhi * cosPsi + cosPhi * sinTheta * sinPsi),
      Vec3(-sinTheta, sinPhi * cosTheta, cosPhi * cosTheta))
  }

  /** `matrix3fromHeadingPitchRoll(headingPitchRoll, result)`, in the
      constructor's column-major layout either way. */
  function MatrixFromHeadingPitchRoll(m: Math, hpr: HeadingPitchRoll, result: Option<seq<real>>): (s: seq<real>)
    requires result.Some? ==> |result.value| == 9
    ensures s == ColumnMajor(HeadingPitchRollRows(m, hpr))
  {
    Emit(HeadingPitchRollRows(m, hpr), result)
  }

  /** The heading/pitch/roll matrix is `Rz(-heading) Ry(-pitch) Rx(roll)`:
      heading and pitch are negated, roll is not. */
  lemma HeadingPitchRollComposition(m: Math, hpr: HeadingPitchRoll)
    ensures HeadingPitchRollRows(m, hpr) ==
      MatMul(RotZ(m, -hpr.heading), MatMul(RotY(m, -hpr.pitch), RotX(m, hpr.roll)))
  {
    AngleProduct(m.cos(-hpr.pitch), m.sin(-hpr.pitch), m.cos(-hpr.heading), m.sin(-hpr.heading),
                 m.cos(hpr.roll), m.sin(hpr.roll));
  }

  /** The entry formulas are the product of the three axis rotations. */
  lemma AngleProduct(ct: real, st: real, cp: real, sp: real, cf: real, sf: real)
    ensures AngleRows(ct, st, cp, sp, cf, sf) ==
      MatMul(Mat3(Vec3(cp, -sp, 0.0), Vec3(sp, cp, 0.0), Vec3(0.0, 0.0, 1.0)),
             MatMul(Mat3(Vec3(ct, 0.0, st), Vec3(0.0, 1.0, 0.0), Vec3(-st, 0.0, ct)),
                    Mat3(Vec3(1.0, 0.0, 0.0), Vec3(0.0, cf, -sf), Vec3(0.0, sf, cf))))
  {
    PitchRollProduct(ct, st, cf, sf);
    HeadingProduct(ct, st, cp, sp, cf, sf);
  }

  /** `Ry(theta) Rx(phi)`. */
  lemma PitchRollProduct(ct: real, st: real, cf: real, sf: real)
    ensures MatMul(Mat3(Vec3(ct, 0.0, st), Vec3(0.0, 1.0, 0.0), Vec3(-st, 0.0, ct)),
                   Mat3(Vec3(1.0, 0.0, 0.0), Vec3(0.0, cf, -sf), Vec3(0.0, sf, cf))) ==
            Mat3(Vec3(ct, st * sf, st * cf), Vec3(0.0, cf, -sf), Vec3(-st, ct * sf, ct * cf))
  {
  }

  /** `Rz(psi)` times `Ry(theta) Rx(phi)`. */
  lemma HeadingProduct(ct: real, st: real, cp: real, sp: real, cf: real, sf: real)
    ensures AngleRows(ct, st, cp, sp, cf, sf) ==
      MatMul(Mat3(Vec3(cp, -sp, 0.0), Vec3(sp, cp, 0.0), Vec3(0.0, 0.0, 1.0)),
             Mat3(Vec3(ct, st * sf, st * cf), Vec3(0.0, cf, -sf), Vec3(-st, ct * sf, ct * cf)))
  {
  }

  /** With the laws of sine and cosine the heading/pitch/roll matrix is a
      rotation: its transpose undoes it. */
  lemma HeadingPitchRollOrthogonal(m: Math, hpr: HeadingPitchRoll)
    requires Lawful(m)
    ensures Orthogonal(HeadingPitchRollRows(m, hpr))
  {
    HeadingPitchRollComposition(m, hpr);
    RotationProductOrthogonal(m, -hpr.heading, -hpr.pitch, hpr.roll);
  }

  /** All three angles zero (`cos = 1`, `sin = 0`) give the identity. */
  lemma ZeroAnglesIdentity(m: Math, result: Option<seq<real>>)
    requires m.sin(0.0) == 0.0 && m.cos(0.0) == 1.0
    requires result.Some? ==> |result.value| == 9
    ensures HeadingPitchRollRows(m, HeadingPitchRoll(0.0, 0.0, 0.0)) == Identity
    ensures MatrixFromHeadingPitchRoll(m, HeadingPitchRoll(0.0, 0.0, 0.0), result) == ColumnMajor(Identity)
  {
    assert -0.0 == 0.0;
  }
}
