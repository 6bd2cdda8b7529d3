# Drone-video footprint core, modelled in Dafny

The system overlays the video from a surveillance drone on a 3-D globe. Every
video frame comes with a MISB ST 0601 (UAS Datalink Local Set) metadata
packet. The packet says where the sensor is, how the platform and the camera
are oriented, and how wide the field of view is. From it the viewer works out
where the four image corners hit the ground. It then warps the frame onto that
ground quadrilateral with a projective transform (a homography).

This project models the computational core of that pipeline as pure Dafny
functions, with the properties each part promises proved about them.

| module | file | what it models |
|---|---|---|
| `Klv` | klv.dfy | the KLV packet reader: BER length fields, 16-byte universal key, tag/length/value local sets (`misc.py`) |
| `Timeline` | metadata.dfy | the metadata timeline: loading, time-ordered push, nearest-timestamp lookup, tag renaming (`metadata.js`) |
| `Pairings` | pairings.dfy | the tag-number to field-name table the timeline renames with |
| `Gauss` | gauss.dfy | Gaussian elimination with partial pivoting behind the homography solve |
| `Homography` | homography.dfy | the four-point homography (DLT equations), the 3×3 inverse, projection and the fragment-shader sampling |
| `Perspective` | perspective.dfy | the `Perspective` warper object: construction, edge settings, `draw` |
| `Linear` | linalg.dfy | 3-vectors, 3×3 matrices, determinant, adjugate, and the column-major layout WebGL and Cesium use |
| `Wgs84` | wgs84.dfy | the ellipsoid geometry of `figureout.js`: geodetic↔ECEF, ENU frames, the ray–ellipsoid hit, the line of sight |
| `DecimalMath` | decimal_math.dfy | `toDecimal`, `HeadingPitchRoll`, `Matrix3`, quaternion and heading/pitch/roll rotation matrices, matrix-times-vector (`misc.js`) |
| `Footprint` | footprint.dfy | the `Footprint` class: settings, corner rays, double-buffered canvas swap, fitting the ground corners into the canvas |
| `InverseBilinear` | bilinear.dfy | the Newton inverse of a bilinear patch and the re-entrancy guard around the polygon update |
| `Permalink` | permalink.dfy | the `#camera=` URL hash: parse, build, and restore the camera |
| `Scalar`, `Js`, `Elementary`, `Wrappers` | scalar.dfy, jsvalue.dfy, elementary.dfy, wrappers.dfy | shared helpers: clamping, JavaScript values and truthiness, the trigonometric and square-root functions as parameters, `Option` and `Result` |

Real numbers stand in for IEEE doubles and for Decimal.js values. The browser
math functions (`Math.sin`, `Math.cos`, `Math.sqrt`, `Math.atan2`, `Math.tan`)
are the fields of an `Elementary.Math` record passed in as a parameter.
`Elementary.Lawful` states the identities the proofs rely on, such as
sin² + cos² = 1 and √x·√x = x. The platform calls (Cesium's globe pick,
WebGL, canvas drawing, `fetch`, the DOM) are either parameters or left out,
as listed below.

## Model

| member | source | states |
|---|---|---|
| Klv.DecodeLength | misc.py:147-157 | a decoded BER length ends strictly after the length byte and never runs past the buffer |
| Klv.EncodeLength | misc.py:147-157 | the short form is one byte below 0x80; the long form is 0x80+width followed by a minimal big-endian field |
| Klv.EncodeLengthIsField | misc.py:147-157 | every encoded length is a well-formed length field for its value (its decoding partner) |
| Klv.FieldAt | misc.py:147-157 | decoding a length field found at any position gives back its value and the position just after it |
| Klv.EmptyLongForm | misc.py:150-155 | a bare 0x80 long-form byte decodes as length 0 and consumes one byte |
| Klv.LocalSetRoundTrip | misc.py:166-176 | reading encoded tag/length/value entries gives the overlay of those entries on the starting map |
| Klv.LaterTagWins | misc.py:175 | when a tag repeats inside one set, the later value replaces the earlier one |
| Klv.TripletAt | misc.py:141-164 | a triplet found at a cursor has its value after the key and length, inside the buffer |
| Klv.Parse | misc.py:132-180 | each parsed packet consumes at least 17 bytes, so there are at most len/17 packets |
| Klv.EncodeThenParse | misc.py:132-180 | parsing a concatenation of well-formed packets gives one local set per packet, each the decoding of its value |
| Klv.ShortTailIgnored | misc.py:141 | fewer than 18 bytes left after the cursor yields no further packet |
| Klv.EmptyFinalTripletDropped | misc.py:141 | a final packet with an empty value is only 17 bytes long, so the 18-byte loop threshold drops it |
| Klv.UnvalidatedKeyGivesEmptySet | misc.py:142-146 | the key is not checked, and a one-byte value too short for a tag/length pair gives an empty set |
| Klv.OverrunningLengthStops | misc.py:150-155 | a long-form length whose digits run past the buffer ends parsing |
| Klv.OverrunningValueStops | misc.py:159-164 | a value longer than the bytes left ends parsing |
| Klv.ReadLocalSet | misc.py:166-176 | the loop computes the local-set map, and every stored value is shorter than 256 bytes |
| Klv.ReadTriplet | misc.py:141-164 | the imperative triplet reader agrees with the functional `TripletAt` |
| Klv.ParseLocalSets | misc.py:132-180 | the imperative parser agrees with `Parse`, and the packet count is at most len/17 |
| Timeline.Stamp | metadata.js:174 | a record has a timestamp exactly when its `#ts` field is a number, and the stamp is that number |
| Timeline.Push | metadata.js:196-208 | non-numeric stamps and stamps not after the last one leave the timeline unchanged; otherwise the pair is appended; strict increase is preserved |
| Timeline.PushAllKeepsIncreasing | metadata.js:196-208 | any sequence of pushes keeps the stamps strictly increasing, and only pushed records appear |
| Timeline.NearestIndex | metadata.js:216-248 | the binary search returns an index whose stamp is nearest the query; an exact stamp is found; ties go to the earlier index; queries outside the range clamp to an end |
| Timeline.Get | metadata.js:216-248 | no frame only for an empty timeline; otherwise a frame at a nearest stamp, and the exact frame when the stamp is present |
| Timeline.Kept | metadata.js:169-181 | exactly the parsed lines with a numeric `#ts` are kept, each as many times as it occurs among the lines |
| Timeline.KeptAppend | metadata.js:169-181 | the kept records are in line order: a further line adds its record at the end exactly when it parses with a numeric `#ts` |
| Timeline.Insert | metadata.js:184-187 | inserting into a stamp-sorted list keeps it sorted and adds exactly the new entry |
| Timeline.SortEntries | metadata.js:184-187 | the sort yields a stamp-sorted permutation of its input |
| Timeline.Combine | metadata.js:184 | each record is paired with its own stamp |
| Timeline.Split | metadata.js:186-187 | the sorted pairs are split back into aligned stamp and frame lists |
| Timeline.Load | metadata.js:166-187 | the loaded timeline is valid and sorted, and holds exactly the kept records, as a multiset |
| Timeline.LoadFacts | metadata.js:184-187 | splitting any sorted permutation of the paired records gives a valid timeline with the same frames |
| Timeline.PairsStayTogether | metadata.js:184-187 | after sorting, every frame still sits next to its own stamp |
| Timeline.Rename | metadata.js:255-260 | a name appears in the renamed frame exactly when some table entry maps a key the frame has to it |
| Timeline.RenameLastWins | metadata.js:255-260 | when two tags share a name, the value of the later tag in iteration order is kept |
| Timeline.GetLds | metadata.js:250-263 | nothing for an empty timeline; otherwise the last frame renamed through the tag table |
| Gauss.Augment | frontend/perspective.js:204-206 | the augmented matrix is A with b appended as the last column |
| Gauss.Pivot | frontend/perspective.js:208-210 | the pivot row has the largest magnitude in the column, and the first such row wins ties |
| Gauss.Swap | frontend/perspective.js:211 | exactly rows i and p are exchanged |
| Gauss.NormalizeRow | frontend/perspective.js:213-214 | entries from the pivot column on are divided by the pivot, and earlier entries are kept |
| Gauss.EliminateRow | frontend/perspective.js:215-219 | entries from the pivot column on have the pivot row's multiple subtracted |
| Gauss.Step | frontend/perspective.js:207-220 | a step fails with a singular-matrix error exactly when every candidate pivot is below eps; otherwise it reduces one more column without changing the solution set |
| Gauss.SolveFrom | frontend/perspective.js:207-220 | the elimination either fails as singular or yields a fully reduced equivalent system |
| Gauss.SolveLinear | frontend/perspective.js:203-222 | on success, a vector solves Ax = b if and only if it is the returned vector; failure is only ever a singular matrix |
| Gauss.EliminateEquivalent | frontend/perspective.js:215-219 | eliminating the pivot column from the other rows keeps the solution set |
| Gauss.NormalizeEquivalent | frontend/perspective.js:213-214 | normalising the pivot row keeps the solution set and puts 1 on the diagonal |
| Gauss.SwapEquivalent | frontend/perspective.js:211 | a row swap keeps the solution set and the reduced columns |
| Gauss.ReducedSolutions | frontend/perspective.js:221 | a fully reduced system is solved by exactly its last column |
| Gauss.AugmentHolds | frontend/perspective.js:204-206 | a vector satisfies the augmented rows if and only if it solves Ax = b |
| Homography.Invert3x3 | frontend/perspective.js:224-238 | fails as singular exactly when the determinant is below 1e-12 in magnitude; otherwise the result is a two-sided inverse |
| Homography.DltMatrix | frontend/perspective.js:185-194 | rows 2k and 2k+1 are the x and y equations of correspondence k |
| Homography.DltVector | frontend/perspective.js:185-194 | the right-hand side lists the destination x and y of each corner |
| Homography.DltEquations | frontend/perspective.js:185-194 | a homography with h22 = 1 solves the 8×8 system if and only if it maps every source corner to its destination |
| Homography.UnknownsDetermine | frontend/perspective.js:196-200 | the eight unknowns plus h22 = 1 rebuild the matrix they were read from |
| Homography.ComputeHomography | frontend/perspective.js:185-201 | fewer than four destination points is a type error; a singular system fails as singular; otherwise h22 = 1 and all four corners map to their destinations |
| Homography.ComputeHomographyUnique | frontend/perspective.js:185-201 | any homography with h22 = 1 that maps the four corners is the computed one |
| Homography.Project | frontend/perspective.js:276-277 | projection is undefined exactly when w = 0, and otherwise divides x and y by w |
| Homography.CornersReachDestinations | frontend/perspective.js:185-201 | projecting a source corner through the computed homography lands on its destination point |
| Homography.SourceCorners | frontend/perspective.js:82-87 | the source quad is the image rectangle from (0, 0) to (w, h), listed clockwise |
| Homography.ShaderSample | frontend/perspective.js:270-282 | a fragment samples the texture coordinate obtained by back-projecting its flipped pixel, and is discarded exactly when that falls outside the unit square |
| Homography.ShaderInvertsWarp | frontend/perspective.js:270-282 | a pixel that the forward homography puts at an image point samples exactly that point's texture coordinate |
| Perspective.NewGeometry | frontend/perspective.js:6-17 | a falsy context or source is an invalid-arguments error; a context without a canvas is a type error; the source size falls back from video size to image size |
| Perspective.NewWarp | frontend/perspective.js:6-19 | a null options object is a type error; the Sobel filter is on exactly when the filter option is "sobel"; edge settings start at their defaults |
| Perspective.SetEdgeColor | frontend/perspective.js:140-142 | the edge colour becomes (r, g, b, a), with alpha 1 by default, and nothing else changes |
| Perspective.SetEdgeThreshold | frontend/perspective.js:143-145 | the threshold is clamped to [0, 1]: kept when inside, 0 below and 1 above; nothing else changes |
| Perspective.SetEdgeThickness | frontend/perspective.js:146-148 | the thickness is clamped to [0, 1]: kept when inside, 0 below and 1 above; nothing else changes |
| Perspective.SettersOverwrite | frontend/perspective.js:143-148 | a second threshold or thickness setting replaces the first |
| Perspective.Composite | frontend/perspective.js:128-136 | the canvas operations save, trace the destination quad from its first point through the other three, clip, draw and restore |
| Perspective.Draw | frontend/perspective.js:79-134 | fails, leaving the canvas untouched, exactly when the homography or its inverse fails; otherwise the uniform is the inverse of the homography that maps the image rectangle to the points |
| Perspective.DrawWarp | frontend/perspective.js:113-123 | edge uniforms are set exactly when the Sobel filter is on, and they are the warper's edge settings |
| Linear.MatMulAssociative | backend/figureout.js:38-42 | matrix multiplication is associative |
| Linear.TransposeInvolution | backend/figureout.js:50 | transposing twice gives back the matrix |
| Linear.AdjugateRight | frontend/perspective.js:224-238 | the matrix times its adjugate is det · I |
| Linear.AdjugateLeft | frontend/perspective.js:224-238 | the adjugate times the matrix is det · I |
| Linear.ColumnMajor | frontend/perspective.js:240-246 | element 3c + r of the flattened array is the entry in row r, column c |
| Linear.FromColumnMajor | frontend/misc.js:67-87 | reading a nine-element column-major array puts element 3c + r in row r, column c |
| Linear.ColumnMajorRoundTrip | frontend/misc.js:67-87 | flattening to column-major order and reading back are inverse |
| Linear.ColumnMajorIsTransposedRows | frontend/perspective.js:240-246 | the column-major layout is the row-major layout of the transpose |
| Wgs84.DerivedConstants | backend/figureout.js:2-5 | the derived constants satisfy b² = a²(1 − e²), with 0 < e² < 1 and 0 < b < a |
| Wgs84.RotX | backend/figureout.js:34 | rotation about x leaves the x component unchanged |
| Wgs84.RotY | backend/figureout.js:35 | rotation about y leaves the y component unchanged |
| Wgs84.RotZ | backend/figureout.js:36 | rotation about z leaves the z component unchanged |
| Wgs84.RotationsOrthogonal | backend/figureout.js:34-36 | the three elementary rotations are orthogonal matrices |
| Wgs84.RotationsAtZero | backend/figureout.js:34-36 | each elementary rotation by zero is the identity |
| Wgs84.MatMulLoop | backend/figureout.js:38-42 | the triple loop computes every entry of the matrix product |
| Wgs84.TransposeRows | backend/figureout.js:50 | transposing a rectangular array of rows swaps indices, and an empty array is a type error |
| Wgs84.TransposeRowsInvolution | backend/figureout.js:50 | transposing a non-empty rectangular array twice gives it back |
| Wgs84.TransposeRowsEmptyRows | backend/figureout.js:50 | rows of length zero transpose to an empty array, which then fails to transpose back |
| Wgs84.PrimeVerticalRadius | backend/figureout.js:12 | the prime-vertical radius is positive and satisfies N² (1 − e² sin² φ) = a² |
| Wgs84.GeodeticToEcefAxes | backend/figureout.js:10-18 | the ECEF z is (N(1 − e²) + h) sin φ, and the horizontal distance is (N + h) cos φ |
| Wgs84.SurfacePointOnEllipsoid | backend/figureout.js:10-18 | a height-zero geodetic point converts to a point on the WGS84 ellipsoid |
| Wgs84.Refine | backend/figureout.js:24-29 | a refinement pass is undefined exactly when cos φ or p is zero |
| Wgs84.RefineHeight | backend/figureout.js:26 | the refined height satisfies (N + h) cos φ = p |
| Wgs84.RefineRecoversHeight | backend/figureout.js:10-29 | refining at the true latitude recovers the height the forward conversion used |
| Wgs84.Iterate | backend/figureout.js:24-29 | the trace chains the refinement passes, and the height is the one from the last pass |
| Wgs84.EcefToGeodetic | backend/figureout.js:20-31 | the result is ten refinement passes starting from atan2(z, p(1 − e²)), with the longitude atan2(y, x); there is a result exactly when every pass is defined |
| Wgs84.RayMeetsEllipsoid | backend/figureout.js:64-69 | a point along the ray lies on the ellipsoid if and only if its parameter is a root of the ray quadratic |
| Wgs84.RayHit | backend/figureout.js:70-72 | there is no hit exactly when the discriminant is negative or the direction is zero |
| Wgs84.RayHitIsSmallerRoot | backend/figureout.js:72 | a hit is on the ellipsoid and is the smallest root of the ray quadratic; that root can be negative, so the point may lie behind the sensor |
| Wgs84.RayMissIsReal | backend/figureout.js:70-71 | a negative discriminant means no point of the ray lies on the ellipsoid |
| Wgs84.IntersectEllipsoid | backend/figureout.js:64-75 | a miss gives nothing; a hit gives the geodetic conversion of the point at the smaller root t = (−B − √disc)/(2A), which lies behind the sensor when both roots are negative |
| Wgs84.EnuOrthogonal | backend/figureout.js:54-61 | the ENU row matrix and its transpose are orthogonal |
| Wgs84.EnuToEcefAxes | backend/figureout.js:54-61 | the transposed matrix sends east, north and up to the local directions, and up is the outward ellipsoid normal |
| Wgs84.EnuRowsMisplaceUp | backend/figureout.js:54-61 | the matrix as written sends the up vector to (0, cos φ, sin φ), which is not the local up direction |
| Wgs84.EnuRowsAtOrigin | backend/figureout.js:54-61 | at latitude 0 and longitude 0, the matrix as written sends up to (0, 1, 0), but the local up is (1, 0, 0) |
| Wgs84.SensorFrameUnit | backend/figureout.js:79-81 | the sensor-frame line of sight from azimuth and elevation has unit length |
| Wgs84.PlatformRotationOrthogonal | backend/figureout.js:83-89 | the platform rotation Rz(heading)·Ry(pitch)·Rx(platform roll) is orthogonal; the sensor roll is a separate rotation |
| Wgs84.RotationProductOrthogonal | backend/figureout.js:86-89 | the heading·pitch·roll product is orthogonal |
| Wgs84.OrthogonalPreservesLength | backend/figureout.js:90-91 | an orthogonal matrix preserves vector length |
| Wgs84.NormalizeScales | backend/figureout.js:92-93 | normalising fails exactly for the zero vector; otherwise it returns the vector divided by its norm, and that result has unit length |
| Wgs84.LocalLineOfSightUnit | backend/figureout.js:80-89 | the sensor direction turned by the sensor roll and the platform attitude is still a unit vector in the local frame |
| Wgs84.LosAsWrittenUnit | backend/figureout.js:78-94 | the line of sight as the source computes it, through the matrix of ENU rows, is a unit vector, and normalising it changes nothing |
| Wgs84.LineOfSightUnit | backend/figureout.js:78-94 | the line of sight through the corrected ENU-to-ECEF matrix is a unit vector, and normalising it changes nothing |
| Wgs84.UnitNormal | backend/figureout.js:92-93 | normalising a unit vector returns it unchanged |
| DecimalMath.ToDecimal | frontend/misc.js:51-53 | Decimals pass through; numbers convert exactly; null, undefined and unparsable strings are errors |
| DecimalMath.ToDecimalIdempotent | frontend/misc.js:51-53 | converting an already-converted value changes nothing |
| DecimalMath.NewHeadingPitchRoll | frontend/misc.js:58-62 | construction succeeds exactly when all three angles convert, and the first error wins |
| DecimalMath.ToRadians | frontend/misc.js:139-143 | converts exactly the convertible inputs, and converting back to degrees gives the input |
| DecimalMath.NewMatrix3 | frontend/misc.js:67-87 | the nine row-major arguments are stored in column-major order |
| DecimalMath.MultiplyByVector | frontend/misc.js:182-203 | an array shorter than nine entries is a type error; otherwise the result is the stored matrix times the vector |
| DecimalMath.StoredProduct | frontend/misc.js:182-203 | multiplying through the column-major storage equals the matrix–vector product |
| DecimalMath.MatrixFromQuaternion | frontend/misc.js:92-132 | the result holds the quaternion's rotation matrix in column-major order |
| DecimalMath.IdentityQuaternion | frontend/misc.js:92-132 | the unit quaternion (0, 0, 0, 1) gives the identity |
| DecimalMath.ConjugateTransposes | frontend/misc.js:111-121 | the conjugate quaternion gives the transposed matrix |
| DecimalMath.NegatedQuaternion | frontend/misc.js:98-121 | q and −q give the same matrix |
| DecimalMath.MatrixFromHeadingPitchRoll | frontend/misc.js:145-177 | the result holds the heading/pitch/roll matrix in column-major order |
| DecimalMath.HeadingPitchRollComposition | frontend/misc.js:145-177 | the heading/pitch/roll matrix is Rz(−heading)·Ry(−pitch)·Rx(roll) |
| DecimalMath.HeadingPitchRollOrthogonal | frontend/misc.js:145-177 | the heading/pitch/roll matrix is orthogonal |
| DecimalMath.ZeroAnglesIdentity | frontend/misc.js:145-177 | zero heading, pitch and roll give the identity |
| Footprint.Apply | frontend/footprint.js:43-72 | setters keep the settings valid; each setter stores its value in its own field (flags their truthiness, opacities their clamp into [0, 1], the other fields the value as given) and every other field is kept; a colour that is not a three-element array is ignored |
| Footprint.OpacityClamped | frontend/footprint.js:55-64 | every opacity setter stores a value in [0, 1]: the argument when in range, 0 below it and 1 above it |
| Footprint.FlagsStoreTruthiness | frontend/footprint.js:43-52 | every flag setter stores the truthiness of its argument |
| Footprint.ApplyIdempotent | frontend/footprint.js:43-72 | applying the same setting twice is the same as applying it once |
| Footprint.SettersKeepValid | frontend/footprint.js:43-72 | any sequence of setters keeps valid settings valid |
| Footprint.CornersLocal | frontend/footprint.js:336-341 | there are four corner directions with forward component 1: top-left is (1, tan(hFov/2), tan(vFov/2)); the right corners share tan(−hFov/2) and the bottom corners tan(−vFov/2); top-left and bottom-left share their horizontal and top-left and top-right their vertical component |
| Footprint.CornerRectangle | frontend/footprint.js:336-341 | top-left is (1, tan(hFov/2), tan(vFov/2)), and when tan is odd the others are its mirror images: top-right (−h, +v), bottom-right (−h, −v), bottom-left (+h, −v) |
| Footprint.FlipInvolution | frontend/footprint.js:293-294 | swapping the active canvas twice gives it back |
| Footprint.Snapshot | frontend/footprint.js:270-284 | corners are snapshotted exactly when four intersections exist; otherwise the snapshot is cleared and the old sensor and platform positions are kept |
| Footprint.WarpImage | frontend/footprint.js:410-433 | the warp draws only when the video is ready and corners exist, onto the active canvas with four points |
| Footprint.UpdateWarpedView | frontend/footprint.js:293-297 | the active canvas flips, and the warp draws on the new active canvas |
| Footprint.TriggerWarpUpdate | frontend/footprint.js:262-291 | without metadata nothing happens; otherwise the canvas flips and any drawing goes to the new active canvas |
| Footprint.TwoUpdatesRestoreCanvas | frontend/footprint.js:262-297 | two updates with metadata bring back the original active canvas |
| Footprint.BoundingBox | frontend/footprint.js:413-419 | the box contains every corner, and each bound is attained by some corner |
| Footprint.Width | frontend/footprint.js:420 | the width is the longitude span, or 1e-9 when the span is smaller |
| Footprint.Height | frontend/footprint.js:421 | the height is the latitude span, or 1e-9 when the span is smaller |
| Footprint.DstRaw | frontend/footprint.js:422-425 | one canvas point per corner, each fitted into the corners' bounding box |
| Footprint.DstInsideCanvas | frontend/footprint.js:413-425 | every fitted point lies inside the canvas |
| Footprint.DstKeepsOrder | frontend/footprint.js:422-425 | fitting preserves east–west order and reverses north–south order, because canvas y grows downward |
| Footprint.DstTouchesEdges | frontend/footprint.js:413-425 | the fitted points touch the left and top edges, and touch the right and bottom edges when the span is at least 1e-9 |
| Footprint.FitEdges | frontend/footprint.js:422-425 | the westmost point maps to x = 0 and the northmost to y = 0; the extreme opposite points map to the full width and height |
| InverseBilinear.EvalCorners | frontend/distorted-messy.js:86-89 | the bilinear patch passes through its four corners |
| InverseBilinear.Normalized | frontend/distorted-messy.js:78-81 | the clamped initial coordinate lies in [0, 1], and is the exact fraction of the span when the span is at least 1e-12 |
| InverseBilinear.InitialGuess | frontend/distorted-messy.js:72-81 | the initial guess lies in the unit square |
| InverseBilinear.Delta | frontend/distorted-messy.js:108-109 | the update solves the Newton system J·δ = −f |
| InverseBilinear.Step | frontend/distorted-messy.js:84-120 | the loop stops, keeping (u, v), on a residual below 1e-10 or a Jacobian determinant below 1e-14; otherwise a Newton step exists, and for every δ solving J·δ = −f the pass continues at (u, v) + δ when that lies in [−0.5, 1.5]², and otherwise stops at its clamp into [0, 1]² |
| InverseBilinear.NewtonUnique | frontend/distorted-messy.js:107-109 | with a non-zero determinant, the explicit 2×2 inverse gives the only solution of J·δ = −f |
| InverseBilinear.CramerUnique | frontend/distorted-messy.js:107-109 | any solution of the 2×2 system equals Cramer's quotients |
| InverseBilinear.Solve | frontend/distorted-messy.js:69-124 | the result always lies in the unit square |
| InverseBilinear.InverseBilinearLoop | frontend/distorted-messy.js:69-124 | the loop computes `Solve` in at most ten iterations |
| InverseBilinear.SolveInvertsRectangle | frontend/distorted-messy.js:69-124 | on an axis-aligned rectangle, the inverse recovers the (u, v) of any point of the patch |
| InverseBilinear.SolveInvertsParallelogram | frontend/distorted-messy.js:69-124 | on a parallelogram with determinant at least 1e-14, the inverse of a patch point B(u, v) is either (u, v) itself, reached by one Newton step from the bounding-box guess, or a point whose residual is already below 1e-10 |
| InverseBilinear.NewtonLandsOnTarget | frontend/distorted-messy.js:84-120 | on a parallelogram, a pass from any point whose residual is at least 1e-10 continues exactly at the (u, v) of the target |
| InverseBilinear.EvalParallelogram | frontend/distorted-messy.js:86-89 | on a parallelogram the bilinear patch is the affine map o + u·e + v·n |
| InverseBilinear.RectangleGuess | frontend/distorted-messy.js:72-81 | on a rectangle, the initial guess is already exact |
| InverseBilinear.Request | frontend/distorted-messy.js:127-134 | a call while an update is running only marks one as pending; otherwise it starts an update |
| InverseBilinear.Complete | frontend/distorted-messy.js:258-264 | finishing an update starts the pending one if there is one, and otherwise goes idle |
| InverseBilinear.GuardStaysOk | frontend/distorted-messy.js:127-264 | a pending update is only ever recorded while one is running |
| InverseBilinear.CallsCoalesce | frontend/distorted-messy.js:127-264 | any number of calls during one update leads to exactly one follow-up update |
| Permalink.OrZero | permalink.js:31-33 | `Number(x) \|\| 0` keeps a real number and turns NaN into 0 |
| Permalink.RoundNumber | permalink.js:63 | NaN stays NaN; a real rounds half up to the nearest integer |
| Permalink.Split | permalink.js:46 | the parts number one more than the separators, and no part holds a separator |
| Permalink.JoinSplit | permalink.js:46 | joining the split parts with the separator gives back the string |
| Permalink.SplitJoin | permalink.js:46 | splitting a join of separator-free parts gives back the parts |
| Permalink.TrimStart | permalink.js:46 | the result is a suffix; everything dropped is white space; it starts with non-space |
| Permalink.TrimEnd | permalink.js:46 | the result is a prefix; everything dropped is white space; it ends with non-space |
| Permalink.TrimFixesTrimmed | permalink.js:46 | a trimmed string has no outer white space, and trimming leaves a string unchanged exactly when it has none |
| Permalink.IndexOf | permalink.js:43 | finds the first occurrence of a character, or reports its absence |
| Permalink.PlusToSpace | permalink.js:43 | each '+' becomes a space, and other characters are kept |
| Permalink.Get | permalink.js:44 | the value of the first pair with that name, or nothing when no pair has it |
| Permalink.StripHash | permalink.js:42 | exactly one leading '#' is removed |
| Permalink.CameraParts | permalink.js:46 | one trimmed part per comma-separated field |
| Permalink.ParseHash | permalink.js:40-56 | a state exactly when a non-empty camera parameter has at least three fields; lon, lat and height are the parsed fields; heading, pitch and roll are the parsed fourth, fifth and sixth fields when present and 0 when missing |
| Permalink.ParseHashStripsOne | permalink.js:42 | a leading '#' makes no difference |
| Permalink.BuildHash | permalink.js:59-69 | the hash starts with "#camera=", and the rest holds at least five commas, one between each pair of the six fields |
| Permalink.BuildHashFields | permalink.js:59-69 | when the formatted fields are clean, the body splits back into exactly those six fields |
| Permalink.ParseBuild | permalink.js:40-69 | parsing a built hash gives the parse of each of its six formatted fields |
| Permalink.SetCameraState | permalink.js:19-37 | no view for a missing state or a NaN lon, lat or height; otherwise the view holds exactly those values in radians, with NaN angles as 0 |
| Permalink.RestoreBuiltHash | permalink.js:19-69 | building a hash, parsing it and setting the camera gives a view at the formatted longitude, latitude and height |
| Scalar.Clamp01 | frontend/footprint.js:55 | the result lies in [0, 1]; values inside are kept; values outside go to the nearer bound |
| Scalar.Clamp01Idempotent | frontend/footprint.js:55 | clamping twice is clamping once |
| Js.Member | frontend/perspective.js:14 | reading a property of null or undefined is a type error; an object gives its field or undefined |
| Js.Or | frontend/perspective.js:9-10 | `a \|\| b` is a when a is truthy, and b otherwise |
| Elementary.ToDegToRad | backend/figureout.js:7-8 | converting degrees to radians and back gives the same angle |

## Left out

- IEEE-754 behaviour: reals stand in for doubles and for Decimal.js's 20-digit decimals, so rounding, overflow, infinities and NaN are not modelled. The exception is the permalink `Number`, where NaN decides the control flow.
- Math functions: `Math.sin`, `cos`, `tan`, `atan2`, `sqrt` and `hypot`, and `Decimal.tan`, are parameters bound only by the identities in `Elementary.Lawful`. π is the double literal 3.141592653589793 (`Math.PI`) in `Elementary.ToRad`, `Elementary.ToDeg` and `DecimalMath.RadiansPerDegree`.
- Cesium and the browser are not modelled: the globe pick, `rayEllipsoid`, `Cartographic.fromCartesian`, `Transforms.headingPitchRollQuaternion`, entities, WebGL programs and textures, `fetch` and the DOM. Where the model needs their results, they are inputs: the corner intersections, the sensor position, the readiness of the video.
- The Sobel edge shader and GPU blending are left out. The model covers the uniforms handed to the shader and the plain sampling shader.
- `perspective-gpu.js` duplicates `perspective.js` line for line in the parts modelled here, so only `perspective.js` is cited.
- `backend/misc.py` repeats the reader of `misc.py` (lines 3-51 there); only `misc.py` is cited.
- The bounds check at `misc.py:145-146` can never fire, because the loop condition already guarantees two bytes after the key. The model leaves it out. The 16 key bytes are never validated, as `Klv.UnvalidatedKeyGivesEmptySet` shows.
- Timeline.Load: JSON parsing is a parameter, giving an `Option` per line. The contract states a sorted permutation; it does not fix the order of records with equal stamps.
- Timeline.Get: the binary search works on any sorted list. For unsorted lists only membership of the result is stated.
- `Footprint`: the offset polygon, the model entity, the rays and the sensor-relative platform position are display-only and are left out.
- Footprint: the constructor's DOM and canvas setup is left out.
- Footprint.SettersKeepValid: `Valid` is proved from `Defaults` onward only. The constructor copies the option values into the fields without the setters' clamping or colour check (`footprint.js:98-107`), so an object built with, say, an opacity of 2 need not be valid.
- Footprint: `#computeCornerIntersections` assigns to a `const` array on a missed ray (`footprint.js:387`), which throws at run time. The model takes the intersections as an input and does not model that exception.
- `Math.min()` of an empty list is Infinity in JavaScript. `Footprint.BoundingBox` is only defined for a non-empty corner list, which is all the source ever passes.
- Footprint.CornerRectangle: states the corner layout only when `tan` is odd. The tangent is an abstract parameter.
- DecimalMath.ToDecimal: arrays and objects are treated as not convertible. Decimal.js's parsing of numeric strings is the parameter `parse`. The `?? '0'` fallback is unreachable and not modelled.
- DecimalMath.NegatedQuaternion and its relatives are stated for any quaternion. Orthogonality of the quaternion matrix for unit quaternions is not proved.
- Wgs84.RefineRecoversHeight: recovers the height only; latitude convergence of the fixed-point iteration is not proved.
- Wgs84.EcefToGeodetic: a pass with cos φ = 0 or p = 0 ends in no result rather than in Infinity or NaN.
- `losFromSensorAzEl` reads its angles from a metadata object. The model takes the angles as arguments.
- InverseBilinear.Solve: its own contract states only that the result lies in the unit square. Exact inversion is proved for parallelograms (`SolveInvertsParallelogram`, one Newton step) and axis-aligned rectangles (`SolveInvertsRectangle`). For general quadrilaterals, `Step` states each pass exactly, but convergence of the iteration is not proved.
- `updatePolygon`'s terrain sampling, geometry tessellation and the `isFinite` fallback are left out. The guard around them is modelled.
- Permalink: `URLSearchParams` percent-decoding is not modelled; only '+' becomes a space.
- Permalink: `.replace(/&/g, '&')` replaces '&' with itself and is the identity.
- Permalink: `parseFloat`, `toFixed` and `String` are the abstract `NumberText` parameters.
- Permalink: `undefined` fields fold into NaN.
- Permalink: `getCameraState`, `replaceHash`, the debounce and `Cartesian3.fromRadians` are left out.
- Permalink.IsSpace covers the common white-space characters, not every Unicode space separator that `String.prototype.trim` removes.

## Findings

| source | as written | input that shows it | evidently intended | confidence | as-written member | corrected member |
|---|---|---|---|---|---|---|
| backend/figureout.js:54-61 | `enuToEcefMatrix` returns the east, north and up vectors as ROWS, and `losFromSensorAzEl` multiplies an ENU vector by that matrix (lines 90-91), which maps ECEF to ENU rather than ENU to ECEF | latitude 0, longitude 0: local up should be ECEF (1, 0, 0), but the matrix sends ENU up (0, 0, 1) to (0, 1, 0) | use the transpose, whose columns are east, north and up | not executed | Wgs84.EnuRowsAtOrigin, Wgs84.LosAsWrittenUnit | Wgs84.EnuToEcefAxes, Wgs84.LineOfSightUnit |
