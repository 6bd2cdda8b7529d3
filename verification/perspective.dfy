/** The `Perspective` class of frontend/perspective.js and its leaner twin in
    frontend/perspective-gpu.js, without the WebGL and canvas plumbing: the
    constructor's argument checks and dimension reads, the edge-parameter
    setters of the Sobel variant, and what one `draw` computes and appends
    to the target canvas. */
module Perspective {
  import opened Wrappers
  import opened Scalar
  import Js
  import opened Linear
  import opened Homography

  /** The sizes the constructor reads: the target canvas and the source. */
  datatype Geometry = Geometry(dstW: Js.Value, dstH: Js.Value, srcW: Js.Value, srcH: Js.Value)

  /** `v.k1.k2`, failing on the first property read of `undefined` or `null`. */
  function Path(v: Js.Value, k1: string, k2: string): (r: Result<Js.Value>)
    ensures r.Failure? ==> r.error == TypeError
    ensures r.Success? <==> Js.Member(v, k1).Success? && Js.Member(Js.Member(v, k1).value, k2).Success?
  {
    match Js.Member(v, k1)
    case Failure(e) => Failure(e)
    case Success(inner) => Js.Member(inner, k2)
  }

  /** The start of both constructors: "invalid arguments" unless the context
      and the source are both truthy; the source size is `videoWidth ||
      width` and `videoHeight || height`; the target size is read from
      `ctx2d.canvas`, which throws when the context has no canvas. */
  function NewGeometry(ctx: Js.Value, source: Js.Value): (r: Result<Geometry>)
    ensures r == Failure(InvalidArguments) <==> !Js.Truthy(ctx) || !Js.Truthy(source)
    ensures Js.Truthy(ctx) && Js.Truthy(source) ==>
      (r.Failure? <==> Js.Member(ctx, "canvas").value.Undefined? || Js.Member(ctx, "canvas").value.Null?)
    ensures r.Failure? ==> r.error == InvalidArguments || r.error == TypeError
    ensures r.Success? && source.Obj? ==>
      r.value.srcW == Js.Or(Js.Field(source.fields, "videoWidth"), Js.Field(source.fields, "width")) &&
      r.value.srcH == Js.Or(Js.Field(source.fields, "videoHeight"), Js.Field(source.fields, "height"))
  {
    if !Js.Truthy(ctx) || !Js.Truthy(source) then
      Failure(InvalidArguments)
    else
      var imgW := Js.Or(Js.Member(source, "videoWidth").value, Js.Member(source, "width").value);
      var imgH := Js.Or(Js.Member(source, "videoHeight").value, Js.Member(source, "height").value);
      match Path(ctx, "canvas", "width")
      case Failure(e) => Failure(e)
      case Success(dstW) =>
        Success(Geometry(dstW, Path(ctx, "canvas", "height").value, imgW, imgH))
  }

  /** The Sobel variant's edge uniforms. */
  datatype EdgeParams = EdgeParams(color: seq<real>, threshold: real, thickness: real)

  /** The constructor's defaults: opaque white, threshold 0.1, thickness 0.2. */
  const DefaultEdge: EdgeParams := EdgeParams([1.0, 1.0, 1.0, 1.0], 0.1, 0.2)

  /** A constructed frontend/perspective.js instance. */
  datatype Warp = Warp(geometry: Geometry, sobel: bool, background: Js.Value, edge: EdgeParams)

  /** `new Perspective(ctx2d, source, options)` in frontend/perspective.js.
      The options object is destructured before the body runs, so `null`
      options throw before the argument check; a missing `filter` means
      `"sobel"` and a missing `background` means transparent black; a `null`
      background throws when its first entry is read for the clear colour. */
  function NewWarp(ctx: Js.Value, source: Js.Value, options: Js.Value): (r: Result<Warp>)
    ensures options.Null? ==> r == Failure(TypeError)
    ensures !options.Null? && (!Js.Truthy(ctx) || !Js.Truthy(source)) ==> r == Failure(InvalidArguments)
    ensures r.Success? ==> NewGeometry(ctx, source) == Success(r.value.geometry) && r.value.edge == DefaultEdge
    ensures r.Success? ==> (r.value.sobel <==> Filter(options) == Js.Str("sobel"))
    ensures r.Success? ==> !r.value.background.Undefined? && !r.value.background.Null?
  {
    if options.Null? then
      Failure(TypeError)
    else
      var background := Background(options);
      match NewGeometry(ctx, source)
      case Failure(e) => Failure(e)
      case Success(g) =>
        if background.Null? then Failure(TypeError)
        else Success(Warp(g, Filter(options) == Js.Str("sobel"), background, DefaultEdge))
  }

  /** The option with its default, `undefined` counting as missing. */
  function OptionOr(options: Js.Value, key: string, default: Js.Value): (v: Js.Value)
    ensures !v.Undefined? || default.Undefined?
  {
    var given := if options.Obj? then Js.Field(options.fields, key) else Js.Undefined;
    if given.Undefined? then default else given
  }

  function Filter(options: Js.Value): Js.Value {
    OptionOr(options, "filter", Js.Str("sobel"))
  }

  function Background(options: Js.Value): Js.Value {
    OptionOr(options, "background", Js.Arr([Js.Num(0.0), Js.Num(0.0), Js.Num(0.0), Js.Num(0.0)]))
  }

  /** `setEdgeColor(r, g, b, a = 1.0)`: stored as given, alpha defaulting to
      opaque; nothing else changes. */
  function SetEdgeColor(w: Warp, r: real, g: real, b: real, a: Option<real>): (w': Warp)
    ensures w'.edge.color == [r, g, b, if a.Some? then a.value else 1.0]
    ensures w'.edge.threshold == w.edge.threshold && w'.edge.thickness == w.edge.thickness
    ensures w'.geometry == w.geometry && w'.sobel == w.sobel && w'.background == w.background
  {
    var alpha := match a case Some(x) => x case None => 1.0;
    w.(edge := w.edge.(color := [r, g, b, alpha]))
  }

  /** `setEdgeThreshold(t)`: clamped into [0, 1]; a value already inside is
      kept; nothing else changes. */
  function SetEdgeThreshold(w: Warp, t: real): (w': Warp)
    ensures 0.0 <= w'.edge.threshold <= 1.0
    ensures 0.0 <= t <= 1.0 ==> w'.edge.threshold == t
    ensures t < 0.0 ==> w'.edge.threshold == 0.0
    ensures t > 1.0 ==> w'.edge.threshold == 1.0
    ensures w' == w.(edge := w.edge.(threshold := w'.edge.threshold))
  {
    w.(edge := w.edge.(threshold := Clamp01(t)))
  }

  /** `setEdgeThickness(t)`: the same clamp for the thickness. */
  function SetEdgeThickness(w: Warp, t: real): (w': Warp)
    ensures 0.0 <= w'.edge.thickness <= 1.0
    ensures 0.0 <= t <= 1.0 ==> w'.edge.thickness == t
    ensures t < 0.0 ==> w'.edge.thickness == 0.0
    ensures t > 1.0 ==> w'.edge.thickness == 1.0
    ensures w' == w.(edge := w.edge.(thickness := w'.edge.thickness))
  {
    w.(edge := w.edge.(thickness := Clamp01(t)))
  }

  /** Setting a clamped parameter twice is setting it once with the last
      value. */
  lemma SettersOverwrite(w: Warp, s: real, t: real)
    ensures SetEdgeThreshold(SetEdgeThreshold(w, s), t) == SetEdgeThreshold(w, t)
    ensures SetEdgeThickness(SetEdgeThickness(w, s), t) == SetEdgeThickness(w, t)
  {
  }

  // ----- draw -----

  /** The 2D-context calls `draw` makes on the target canvas. */
  datatype CanvasOp = Save | BeginPath | MoveTo(p: Point) | LineTo(p: Point) | ClosePath | Clip | DrawGlCanvas | Restore

  /** What one `draw` hands to the fragment shader: the inverse homography
      in the array `uniformMatrix3fv` receives, and in the Sobel variant
      the edge parameters. */
  datatype Frame = Frame(invH: seq<real>, edge: Option<EdgeParams>)

  /** Clip to the destination quadrilateral and composite the WebGL canvas
      through it. */
  function Composite(dst: seq<Point>): (ops: seq<CanvasOp>)
    requires |dst| >= 4
    ensures |ops| == 10 && ops[0] == Save && ops[|ops| - 1] == Restore
    ensures ops[2] == MoveTo(dst[0]) && forall i :: 1 <= i < 4 ==> ops[2 + i] == LineTo(dst[i])
  {
    [Save, BeginPath, MoveTo(dst[0]), LineTo(dst[1]), LineTo(dst[2]), LineTo(dst[3]), ClosePath, Clip, DrawGlCanvas, Restore]
  }

  /** The uniform array, read back column by column as the shader does, is
      a two-sided inverse of the homography computed for the corners. */
  ghost predicate InvertsHomography(uniform: seq<real>, src: seq<Point>, dst: seq<Point>)
    requires |src| == 4
  {
    |uniform| == 9 && ComputeHomography(src, dst).Success? &&
    MatMul(ComputeHomography(src, dst).value, FromColumnMajor(uniform)) == Identity &&
    MatMul(FromColumnMajor(uniform), ComputeHomography(src, dst).value) == Identity
  }

  /** `draw(points)` against the target canvas's call log: the source
      rectangle of the texture is paired with the first four points, the
      homography is computed and inverted, and only then is the canvas
      clipped and composited. A failure of either step leaves the canvas as
      it was. The uniform array, read back column by column as the shader
      does, is the inverse of the computed homography. */
  function Draw(g: Geometry, edge: Option<EdgeParams>, points: seq<Point>, canvas: seq<CanvasOp>)
    : (out: (Result<Frame>, seq<CanvasOp>))
    requires g.srcW.Num? && g.srcH.Num?
    ensures out.0.Failure? ==> out.1 == canvas
    ensures out.0.Failure? <==>
      ComputeHomography(SourceCorners(g.srcW.n, g.srcH.n), points).Failure? ||
      Invert3x3(ComputeHomography(SourceCorners(g.srcW.n, g.srcH.n), points).value).Failure?
    ensures out.0.Success? ==> |points| >= 4 && out.1 == canvas + Composite(points)
    ensures out.0.Success? ==> |out.0.value.invH| == 9 && out.0.value.edge == edge
    ensures out.0.Success? ==> InvertsHomography(out.0.value.invH, SourceCorners(g.srcW.n, g.srcH.n), points)
  {
    var src := SourceCorners(g.srcW.n, g.srcH.n);
    match ComputeHomography(src, points)
    case Failure(e) => (Failure(e), canvas)
    case Success(H) =>
      match Invert3x3(H)
      case Failure(e) => (Failure(e), canvas)
      case Success(invH) =>
        ColumnMajorRoundTrip(invH, ColumnMajor(invH));
        (Success(Frame(ColumnMajor(invH), edge)), canvas + Composite(points))
  }

  /** `draw` of frontend/perspective.js: the edge uniforms are set only for
      the Sobel filter. */
  function DrawWarp(w: Warp, points: seq<Point>, canvas: seq<CanvasOp>): (out: (Result<Frame>, seq<CanvasOp>))
    requires w.geometry.srcW.Num? && w.geometry.srcH.Num?
    ensures out.0.Success? ==> (out.0.value.edge.Some? <==> w.sobel)
    ensures out.0.Success? && w.sobel ==> out.0.value.edge == Some(w.edge)
    ensures out.0.Failure? ==> out.1 == canvas
  {
    Draw(w.geometry, if w.sobel then Some(w.edge) else None, points, canvas)
  }
}
