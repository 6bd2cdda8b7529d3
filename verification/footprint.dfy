/** The pure logic of the `Footprint` class in frontend/footprint.js: the
    public setters, the corner template of the camera footprint, the
    "exactly four corners" snapshot gate, the a/b canvas toggle and the
    bounding-box normalisation of corner longitudes and latitudes into
    canvas pixels. Cesium, the DOM and the drawing itself are outside. */
module Footprint {
  import opened Wrappers
  import opened Js
  import opened Scalar
  import opened Linear

  // ---------------------------------------------------------------------------
  // Public properties and their setters
  // ---------------------------------------------------------------------------

  /** The reactive properties behind the public getters. Flags and the
      values the setters store unchecked are JavaScript values; the
      opacities are numbers. */
  datatype Settings = Settings(
    showModel: Value,
    showRays: Value,
    showOffsetPolygon: Value,
    showVideoOverlay: Value,
    videoOverlayOpacity: real,
    modelMinimumPixelSize: Value,
    modelOpacity: real,
    offsetPolygonOpacity: real,
    offsetPolygonColor: Value,
    sensorRelativePosition: Value)

  /** The constructor's defaults when no options are given. */
  const Defaults: Settings := Settings(
    Bool(true), Bool(true), Bool(true), Bool(true),
    1.0, Num(250.0), 1.0, 0.2,
    Arr([Num(255.0), Num(0.0), Num(0.0)]),
    Arr([Num(0.0), Num(0.0), Num(0.0)]))

  /** One assignment through a public setter. */
  datatype Setter =
    | SetShowModel(v: Value)
    | SetShowRays(v: Value)
    | SetShowOffsetPolygon(v: Value)
    | SetShowVideoOverlay(v: Value)
    | SetVideoOverlayOpacity(t: real)
    | SetModelMinimumPixelSize(v: Value)
    | SetModelOpacity(t: real)
    | SetOffsetPolygonOpacity(t: real)
    | SetOffsetPolygonColor(v: Value)
    | SetSensorRelativePosition(v: Value)

  /** An RGB triple: an array of exactly three entries. */
  predicate IsColor(v: Value) {
    v.Arr? && |v.items| == 3
  }

  /** What the setters keep true: the flags are booleans, the opacities lie
      in [0, 1] and the polygon colour is a triple. */
  predicate Valid(s: Settings) {
    s.showModel.Bool? && s.showRays.Bool? && s.showOffsetPolygon.Bool? && s.showVideoOverlay.Bool? &&
    0.0 <= s.videoOverlayOpacity <= 1.0 && 0.0 <= s.modelOpacity <= 1.0 &&
    0.0 <= s.offsetPolygonOpacity <= 1.0 &&
    IsColor(s.offsetPolygonColor)
  }

  /** Applying one setter. The flag setters store `!!v`, the opacity
      setters `Math.max(0, Math.min(1, v))`, and the colour setter ignores
      anything but an array of length 3; the rest store `v` as given. */
  function Apply(s: Settings, op: Setter): (r: Settings)
    ensures Valid(s) ==> Valid(r)
    ensures op.SetShowModel? ==> r.showModel == Bool(Truthy(op.v))
    ensures op.SetVideoOverlayOpacity? ==> r.videoOverlayOpacity == Clamp01(op.t)
    ensures op.SetOffsetPolygonColor? ==>
      (IsColor(op.v) ==> r.offsetPolygonColor == op.v) && (!IsColor(op.v) ==> r == s)
    ensures op.SetShowRays? ==> r.showRays == Bool(Truthy(op.v))
    ensures op.SetShowOffsetPolygon? ==> r.showOffsetPolygon == Bool(Truthy(op.v))
    ensures op.SetShowVideoOverlay? ==> r.showVideoOverlay == Bool(Truthy(op.v))
    ensures op.SetModelOpacity? ==> r.modelOpacity == Clamp01(op.t)
    ensures op.SetOffsetPolygonOpacity? ==> r.offsetPolygonOpacity == Clamp01(op.t)
    ensures op.SetModelMinimumPixelSize? ==> r.modelMinimumPixelSize == op.v
    ensures op.SetSensorRelativePosition? ==> r.sensorRelativePosition == op.v
    // Every field but the one the setter names is kept.
    ensures !op.SetShowModel? ==> r.showModel == s.showModel
    ensures !op.SetShowRays? ==> r.showRays == s.showRays
    ensures !op.SetShowOffsetPolygon? ==> r.showOffsetPolygon == s.showOffsetPolygon
    ensures !op.SetShowVideoOverlay? ==> r.showVideoOverlay == s.showVideoOverlay
    ensures !op.SetVideoOverlayOpacity? ==> r.videoOverlayOpacity == s.videoOverlayOpacity
    ensures !op.SetModelMinimumPixelSize? ==> r.modelMinimumPixelSize == s.modelMinimumPixelSize
    ensures !op.SetModelOpacity? ==> r.modelOpacity == s.modelOpacity
    ensures !op.SetOffsetPolygonOpacity? ==> r.offsetPolygonOpacity == s.offsetPolygonOpacity
    ensures !op.SetOffsetPolygonColor? ==> r.offsetPolygonColor == s.offsetPolygonColor
    ensures !op.SetSensorRelativePosition? ==> r.sensorRelativePosition == s.sensorRelativePosition
  {
    match op
    case SetShowModel(v) => s.(showModel := Bool(Truthy(v)))
    case SetShowRays(v) => s.(showRays := Bool(Truthy(v)))
    case SetShowOffsetPolygon(v) => s.(showOffsetPolygon := Bool(Truthy(v)))
    case SetShowVideoOverlay(v) => s.(showVideoOverlay := Bool(Truthy(v)))
    case SetVideoOverlayOpacity(t) => s.(videoOverlayOpacity := Max(0.0, Min(1.0, t)))
    case SetModelMinimumPixelSize(v) => s.(modelMinimumPixelSize := v)
    case SetModelOpacity(t) => s.(modelOpacity := Max(0.0, Min(1.0, t)))
    case SetOffsetPolygonOpacity(t) => s.(offsetPolygonOpacity := Max(0.0, Min(1.0, t)))
    case SetOffsetPolygonColor(v) => if v.Arr? && |v.items| == 3 then s.(offsetPolygonColor := v) else s
    case SetSensorRelativePosition(v) => s.(sensorRelativePosition := v)
  }

  /** The setters in order. */
  function ApplyAll(s: Settings, ops: seq<Setter>): Settings
    decreases |ops|
  {
    if |ops| == 0 then s else ApplyAll(Apply(s, ops[0]), ops[1..])
  }

  /** Every opacity setter leaves a value in [0, 1] that reads back as the
      argument when the argument already was in range. */
  lemma OpacityClamped(s: Settings, t: real)
    ensures var r := Apply(s, SetModelOpacity(t));
      0.0 <= r.modelOpacity <= 1.0 && (0.0 <= t <= 1.0 ==> r.modelOpacity == t) &&
      (t < 0.0 ==> r.modelOpacity == 0.0) && (t > 1.0 ==> r.modelOpacity == 1.0)
    ensures var r := Apply(s, SetVideoOverlayOpacity(t));
      0.0 <= r.videoOverlayOpacity <= 1.0 && (0.0 <= t <= 1.0 ==> r.videoOverlayOpacity == t) &&
      (t < 0.0 ==> r.videoOverlayOpacity == 0.0) && (t > 1.0 ==> r.videoOverlayOpacity == 1.0)
    ensures var r := Apply(s, SetOffsetPolygonOpacity(t));
      0.0 <= r.offsetPolygonOpacity <= 1.0 && (0.0 <= t <= 1.0 ==> r.offsetPolygonOpacity == t) &&
      (t < 0.0 ==> r.offsetPolygonOpacity == 0.0) && (t > 1.0 ==> r.offsetPolygonOpacity == 1.0)
  {
  }

  /** Each flag setter stores the truthiness of its argument as a boolean. */
  lemma FlagsStoreTruthiness(s: Settings, v: Value)
    ensures Apply(s, SetShowModel(v)).showModel == Bool(Truthy(v))
    ensures Apply(s, SetShowRays(v)).showRays == Bool(Truthy(v))
    ensures Apply(s, SetShowOffsetPolygon(v)).showOffsetPolygon == Bool(Truthy(v))
    ensures Apply(s, SetShowVideoOverlay(v)).showVideoOverlay == Bool(Truthy(v))
  {
  }

  /** Setting the same value twice is the same as setting it once. */
  lemma ApplyIdempotent(s: Settings, op: Setter)
    ensures Apply(Apply(s, op), op) == Apply(s, op)
  {
    match op
    case SetVideoOverlayOpacity(t) => Clamp01Idempotent(t);
    case SetModelOpacity(t) => Clamp01Idempotent(t);
    case SetOffsetPolygonOpacity(t) => Clamp01Idempotent(t);
    case _ =>
  }

  /** The defaults satisfy the invariant, and no sequence of setter calls
      breaks it. */
  lemma {:induction false} SettersKeepValid(s: Settings, ops: seq<Setter>)
    requires Valid(s)
    ensures Valid(ApplyAll(s, ops))
    decreases |ops|
  {
    if |ops| > 0 {
      SettersKeepValid(Apply(s, ops[0]), ops[1..]);
    }
  }

  /** The defaults are valid. */
  lemma DefaultsValid()
    ensures Valid(Defaults)
  {
  }

  // ---------------------------------------------------------------------------
  // The corner template
  // ---------------------------------------------------------------------------

  /** The four corner directions in the sensor frame, from the horizontal
      and vertical fields of view: x is 1 and the other components are
      tangents of the half angles, in the order top-left, top-right,
      bottom-right, bottom-left, with arguments (+h, +v), (-h, +v),
      (-h, -v), (+h, -v). `tan` is `Decimal.tan`. */
  function CornersLocal(tan: real -> real, hFov: real, vFov: real): (c: seq<Vec3>)
    ensures |c| == 4
    ensures forall i :: 0 <= i < 4 ==> c[i].x == 1.0
    ensures c[0] == Vec3(1.0, tan(hFov / 2.0), tan(vFov / 2.0))
    ensures c[1].y == c[2].y == tan(-(hFov / 2.0)) && c[0].y == c[3].y
    ensures c[2].z == c[3].z == tan(-(vFov / 2.0)) && c[0].z == c[1].z
  {
    var h, v := hFov / 2.0, vFov / 2.0;
    [Vec3(1.0, tan(h), tan(v)),
     Vec3(1.0, tan(-h), tan(v)),
     Vec3(1.0, tan(-h), tan(-v)),
     Vec3(1.0, tan(h), tan(-v))]
  }

  /** With an odd tangent the template is a rectangle centred on the axis:
      opposite corners are mirror images, the top corners share their
      vertical offset and the left corners their horizontal one, and going
      round the ring each step changes exactly one sign. */
  lemma CornerRectangle(tan: real -> real, hFov: real, vFov: real)
    requires tan(-(hFov / 2.0)) == -tan(hFov / 2.0) && tan(-(vFov / 2.0)) == -tan(vFov / 2.0)
    ensures var c := CornersLocal(tan, hFov, vFov);
      c[2] == Vec3(1.0, -c[0].y, -c[0].z) && c[3] == Vec3(1.0, -c[1].y, -c[1].z) &&
      c[1] == Vec3(1.0, -c[0].y, c[0].z) && c[3] == Vec3(1.0, c[0].y, -c[0].z)
    ensures CornersLocal(tan, hFov, vFov)[0] == Vec3(1.0, tan(hFov / 2.0), tan(vFov / 2.0))
  {
  }

  // ---------------------------------------------------------------------------
  // The snapshot gate and the canvas toggle
  // ---------------------------------------------------------------------------

  /** The two offscreen canvases. */
  datatype Canvas = A | B

  /** `curCanvas === "a" ? "b" : "a"`. */
  function Flip(c: Canvas): (r: Canvas)
    ensures r != c
  {
    if c == A then B else A
  }

  /** Two flips restore the original canvas. */
  lemma FlipInvolution(c: Canvas)
    ensures Flip(Flip(c)) == c
  {
  }

  /** The state the entity callbacks read: the current canvas and the
      snapshots of the corners, the sensor and the platform position. */
  datatype View = View(canvas: Canvas, corners: Option<seq<Vec3>>, sensor: Option<Vec3>, platform: Option<Vec3>)

  /** The corner snapshot is null or has exactly four corners. */
  predicate Gated(v: View) {
    v.corners.None? || |v.corners.value| == 4
  }

  /** The snapshot step of `#triggerWarpUpdate`: exactly four intersections
      replace the corner, sensor and platform snapshots by copies; anything
      else clears the corners and keeps the other two. */
  function Snapshot(v: View, intersections: Option<seq<Vec3>>, sensor: Option<Vec3>, platform: Option<Vec3>): (r: View)
    ensures Gated(r) && r.canvas == v.canvas
    ensures r.corners.Some? <==> intersections.Some? && |intersections.value| == 4
    ensures r.corners.Some? ==> r == View(v.canvas, intersections, sensor, platform)
    ensures r.corners.None? ==> r.sensor == v.sensor && r.platform == v.platform
  {
    if intersections.Some? && |intersections.value| == 4 then
      v.(corners := intersections, sensor := sensor, platform := platform)
    else
      v.(corners := None)
  }

  /** A longitude/latitude pair, in radians. */
  datatype LonLat = LonLat(lon: real, lat: real)

  /** A destination pixel for the perspective warp. */
  datatype Pixel = Pixel(x: real, y: real)

  /** One call of `Perspective.draw`: the canvas drawn into and the
      destination corners. */
  datatype Draw = Draw(canvas: Canvas, dst: seq<Pixel>)

  /** `#warpImageToPolygon`: nothing happens unless the video has metadata,
      the perspectives exist and there are corners; otherwise the corners'
      longitudes and latitudes (by `carto`, Cesium's
      `Cartographic.fromCartesian`) are fitted into the canvas. */
  function WarpImage(ready: bool, canvas: Canvas, w: real, h: real, carto: Vec3 -> LonLat, corners: Option<seq<Vec3>>): (r: Option<Draw>)
    requires corners.None? || |corners.value| == 4
    ensures r.Some? <==> ready && corners.Some?
    ensures r.Some? ==> r.value.canvas == canvas && |r.value.dst| == 4
  {
    if !ready || corners.None? then None
    else
      var c := corners.value;
      Some(Draw(canvas, DstRaw([carto(c[0]), carto(c[1]), carto(c[2]), carto(c[3])], w, h)))
  }

  /** `#updateWarpedView`: flip the canvas, then warp into the canvas that
      is now current. */
  function UpdateWarpedView(v: View, ready: bool, w: real, h: real, carto: Vec3 -> LonLat): (r: (View, Option<Draw>))
    requires Gated(v)
    ensures r.0 == v.(canvas := Flip(v.canvas))
    ensures r.1.Some? ==> r.1.value.canvas == r.0.canvas
    ensures r.1.None? <==> !ready || v.corners.None?
  {
    var next := v.(canvas := Flip(v.canvas));
    (next, WarpImage(ready, next.canvas, w, h, carto, next.corners))
  }

  /** `#triggerWarpUpdate`: without metadata nothing happens; otherwise the
      snapshots go through the gate and the view is flipped and redrawn.
      `intersections`, `sensor` and `platform` are what the Cesium picks and
      transforms produced for this frame. */
  function TriggerWarpUpdate(
    v: View, hasMetadata: bool,
    intersections: Option<seq<Vec3>>, sensor: Option<Vec3>, platform: Option<Vec3>,
    ready: bool, w: real, h: real, carto: Vec3 -> LonLat): (r: (View, Option<Draw>))
    requires Gated(v)
    ensures Gated(r.0)
    ensures !hasMetadata ==> r == (v, None)
    ensures hasMetadata ==> r.0.canvas == Flip(v.canvas)
    ensures r.1.Some? ==> hasMetadata && r.1.value.canvas == r.0.canvas
  {
    if !hasMetadata then (v, None)
    else UpdateWarpedView(Snapshot(v, intersections, sensor, platform), ready, w, h, carto)
  }

  /** Two updates with metadata bring the same canvas back, and the canvas
      drawn into is always the one the material callback shows. */
  lemma TwoUpdatesRestoreCanvas(
    v: View, i1: Option<seq<Vec3>>, s1: Option<Vec3>, p1: Option<Vec3>,
    i2: Option<seq<Vec3>>, s2: Option<Vec3>, p2: Option<Vec3>,
    ready: bool, w: real, h: real, carto: Vec3 -> LonLat)
    requires Gated(v)
    ensures var first := TriggerWarpUpdate(v, true, i1, s1, p1, ready, w, h, carto).0;
      TriggerWarpUpdate(first, true, i2, s2, p2, ready, w, h, carto).0.canvas == v.canvas
  {
    FlipInvolution(v.canvas);
  }

  // ---------------------------------------------------------------------------
  // Fitting the corners into the canvas
  // ---------------------------------------------------------------------------

  /** The smallest entry, `Math.min(...s)`. */
  function SeqMin(s: seq<real>): (r: real)
    requires |s| > 0
    ensures forall i :: 0 <= i < |s| ==> r <= s[i]
    ensures exists i :: 0 <= i < |s| && r == s[i]
  {
    if |s| == 1 then s[0]
    else
      var m := SeqMin(s[1..]);
      assert forall i :: 1 <= i < |s| ==> s[i] == s[1..][i - 1];
      if s[0] <= m then s[0] else m
  }

  /** The largest entry, `Math.max(...s)`. */
  function SeqMax(s: seq<real>): (r: real)
    requires |s| > 0
    ensures forall i :: 0 <= i < |s| ==> s[i] <= r
    ensures exists i :: 0 <= i < |s| && r == s[i]
  {
    if |s| == 1 then s[0]
    else
      var m := SeqMax(s[1..]);
      assert forall i :: 1 <= i < |s| ==> s[i] == s[1..][i - 1];
      if s[0] >= m then s[0] else m
  }

  /** The longitudes of the corners. */
  function Lons(c: seq<LonLat>): (r: seq<real>)
    ensures |r| == |c| && forall i :: 0 <= i < |c| ==> r[i] == c[i].lon
  {
    seq(|c|, i requires 0 <= i < |c| => c[i].lon)
  }

  /** The latitudes of the corners. */
  function Lats(c: seq<LonLat>): (r: seq<real>)
    ensures |r| == |c| && forall i :: 0 <= i < |c| ==> r[i] == c[i].lat
  {
    seq(|c|, i requires 0 <= i < |c| => c[i].lat)
  }

  /** The floor under both extents, so that no division is by zero. */
  const MinExtent: real := 0.000000001

  /** The bounding box of the corners. */
  datatype Box = Box(minLon: real, maxLon: real, minLat: real, maxLat: real)

  /** `Math.min`/`Math.max` over the corners' longitudes and latitudes. */
  function BoundingBox(c: seq<LonLat>): (b: Box)
    requires |c| > 0
    ensures forall i :: 0 <= i < |c| ==> b.minLon <= c[i].lon <= b.maxLon && b.minLat <= c[i].lat <= b.maxLat
    ensures (exists i :: 0 <= i < |c| && c[i].lon == b.minLon) && (exists i :: 0 <= i < |c| && c[i].lon == b.maxLon)
    ensures (exists i :: 0 <= i < |c| && c[i].lat == b.minLat) && (exists i :: 0 <= i < |c| && c[i].lat == b.maxLat)
  {
    var lons, lats := Lons(c), Lats(c);
    Box(SeqMin(lons), SeqMax(lons), SeqMin(lats), SeqMax(lats))
  }

  /** `Math.max(maxLon - minLon, 1e-9)`. */
  function Width(b: Box): (r: real)
    ensures r >= MinExtent && r >= b.maxLon - b.minLon
    ensures r == b.maxLon - b.minLon || r == MinExtent
  {
    Max(b.maxLon - b.minLon, MinExtent)
  }

  /** `Math.max(maxLat - minLat, 1e-9)`. */
  function Height(b: Box): (r: real)
    ensures r >= MinExtent && r >= b.maxLat - b.minLat
    ensures r == b.maxLat - b.minLat || r == MinExtent
  {
    Max(b.maxLat - b.minLat, MinExtent)
  }

  /** An offset into an extent, scaled to a canvas size: `(a / d) * size`. */
  function Place(a: real, d: real, size: real): real
    requires d > 0.0
  {
    a / d * size
  }

  /** One corner's pixel: its longitude placed across the width and its
      latitude down the height of a `w` by `h` canvas, relative to the box. */
  function Fit(p: LonLat, b: Box, w: real, h: real): Pixel {
    Pixel(Place(p.lon - b.minLon, Width(b), w), Place(b.maxLat - p.lat, Height(b), h))
  }

  /** `dstRaw`: every corner fitted into the canvas relative to the
      bounding box of all corners, in the corners' order. */
  function DstRaw(c: seq<LonLat>, w: real, h: real): (dst: seq<Pixel>)
    requires |c| > 0
    ensures |dst| == |c|
    ensures forall i :: 0 <= i < |c| ==> dst[i] == Fit(c[i], BoundingBox(c), w, h)
  {
    var b := BoundingBox(c);
    seq(|c|, i requires 0 <= i < |c| => Fit(c[i], b, w, h))
  }

  /** A point inside the box is fitted inside the canvas. */
  lemma FitInside(p: LonLat, b: Box, w: real, h: real)
    requires b.minLon <= p.lon <= b.maxLon && b.minLat <= p.lat <= b.maxLat
    requires w >= 0.0 && h >= 0.0
    ensures 0.0 <= Fit(p, b, w, h).x <= w && 0.0 <= Fit(p, b, w, h).y <= h
  {
    ScaleFraction(p.lon - b.minLon, Width(b), w);
    ScaleFraction(b.maxLat - p.lat, Height(b), h);
  }

  /** Every mapped point lies inside the canvas. */
  lemma DstInsideCanvas(c: seq<LonLat>, w: real, h: real, i: nat)
    requires |c| > 0 && i < |c| && w >= 0.0 && h >= 0.0
    ensures 0.0 <= DstRaw(c, w, h)[i].x <= w && 0.0 <= DstRaw(c, w, h)[i].y <= h
  {
    FitInside(c[i], BoundingBox(c), w, h);
  }

  /** Fitting keeps order: further east is further right and further north
      is further up. */
  lemma FitMonotone(p: LonLat, q: LonLat, b: Box, w: real, h: real)
    requires w >= 0.0 && h >= 0.0
    ensures p.lon <= q.lon ==> Fit(p, b, w, h).x <= Fit(q, b, w, h).x
    ensures p.lat <= q.lat ==> Fit(q, b, w, h).y <= Fit(p, b, w, h).y
  {
    if p.lon <= q.lon {
      ScaleMonotone(p.lon - b.minLon, q.lon - b.minLon, Width(b), w);
    }
    if p.lat <= q.lat {
      ScaleMonotone(b.maxLat - q.lat, b.maxLat - p.lat, Height(b), h);
    }
  }

  /** The mapping keeps the order of the corners. */
  lemma DstKeepsOrder(c: seq<LonLat>, w: real, h: real, i: nat, j: nat)
    requires |c| > 0 && i < |c| && j < |c| && w >= 0.0 && h >= 0.0
    ensures c[i].lon <= c[j].lon ==> DstRaw(c, w, h)[i].x <= DstRaw(c, w, h)[j].x
    ensures c[i].lat <= c[j].lat ==> DstRaw(c, w, h)[j].y <= DstRaw(c, w, h)[i].y
  {
    FitMonotone(c[i], c[j], BoundingBox(c), w, h);
  }

  /** The box edges land on the canvas edges: the west edge at x = 0 and the
      north edge at y = 0, and, when an extent reaches the floor, the east
      edge at x = w and the south edge at y = h. */
  lemma FitEdges(p: LonLat, b: Box, w: real, h: real)
    ensures p.lon == b.minLon ==> Fit(p, b, w, h).x == 0.0
    ensures p.lat == b.maxLat ==> Fit(p, b, w, h).y == 0.0
    ensures p.lon == b.maxLon && b.maxLon - b.minLon >= MinExtent ==> Fit(p, b, w, h).x == w
    ensures p.lat == b.minLat && b.maxLat - b.minLat >= MinExtent ==> Fit(p, b, w, h).y == h
  {
    ZeroFraction(Width(b), w);
    ZeroFraction(Height(b), h);
    if b.maxLon - b.minLon >= MinExtent {
      WholeFraction(Width(b), w);
    }
    if b.maxLat - b.minLat >= MinExtent {
      WholeFraction(Height(b), h);
    }
  }

  /** The box is fitted to the corners: the westernmost corner lands on the
      left edge and the northernmost on the top edge, and when the extents
      reach the floor the easternmost lands on the right edge and the
      southernmost on the bottom edge. */
  lemma DstTouchesEdges(c: seq<LonLat>, w: real, h: real)
    requires |c| > 0
    ensures exists i :: 0 <= i < |c| && DstRaw(c, w, h)[i].x == 0.0
    ensures exists i :: 0 <= i < |c| && DstRaw(c, w, h)[i].y == 0.0
    ensures var b := BoundingBox(c); b.maxLon - b.minLon >= MinExtent ==> exists i :: 0 <= i < |c| && DstRaw(c, w, h)[i].x == w
    ensures var b := BoundingBox(c); b.maxLat - b.minLat >= MinExtent ==> exists i :: 0 <= i < |c| && DstRaw(c, w, h)[i].y == h
  {
    var b := BoundingBox(c);
    var i0 :| 0 <= i0 < |c| && c[i0].lon == b.minLon;
    var i1 :| 0 <= i1 < |c| && c[i1].lon == b.maxLon;
    var j0 :| 0 <= j0 < |c| && c[j0].lat == b.maxLat;
    var j1 :| 0 <= j1 < |c| && c[j1].lat == b.minLat;
    var d := DstRaw(c, w, h);
    FitEdges(c[i0], b, w, h);
    assert d[i0].x == 0.0;
    FitEdges(c[j0], b, w, h);
    assert d[j0].y == 0.0;
    if b.maxLon - b.minLon >= MinExtent {
      FitEdges(c[i1], b, w, h);
      assert d[i1].x == w;
    }
    if b.maxLat - b.minLat >= MinExtent {
      FitEdges(c[j1], b, w, h);
      assert d[j1].y == h;
    }
  }

  /** `0 <= a <= d` and `d > 0` place `a / d * w` in `[0, w]`. */
  lemma ScaleFraction(a: real, d: real, w: real)
    requires 0.0 <= a <= d && d > 0.0 && w >= 0.0
    ensures 0.0 <= Place(a, d, w) <= w
  {
    assert a / d <= 1.0;
  }

  /** `a / d * w` grows with `a`. */
  lemma ScaleMonotone(a: real, b: real, d: real, w: real)
    requires a <= b && d > 0.0 && w >= 0.0
    ensures Place(a, d, w) <= Place(b, d, w)
  {
    assert a / d <= b / d;
  }

  /** A zero offset lands on zero. */
  lemma ZeroFraction(d: real, w: real)
    requires d > 0.0
    ensures Place(0.0, d, w) == 0.0
  {
  }

  /** The whole extent lands on the full size. */
  lemma WholeFraction(d: real, w: real)
    requires d > 0.0
    ensures Place(d, d, w) == w
  {
  }
}
