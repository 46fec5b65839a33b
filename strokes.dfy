/** The stroke list of `src/gfx.c`: points of (x, y, weight) in 16-bit device space, and how
    `lineTo` turns a caller's point into the triple it stores. The list itself lives in the
    engine's array (see module Gfx); this module states what each stored triple is. */
module Strokes {
  import opened Units

  /** Capacity of the stroke list (`MAX_POINTS` in gfx.h). */
  const MAX_POINTS: int := 4096

  /** Normalised segments shorter than this count as a dwell on one point. */
  const DWELL_THRESHOLD: real := 0.00002

  /** The normalised length a dwell is given instead of its own. */
  const DWELL_LENGTH: real := 0.05

  /** A stored triple: device coordinates and the number of extra steps spent reaching it. */
  datatype Point = Point(x: Uint16, y: Uint16, w: Uint16)

  /** The screen rectangle and weight scale set by `setScale`. */
  datatype Scale = Scale(xmin: real, xmax: real, ymin: real, ymax: real, targetWeight: real)

  /** The scale in force before any `setScale` call. */
  const DEFAULT_SCALE: Scale := Scale(0.0, 1000.0, 0.0, 1000.0, 100.0)

  /** A caller's coordinate in device units, before clamping; a flat axis maps to the middle. */
  function ScaleAxis(v: real, lo: real, hi: real): real {
    if lo == hi then 32768.0 else (v - lo) / (hi - lo) * 65535.0
  }

  function Abs(r: real): real {
    if r < 0.0 then -r else r
  }

  /** The device coordinate clamped to the screen edges. */
  function ClampDevice(v: real): (r: real)
    ensures 0.0 <= r <= 65535.0
    ensures 0.0 <= v <= 65535.0 ==> r == v
  {
    if v < 0.0 then 0.0 else if v > 65535.0 then 65535.0 else v
  }

  /** The clamped coordinate is the point of the screen nearest to the unclamped one. */
  lemma ClampIsNearest(v: real, c: real)
    requires 0.0 <= c <= 65535.0
    ensures Abs(ClampDevice(v) - v) <= Abs(c - v)
  {
  }

  /** The stored coordinate: the clamped value cast to `Uint16`, which truncates. */
  function DeviceCoord(v: real, lo: real, hi: real): (c: Uint16)
  {
    ClampDevice(ScaleAxis(v, lo, hi)).Floor
  }

  /** The ends of a proper axis map to the screen edges, points beyond them are clamped to the
      edges, and a flat axis puts every point in the middle. */
  lemma DeviceCoordEdges(v: real, lo: real, hi: real)
    ensures lo == hi ==> DeviceCoord(v, lo, hi) == 32768
    ensures lo < hi && v <= lo ==> DeviceCoord(v, lo, hi) == 0
    ensures lo < hi && v >= hi ==> DeviceCoord(v, lo, hi) == 65535
  {
    if lo < hi && v <= lo {
      assert (v - lo) / (hi - lo) <= 0.0;
    }
    if lo < hi && v >= hi {
      DivAtLeastOne(v - lo, hi - lo);
    }
  }

  lemma DivAtLeastOne(a: real, d: real)
    requires d > 0.0 && a >= d
    ensures a / d >= 1.0
  {
    var q := a / d;
    assert q * d == a;
    assert (q - 1.0) * d == a - d;
  }

  /** On a proper axis, a point further along never lands further back. */
  lemma DeviceCoordMonotone(v: real, v': real, lo: real, hi: real)
    requires lo < hi && v <= v'
    ensures DeviceCoord(v, lo, hi) <= DeviceCoord(v', lo, hi)
  {
    assert (v - lo) / (hi - lo) <= (v' - lo) / (hi - lo);
  }

  /** The brightness `color * lineLen * targetWeight` of a segment before the `(Uint16)` cast,
      with a dwell given the fixed length and every segment given at least one step. */
  function SegmentBrightness(color: real, lineLen: real, targetWeight: real): (b: real)
    ensures b >= 1.0
    ensures b >= color * (if lineLen < DWELL_THRESHOLD then DWELL_LENGTH else lineLen) * targetWeight
  {
    var len := if lineLen < DWELL_THRESHOLD then DWELL_LENGTH else lineLen;
    var c := color * len * targetWeight;
    if c < 1.0 then 1.0 else c
  }

  /** The brightness exceeds its floor of 1 only where it is the product itself. */
  lemma BrightnessIsProductAboveOne(color: real, lineLen: real, targetWeight: real)
    ensures var len := if lineLen < DWELL_THRESHOLD then DWELL_LENGTH else lineLen;
            var b := SegmentBrightness(color, lineLen, targetWeight);
            b > 1.0 ==> b == color * len * targetWeight
  {
  }

  /** The stored weight of a segment: the brightness truncated to an integer. */
  function StoredWeight(color: real, lineLen: real, targetWeight: real): (w: Uint16)
    requires SegmentBrightness(color, lineLen, targetWeight) < 65536.0
    ensures w >= 1
  {
    SegmentBrightness(color, lineLen, targetWeight).Floor
  }

  /** A `moveTo` (colour 0) to a later point always costs exactly one step. */
  lemma MoveWeightIsOne(lineLen: real, targetWeight: real)
    ensures SegmentBrightness(0.0, lineLen, targetWeight) == 1.0
    ensures StoredWeight(0.0, lineLen, targetWeight) == 1
  {
  }

  /** `lineLen` is the normalised length `sqrt(dx*dx + dy*dy) / 65535` of the step from `prev`
      to the device point (x, y) (the square root is given, not computed). */
  predicate IsLineLength(lineLen: real, prev: Point, x: real, y: real) {
    var dx := prev.x as real - x;
    var dy := prev.y as real - y;
    lineLen >= 0.0 && lineLen * lineLen * (65535.0 * 65535.0) == dx * dx + dy * dy
  }

  /** The length `lineTo` measures for the step to (x, y): from the stored previous point to the
      new point scaled and clamped, before its own truncation to `Uint16`. */
  predicate MeasuredLength(lineLen: real, prev: Point, sc: Scale, x: real, y: real) {
    IsLineLength(lineLen, prev, ClampDevice(ScaleAxis(x, sc.xmin, sc.xmax)), ClampDevice(ScaleAxis(y, sc.ymin, sc.ymax)))
  }

  /** What `lineTo` may be asked to append after `pts` when the list has a point and room for
      another: the length it is given is the length it measures, and the brightness fits a
      `Uint16`. */
  predicate Appendable(pts: seq<Point>, sc: Scale, x: real, y: real, color: real, lineLen: real) {
    |pts| == 0 || |pts| >= MAX_POINTS ||
    (MeasuredLength(lineLen, pts[|pts| - 1], sc, x, y)
     && SegmentBrightness(color, lineLen, sc.targetWeight) < 65536.0)
  }

  /** The triple `lineTo(x, y, color)` stores after `pts`. */
  function NextPoint(pts: seq<Point>, sc: Scale, x: real, y: real, color: real, lineLen: real): (p: Point)
    requires |pts| < MAX_POINTS && Appendable(pts, sc, x, y, color, lineLen)
    ensures p.w == 0 <==> |pts| == 0
  {
    Point(DeviceCoord(x, sc.xmin, sc.xmax), DeviceCoord(y, sc.ymin, sc.ymax),
          if |pts| == 0 then 0 else StoredWeight(color, lineLen, sc.targetWeight))
  }

  /** The stroke list after `lineTo(x, y, color)`: one more point, unless it is full. */
  function Append(pts: seq<Point>, sc: Scale, x: real, y: real, color: real, lineLen: real): seq<Point>
    requires Appendable(pts, sc, x, y, color, lineLen)
  {
    if |pts| >= MAX_POINTS then pts else pts + [NextPoint(pts, sc, x, y, color, lineLen)]
  }

  /** The shape every stroke list keeps: bounded, a first point of weight 0 (a frame starts with
      a pure move), and every later point of weight at least 1. */
  predicate WellFormed(pts: seq<Point>) {
    && |pts| <= MAX_POINTS
    && (|pts| > 0 ==> pts[0].w == 0)
    && (forall i :: 1 <= i < |pts| ==> pts[i].w >= 1)
  }

  /** Appending keeps a stroke list well formed; when there is room it adds exactly the one
      point and keeps all earlier ones, and when it is full nothing changes. */
  lemma AppendKeepsWellFormed(pts: seq<Point>, sc: Scale, x: real, y: real, color: real, lineLen: real)
    requires WellFormed(pts) && Appendable(pts, sc, x, y, color, lineLen)
    ensures var r := Append(pts, sc, x, y, color, lineLen);
            && WellFormed(r)
            && (|pts| >= MAX_POINTS ==> r == pts)
            && (|pts| < MAX_POINTS ==> |r| == |pts| + 1 && r[..|pts|] == pts)
  {
    var r := Append(pts, sc, x, y, color, lineLen);
    if |pts| < MAX_POINTS {
      forall i | 1 <= i < |r| ensures r[i].w >= 1 {
        if i < |pts| {
          assert r[i] == pts[i];
        }
      }
    }
  }

  lemma RootMonotone(a: real, b: real)
    requires a >= 0.0 && b >= 0.0 && a * a >= b * b
    ensures a >= b
  {
    if a + b > 0.0 {
      assert (a - b) * (a + b) == a * a - b * b;
      assert a - b == (a * a - b * b) / (a + b);
    }
  }

  /** The corrected measurement: from the stored previous point to the new point as it will be
      stored, so that a point stored at the same place measures length 0. */
  predicate MeasuredToStored(lineLen: real, prev: Point, sc: Scale, x: real, y: real) {
    IsLineLength(lineLen, prev, DeviceCoord(x, sc.xmin, sc.xmax) as real, DeviceCoord(y, sc.ymin, sc.ymax) as real)
  }

  /** Under the corrected measurement, drawing again to the point just stored is a dwell: its
      length is below the threshold, so its brightness is that of the fixed dwell length,
      whatever length it is given. */
  lemma RepeatedPointDwells(prev: Point, sc: Scale, x: real, y: real, color: real, lineLen: real)
    requires MeasuredToStored(lineLen, prev, sc, x, y)
    requires prev.x == DeviceCoord(x, sc.xmin, sc.xmax) && prev.y == DeviceCoord(y, sc.ymin, sc.ymax)
    ensures lineLen < DWELL_THRESHOLD
    ensures SegmentBrightness(color, lineLen, sc.targetWeight) == SegmentBrightness(color, 0.0, sc.targetWeight)
  {
    RootMonotone(0.00001, lineLen);
  }

  /** As `lineTo` is written, `moveTo(0.99, 0.99)` then `lineTo(0.99, 0.99, 1)` on a 0..65535
      screen of weight 100 is not a dwell: both points are stored as (0, 0), but the length is
      measured to (0.99, 0.99), which passes the dwell threshold, so the dot gets 1 step instead
      of the 5 a dwell gets. */
  lemma DwellMissedAsWritten(lineLen: real)
    requires MeasuredLength(lineLen, Point(0, 0, 0), Scale(0.0, 65535.0, 0.0, 65535.0, 100.0), 0.99, 0.99)
    ensures DeviceCoord(0.99, 0.0, 65535.0) == 0
    ensures lineLen >= DWELL_THRESHOLD
    ensures Appendable([Point(0, 0, 0)], Scale(0.0, 65535.0, 0.0, 65535.0, 100.0), 0.99, 0.99, 1.0, lineLen)
    ensures NextPoint([Point(0, 0, 0)], Scale(0.0, 65535.0, 0.0, 65535.0, 100.0), 0.99, 0.99, 1.0, lineLen) == Point(0, 0, 1)
    ensures StoredWeight(1.0, 0.0, 100.0) == 5
  {
    assert ScaleAxis(0.99, 0.0, 65535.0) == 0.99;
    RootMonotone(lineLen, DWELL_THRESHOLD);
    RootMonotone(0.01, lineLen);
  }

  /** `moveTo(0, 0)` then `lineTo(32767.9, 0, 1)` on a 0..65535 screen of weight 100: the
      length measured to the unrounded x of 32767.9 is accepted, and the point is stored at
      x 32767 with the weight 50 of that length. */
  lemma HalfScreenLine(lineLen: real)
    requires MeasuredLength(lineLen, Point(0, 0, 0), Scale(0.0, 65535.0, 0.0, 65535.0, 100.0), 32767.9, 0.0)
    ensures Appendable([Point(0, 0, 0)], Scale(0.0, 65535.0, 0.0, 65535.0, 100.0), 32767.9, 0.0, 1.0, lineLen)
    ensures NextPoint([Point(0, 0, 0)], Scale(0.0, 65535.0, 0.0, 65535.0, 100.0), 32767.9, 0.0, 1.0, lineLen) == Point(32767, 0, 50)
  {
    var d := lineLen * 65535.0;
    assert ScaleAxis(32767.9, 0.0, 65535.0) == 32767.9;
    assert d * d == 32767.9 * 32767.9;
    RootMonotone(d, 32767.5);
    RootMonotone(32768.0, d);
    assert 0.5 <= lineLen < 0.50001;
  }
}
