/** The integer raster path of `src/gfx_debug.c`: the square window, the clamp to it, the
    Bresenham walk between two pixels and the saturating brightness a plot adds. */
module Raster {
  import opened Units

  /** Width and height of the window in pixels (`SIZE`). */
  const SIZE: int := 480

  /** `clamp(n)`: the nearest pixel column or row of the window. */
  function Clamp(n: int): (r: int)
    ensures 0 <= r < SIZE
    ensures 0 <= n < SIZE ==> r == n
    ensures n < 0 ==> r == 0
    ensures n >= SIZE ==> r == SIZE - 1
  {
    if n < 0 then 0 else if n >= SIZE then SIZE - 1 else n
  }

  /** `iabs(x)`, and the library `abs` that the line routine uses: the magnitude of `x`. */
  function Iabs(x: int): (r: nat)
    ensures r == x || r == -x
  {
    if x < 0 then -x else x
  }

  /** A pixel of the window, column first. */
  datatype Pixel = Pixel(x: int, y: int)

  /** The two end pixels `lineTo2` is called with. */
  datatype Line = Line(x0: int, y0: int, x1: int, y1: int)

  /** `dx` and `dy`: the distances to cover on each axis. */
  function Dx(l: Line): int {
    Iabs(l.x1 - l.x0)
  }

  function Dy(l: Line): int {
    Iabs(l.y1 - l.y0)
  }

  /** The direction of an X step: +1 toward a larger end column, -1 otherwise. */
  function Sx(l: Line): int {
    if l.x0 < l.x1 then 1 else -1
  }

  function Sy(l: Line): int {
    if l.y0 < l.y1 then 1 else -1
  }

  /** The loop variables of `lineTo2`: the current pixel and the error term. */
  datatype Cursor = Cursor(x: int, y: int, err: int)

  /** The cursor before the first pass: on the start pixel with `err = dx - dy`. */
  function Start(l: Line): Cursor {
    Cursor(l.x0, l.y0, Dx(l) - Dy(l))
  }

  /** X steps taken so far, counted along the direction of the line. */
  function Ux(l: Line, c: Cursor): int {
    if l.x0 < l.x1 then c.x - l.x0 else l.x0 - c.x
  }

  function Uy(l: Line, c: Cursor): int {
    if l.y0 < l.y1 then c.y - l.y0 else l.y0 - c.y
  }

  /** The cursor lies on the way from the start to the end pixel, and the error term is what
      the steps taken so far leave: `dx - dy + uy * dx - ux * dy`. */
  ghost predicate OnTrack(l: Line, c: Cursor) {
    && 0 <= Ux(l, c) <= Dx(l) && 0 <= Uy(l, c) <= Dy(l)
    && c.err == Dx(l) - Dy(l) + Uy(l, c) * Dx(l) - Ux(l, c) * Dy(l)
  }

  /** Steps still owed on both axes together. */
  ghost function Remaining(l: Line, c: Cursor): int {
    (Dx(l) - Ux(l, c)) + (Dy(l) - Uy(l, c))
  }

  /** The cursor is on the end pixel, where the loop stops. */
  predicate AtEnd(l: Line, c: Cursor) {
    c.x == l.x1 && c.y == l.y1
  }

  /** One pass of the loop after the plot: an X step when `2 * err > -dy` and a Y step when
      `2 * err < dx`, both judged on the error term from before the pass. */
  function Step(l: Line, c: Cursor): Cursor {
    var dx, dy := Dx(l), Dy(l);
    var e2 := 2 * c.err;
    var stepX := e2 > -dy;
    var stepY := e2 < dx;
    Cursor(if stepX then c.x + Sx(l) else c.x,
           if stepY then c.y + Sy(l) else c.y,
           c.err - (if stepX then dy else 0) + (if stepY then dx else 0))
  }

  lemma StartOnTrack(l: Line)
    ensures OnTrack(l, Start(l)) && Remaining(l, Start(l)) == Dx(l) + Dy(l)
  {
  }

  /** The error-term arithmetic of one pass, with `ux` of `dx` X steps and `uy` of `dy` Y steps
      taken: some step is taken, none past the end of its axis, and the new error term is what
      the new step counts leave. */
  lemma ErrorStep(dx: int, dy: int, ux: int, uy: int, err: int)
    requires 0 <= ux <= dx && 0 <= uy <= dy && !(ux == dx && uy == dy)
    requires err == dx - dy + uy * dx - ux * dy
    ensures 2 * err > -dy || 2 * err < dx
    ensures ux == dx ==> !(2 * err > -dy)
    ensures uy == dy ==> !(2 * err < dx)
    ensures var stepX, stepY := 2 * err > -dy, 2 * err < dx;
            err - (if stepX then dy else 0) + (if stepY then dx else 0)
            == dx - dy + (if stepY then uy + 1 else uy) * dx - (if stepX then ux + 1 else ux) * dy
  {
    if ux == dx {
      NonPositiveProduct(dx, uy + 1 - dy);
      assert err == dx * (uy + 1 - dy) - dy;
    }
    if uy == dy {
      AtLeastOnce(dy, dx - ux);
      assert err == dx + dy * (dx - ux) - dy;
    }
    assert (ux + 1) * dy == ux * dy + dy;
    assert (uy + 1) * dx == uy * dx + dx;
  }

  /** Pixel `q` follows pixel `p` on the way to the end pixel of `l`: a different pixel, at
      most one apart on each axis, and no farther from the end on either. */
  predicate Follows(l: Line, p: Pixel, q: Pixel) {
    && q != p
    && Iabs(q.x - p.x) <= 1 && Iabs(q.y - p.y) <= 1
    && Iabs(l.x1 - q.x) <= Iabs(l.x1 - p.x) && Iabs(l.y1 - q.y) <= Iabs(l.y1 - p.y)
  }

  /** Away from the end, one pass stays on the track, never overshoots an axis, moves each
      coordinate by at most one pixel toward the end, and leaves fewer steps owed. */
  lemma StepOnTrack(l: Line, c: Cursor)
    requires OnTrack(l, c) && !AtEnd(l, c)
    ensures OnTrack(l, Step(l, c))
    ensures Remaining(l, Step(l, c)) < Remaining(l, c)
    ensures Follows(l, Pixel(c.x, c.y), Pixel(Step(l, c).x, Step(l, c).y))
  {
    var dx, dy, ux, uy := Dx(l), Dy(l), Ux(l, c), Uy(l, c);
    assert ux == dx <==> c.x == l.x1;
    assert uy == dy <==> c.y == l.y1;
    ErrorStep(dx, dy, ux, uy, c.err);
    var n := Step(l, c);
    assert Ux(l, n) == (if 2 * c.err > -dy then ux + 1 else ux);
    assert Uy(l, n) == (if 2 * c.err < dx then uy + 1 else uy);
  }

  lemma NonPositiveProduct(a: nat, b: int)
    requires b <= 0
    ensures a * b <= 0
  {
  }

  lemma AtLeastOnce(a: nat, b: int)
    requires b >= 1
    ensures a * b >= a
  {
    assert a * b == a + a * (b - 1);
  }

  /** The pixels `lineTo2` plots from cursor `c` on: this one, then those after one more pass,
      until the end pixel has been plotted. */
  ghost function Trace(l: Line, c: Cursor): (t: seq<Pixel>)
    requires OnTrack(l, c)
    ensures |t| >= 1 && t[0] == Pixel(c.x, c.y) && t[|t| - 1] == Pixel(l.x1, l.y1)
    decreases Remaining(l, c)
  {
    if AtEnd(l, c) then [Pixel(c.x, c.y)]
    else
      StepOnTrack(l, c);
      [Pixel(c.x, c.y)] + Trace(l, Step(l, c))
  }

  /** The pixels `lineTo2(x0, y0, x1, y1, shade)` plots, in order. */
  ghost function Path(l: Line): (t: seq<Pixel>)
    ensures |t| >= 1 && t[0] == Pixel(l.x0, l.y0) && t[|t| - 1] == Pixel(l.x1, l.y1)
  {
    StartOnTrack(l);
    Trace(l, Start(l))
  }

  /** Each plotted pixel follows the one before: consecutive pixels differ and touch, and
      neither coordinate ever moves away from the end pixel. */
  lemma {:induction false} TraceAdjacent(l: Line, c: Cursor, k: nat)
    requires OnTrack(l, c) && k + 1 < |Trace(l, c)|
    ensures Follows(l, Trace(l, c)[k], Trace(l, c)[k + 1])
    decreases Remaining(l, c)
  {
    StepOnTrack(l, c);
    var n := Step(l, c);
    var t, tn := Trace(l, c), Trace(l, n);
    assert t == [Pixel(c.x, c.y)] + tn;
    if k > 0 {
      TraceAdjacent(l, n, k - 1);
      assert t[k] == tn[k - 1] && t[k + 1] == tn[k];
    } else {
      assert t[0] == Pixel(c.x, c.y) && t[1] == Pixel(n.x, n.y);
    }
  }

  /** The walk ends: it plots at most `dx + dy + 1` pixels. */
  lemma {:induction false} TraceLength(l: Line, c: Cursor)
    requires OnTrack(l, c)
    ensures |Trace(l, c)| <= Remaining(l, c) + 1
    decreases Remaining(l, c)
  {
    if !AtEnd(l, c) {
      StepOnTrack(l, c);
      TraceLength(l, Step(l, c));
    }
  }

  /** The error-term window that keeps the major axis (the longer of the two) stepping on
      every pass: for a shallow line `-dy < 2 * err < 3 * dx - 2 * dy`, for a steep one
      `2 * dx - 3 * dy < 2 * err < dx`. */
  ghost predicate MajorWindow(l: Line, c: Cursor) {
    var dx, dy, e2 := Dx(l), Dy(l), 2 * c.err;
    if dx >= dy then dx == 0 || (-dy < e2 < 3 * dx - 2 * dy)
    else 2 * dx - 3 * dy < e2 < dx
  }

  /** Steps still owed on the major axis. */
  ghost function MajorRemaining(l: Line, c: Cursor): int {
    if Dx(l) >= Dy(l) then Dx(l) - Ux(l, c) else Dy(l) - Uy(l, c)
  }

  /** Every pass takes a step on the major axis and keeps the error term in its window. */
  lemma MajorStep(l: Line, c: Cursor)
    requires OnTrack(l, c) && MajorWindow(l, c) && !AtEnd(l, c)
    ensures OnTrack(l, Step(l, c))
    ensures MajorWindow(l, Step(l, c))
    ensures MajorRemaining(l, Step(l, c)) == MajorRemaining(l, c) - 1
  {
    StepOnTrack(l, c);
  }

  /** With the error term in its window, the walk plots one pixel per major-axis step still
      owed, and one more. */
  lemma {:induction false} TraceLengthMajor(l: Line, c: Cursor)
    requires OnTrack(l, c) && MajorWindow(l, c)
    ensures |Trace(l, c)| == MajorRemaining(l, c) + 1
    decreases Remaining(l, c)
  {
    if !AtEnd(l, c) {
      StepOnTrack(l, c);
      MajorStep(l, c);
      TraceLengthMajor(l, Step(l, c));
    } else {
      assert Ux(l, c) == Dx(l) && Uy(l, c) == Dy(l);
    }
  }

  /** `lineTo2` plots exactly `max(dx, dy) + 1` pixels: one per pixel column of a shallow line,
      one per pixel row of a steep one. */
  lemma PathLength(l: Line)
    ensures |Path(l)| == (if Dx(l) >= Dy(l) then Dx(l) else Dy(l)) + 1
  {
    StartOnTrack(l);
    TraceLengthMajor(l, Start(l));
  }

  /** A pixel the window shows. */
  predicate OnScreen(x: int, y: int) {
    0 <= x < SIZE && 0 <= y < SIZE
  }

  /** Row-major offset of an on-screen pixel in the window's brightness buffer. */
  function Offset(x: int, y: int): (i: nat)
    requires OnScreen(x, y)
    ensures i < SIZE * SIZE
  {
    y * SIZE + x
  }

  /** Two on-screen pixels share an offset only when they are the same pixel. */
  lemma OffsetInjective(x: int, y: int, x': int, y': int)
    requires OnScreen(x, y) && OnScreen(x', y')
    ensures Offset(x, y) == Offset(x', y') <==> x == x' && y == y'
  {
    if y < y' {
      assert Offset(x, y) < Offset(x', y');
    } else if y' < y {
      assert Offset(x', y') < Offset(x, y);
    }
  }

  /** The brightness an added plot leaves: the sum, up to white. */
  function Saturate(v: int): int {
    if v > 255 then 255 else v
  }

  /** `plot(x, y, bright)` on the window's brightness buffer: an off-screen pixel changes
      nothing; an on-screen one gains `bright`, saturating at 255, and no other pixel changes. */
  function PlotOne(img: seq<Byte>, x: int, y: int, bright: Byte): (r: seq<Byte>)
    requires |img| == SIZE * SIZE
    ensures |r| == |img|
    ensures !OnScreen(x, y) ==> r == img
    ensures OnScreen(x, y) ==>
              && r[Offset(x, y)] == Saturate(img[Offset(x, y)] + bright)
              && forall i :: 0 <= i < |img| && i != Offset(x, y) ==> r[i] == img[i]
  {
    if !OnScreen(x, y) then img
    else img[Offset(x, y) := Saturate(img[Offset(x, y)] + bright)]
  }

  /** The buffer after plotting every pixel of `path` with `bright`, in order. */
  function PlotPath(img: seq<Byte>, path: seq<Pixel>, bright: Byte): (r: seq<Byte>)
    requires |img| == SIZE * SIZE
    ensures |r| == |img|
    decreases |path|
  {
    if |path| == 0 then img
    else PlotPath(PlotOne(img, path[0].x, path[0].y, bright), path[1..], bright)
  }

  /** Drawing a path is plotting its first pixel, then drawing the rest. */
  lemma PlotPathCons(img: seq<Byte>, p: Pixel, rest: seq<Pixel>, bright: Byte)
    requires |img| == SIZE * SIZE
    ensures PlotPath(img, [p] + rest, bright) == PlotPath(PlotOne(img, p.x, p.y, bright), rest, bright)
  {
    assert ([p] + rest)[1..] == rest;
  }

  /** How many pixels of `path` land on buffer offset `i`. */
  function Hits(path: seq<Pixel>, i: int): (n: nat)
    ensures n <= |path|
    decreases |path|
  {
    if |path| == 0 then 0
    else
      Hit(path[0], i) + Hits(path[1..], i)
  }

  /** Whether pixel `p` lands on buffer offset `i`: 1 or 0. */
  function Hit(p: Pixel, i: int): nat {
    if OnScreen(p.x, p.y) && Offset(p.x, p.y) == i then 1 else 0
  }

  /** The brightness `path` adds to offset `i`: `bright` for each of its pixels there. */
  function Gain(path: seq<Pixel>, i: int, bright: Byte): (g: nat)
    decreases |path|
  {
    if |path| == 0 then 0 else (if Hit(path[0], i) == 1 then bright else 0) + Gain(path[1..], i, bright)
  }

  /** That gain is `bright` times the number of hits. */
  lemma {:induction false} GainCountsHits(path: seq<Pixel>, i: int, bright: Byte)
    ensures Gain(path, i, bright) == bright * Hits(path, i)
    decreases |path|
  {
    if |path| > 0 {
      GainCountsHits(path[1..], i, bright);
      var h := Hits(path[1..], i);
      assert bright * (Hit(path[0], i) + h) == bright * Hit(path[0], i) + bright * h;
    }
  }

  /** Adding in two goes saturates like adding at once. */
  lemma SaturateTwice(v: int, a: int, b: int)
    requires v <= 255 && a >= 0 && b >= 0
    ensures Saturate(Saturate(v + a) + b) == Saturate(v + a + b)
  {
  }

  /** A drawn path leaves every pixel at its old brightness plus `bright` per hit, up to
      white: pixels the path misses, and off-screen pixels of the path, change nothing. */
  lemma {:induction false} PlotPathAt(img: seq<Byte>, path: seq<Pixel>, bright: Byte, i: nat)
    requires |img| == SIZE * SIZE && i < |img|
    ensures PlotPath(img, path, bright)[i] == Saturate(img[i] + Gain(path, i, bright))
    decreases |path|
  {
    if |path| > 0 {
      var p, rest := path[0], path[1..];
      var img' := PlotOne(img, p.x, p.y, bright);
      PlotPathAt(img', rest, bright, i);
      if Hit(p, i) == 1 {
        assert img'[i] == Saturate(img[i] + bright);
        SaturateTwice(img[i], bright, Gain(rest, i, bright));
      } else {
        assert img'[i] == img[i];
      }
    }
  }

  /** Lines drawn over each other add their brightness, `bright` per hit, up to white, and
      the order they are drawn in does not matter. */
  lemma OverdrawAdds(img: seq<Byte>, first: seq<Pixel>, a: Byte, second: seq<Pixel>, b: Byte, i: nat)
    requires |img| == SIZE * SIZE && i < |img|
    ensures PlotPath(PlotPath(img, first, a), second, b)[i]
            == Saturate(img[i] + a * Hits(first, i) + b * Hits(second, i))
    ensures PlotPath(PlotPath(img, first, a), second, b)[i]
            == PlotPath(PlotPath(img, second, b), first, a)[i]
  {
    var ga, gb := Gain(first, i, a), Gain(second, i, b);
    PlotPathAt(img, first, a, i);
    PlotPathAt(PlotPath(img, first, a), second, b, i);
    PlotPathAt(img, second, b, i);
    PlotPathAt(PlotPath(img, second, b), first, a, i);
    SaturateTwice(img[i], ga, gb);
    SaturateTwice(img[i], gb, ga);
    GainCountsHits(first, i, a);
    GainCountsHits(second, i, b);
  }
}
