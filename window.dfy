/** The window renderer of `src/gfx_debug.c`: the same drawing calls as the oscilloscope, drawn
    with Bresenham lines into a square brightness buffer where overdrawn pixels add up. */
module GfxDebug {
  import opened Units
  import opened Mode
  import opened Raster

  /** C's conversion of a `double` to `int`: truncation toward zero. */
  function Trunc(r: real): (n: int)
    ensures r >= 0.0 ==> n as real <= r < n as real + 1.0
    ensures r <= 0.0 ==> n as real - 1.0 < r <= n as real
  {
    if r >= 0.0 then r.Floor else -((-r).Floor)
  }

  /** The `int` conversion is defined: the truncated value fits 32 bits. */
  predicate IntCastable(r: real) {
    -2147483649.0 < r < 2147483648.0
  }

  /** The screen rectangle of `setScale` (the weight argument is ignored here). */
  datatype View = View(xmin: real, xmax: real, ymin: real, ymax: real)

  /** The coordinate `v` can be mapped: the axis is not flat and the scaled value converts. */
  predicate Mappable(v: real, lo: real, hi: real) {
    lo != hi && IntCastable((SIZE - 4) as real * ((v - lo) / (hi - lo)))
  }

  /** A caller's coordinate as a pixel column or row: scaled to `SIZE - 4` pixels, truncated,
      moved in by two pixels and clamped to the window. Coordinates inside the rectangle keep
      the two-pixel margin without any clamping. */
  function ScreenCoord(v: real, lo: real, hi: real): (c: int)
    requires Mappable(v, lo, hi)
    ensures 0 <= c < SIZE
    ensures 0.0 <= (v - lo) / (hi - lo) <= 1.0 ==>
              2 <= c <= SIZE - 2 && c == Trunc((SIZE - 4) as real * ((v - lo) / (hi - lo))) + 2
  {
    Clamp(Trunc((SIZE - 4) as real * ((v - lo) / (hi - lo))) + 2)
  }

  /** The end pixel after `setMode`'s flags: a mirrored axis maps `c` to `SIZE - c`, and swapped
      axes exchange the column and the row. */
  function OrientPixel(p: Pixel, o: Orientation): Pixel {
    var x := if o.mirrorX then SIZE - p.x else p.x;
    var y := if o.mirrorY then SIZE - p.y else p.y;
    if o.swapAxes then Pixel(y, x) else Pixel(x, y)
  }

  /** Swapping the axes transposes the oriented pixel. */
  lemma SwapTransposes(p: Pixel, o: Orientation)
    ensures var q, r := OrientPixel(p, o), OrientPixel(p, o.(swapAxes := !o.swapAxes));
            r == Pixel(q.y, q.x)
  {
  }

  /** An oriented window pixel stays on screen unless an axis is mirrored and the pixel lies
      on that axis's 0 edge: the mirror sends it to `SIZE`, one past the window. */
  lemma OrientedOnScreen(p: Pixel, o: Orientation)
    requires OnScreen(p.x, p.y)
    ensures var q := OrientPixel(p, o);
            && 0 <= q.x <= SIZE && 0 <= q.y <= SIZE
            && (OnScreen(q.x, q.y) <==> !(o.mirrorX && p.x == 0) && !(o.mirrorY && p.y == 0))
  {
  }

  /** So a line end clamped to 0 on a mirrored axis is not drawn: its plot changes nothing. */
  lemma MirroredEdgeDropped(img: seq<Byte>, p: Pixel, o: Orientation, bright: Byte)
    requires |img| == SIZE * SIZE && OnScreen(p.x, p.y)
    requires (o.mirrorX && p.x == 0) || (o.mirrorY && p.y == 0)
    ensures PlotOne(img, OrientPixel(p, o).x, OrientPixel(p, o).y, bright) == img
  {
    OrientedOnScreen(p, o);
  }

  /** The `Uint8` conversion of `weight * 245 + 10` is defined. */
  predicate Shadeable(weight: real) {
    0.0 <= weight * 245.0 + 10.0 < 256.0
  }

  /** `wt`: the brightness of a line of `weight`; a weight of 0, as `moveTo` draws, still
      shows at 10 rather than black. */
  function Shade(weight: real): (wt: Byte)
    requires Shadeable(weight)
    ensures wt as real <= weight * 245.0 + 10.0 < wt as real + 1.0
    ensures weight == 0.0 ==> wt == 10
  {
    (weight * 245.0 + 10.0).Floor
  }

  /** The line `lineTo(x, y, ...)` hands to `lineTo2` with the cursor at (cx, cy). */
  function WindowLine(cx: real, cy: real, x: real, y: real, v: View, o: Orientation): Line
    requires Mappable(cx, v.xmin, v.xmax) && Mappable(cy, v.ymin, v.ymax)
    requires Mappable(x, v.xmin, v.xmax) && Mappable(y, v.ymin, v.ymax)
  {
    var p0 := OrientPixel(Pixel(ScreenCoord(cx, v.xmin, v.xmax), ScreenCoord(cy, v.ymin, v.ymax)), o);
    var p1 := OrientPixel(Pixel(ScreenCoord(x, v.xmin, v.xmax), ScreenCoord(y, v.ymin, v.ymax)), o);
    Line(p0.x, p0.y, p1.x, p1.y)
  }

  /** Every conversion of a `lineTo` from (cx, cy) to (x, y) of `weight` is defined. */
  predicate Drawable(cx: real, cy: real, x: real, y: real, v: View, weight: real) {
    && Mappable(cx, v.xmin, v.xmax) && Mappable(cy, v.ymin, v.ymax)
    && Mappable(x, v.xmin, v.xmax) && Mappable(y, v.ymin, v.ymax)
    && Shadeable(weight)
  }

  /** `plot(x, y, bright)` on the window surface `screen`: drops an off-screen pixel, otherwise adds `bright` to the pixel,
      saturating at 255. */
  method Plot(screen: array<Byte>, x: int, y: int, bright: Byte)
    requires screen.Length == SIZE * SIZE
    modifies screen
    ensures screen[..] == PlotOne(old(screen[..]), x, y, bright)
  {
    if x < 0 || x >= SIZE || y < 0 || y >= SIZE {
      return;
    }
    var i := y * SIZE + x;
    var bright2 := bright + screen[i];
    if bright2 > 255 {
      bright2 := 255;
    }
    screen[i] := bright2;
  }

  /** `lineTo2` on the window surface `screen`: plots, in order, every pixel of the Bresenham walk from (x0, y0) to
      (x1, y1), both ends included. */
  method LineTo2(screen: array<Byte>, x0: int, y0: int, x1: int, y1: int, shade: Byte)
    requires screen.Length == SIZE * SIZE
    modifies screen
    ensures screen[..] == PlotPath(old(screen[..]), Path(Line(x0, y0, x1, y1)), shade)
  {
    ghost var l := Line(x0, y0, x1, y1);
    var dx: int := Iabs(x1 - x0);
    var dy: int := Iabs(y1 - y0);
    var sx := if x0 < x1 then 1 else -1;
    var sy := if y0 < y1 then 1 else -1;
    var err := dx - dy;
    var x, y := x0, y0;
    assert dx == Dx(l) && dy == Dy(l) && sx == Sx(l) && sy == Sy(l);
    StartOnTrack(l);
    ghost var target := PlotPath(screen[..], Path(l), shade);
    while true
      invariant OnTrack(l, Cursor(x, y, err))
      invariant PlotPath(screen[..], Trace(l, Cursor(x, y, err)), shade) == target
      decreases Remaining(l, Cursor(x, y, err))
    {
      ghost var c := Cursor(x, y, err);
      ghost var rest := Trace(l, c);
      ghost var before := screen[..];
      Plot(screen, x, y, shade);
      if x == x1 && y == y1 {
        assert rest == [Pixel(x, y)];
        PlotPathCons(before, Pixel(x, y), [], shade);
        break;
      }
      StepOnTrack(l, c);
      assert rest == [Pixel(x, y)] + Trace(l, Step(l, c));
      PlotPathCons(before, Pixel(x, y), Trace(l, Step(l, c)), shade);
      x, y, err := Advance(l, dx, dy, sx, sy, x, y, err);
    }
  }

  /** One pass of `lineTo2`'s loop after the plot: the X step, then the Y step, both judged on
      `e2 = 2 * err` from before the pass. */
  method Advance(ghost l: Line, dx: int, dy: int, sx: int, sy: int, x0: int, y0: int, err0: int)
    returns (x: int, y: int, err: int)
    requires dx == Dx(l) && dy == Dy(l) && sx == Sx(l) && sy == Sy(l)
    ensures Cursor(x, y, err) == Step(l, Cursor(x0, y0, err0))
  {
    x, y, err := x0, y0, err0;
    var e2 := 2 * err;
    if e2 > -dy {
      err := err - dy;
      x := x + sx;
    }
    if e2 < dx {
      err := err + dx;
      y := y + sy;
    }
  }

  /** The flag tests of `lineTo`: mirror each axis of both ends, then swap the axes. */
  method OrientEnds(x0: int, y0: int, x1: int, y1: int, o: Orientation)
    returns (a0: int, b0: int, a1: int, b1: int)
    ensures Pixel(a0, b0) == OrientPixel(Pixel(x0, y0), o)
    ensures Pixel(a1, b1) == OrientPixel(Pixel(x1, y1), o)
  {
    a0, b0, a1, b1 := x0, y0, x1, y1;
    if o.mirrorX {
      a0 := SIZE - a0;
      a1 := SIZE - a1;
    }
    if o.mirrorY {
      b0 := SIZE - b0;
      b1 := SIZE - b1;
    }
    if o.swapAxes {
      var i := a0;
      a0 := b0;
      b0 := i;
      i := a1;
      a1 := b1;
      b1 := i;
    }
  }

  /** The window renderer's globals: the surface, the scale, the cursor and the flags. */
  class Window {
    /** The screen surface, one brightness (its red level) per pixel, row by row. */
    var pixels: array<Byte>
    var xmin: real
    var xmax: real
    var ymin: real
    var ymax: real
    /** `cursX`, `cursY`: the logical point the next line starts from. */
    var cursX: real
    var cursY: real
    var flipX: int
    var flipY: int
    var swapXY: int

    ghost predicate Valid()
      reads this`pixels
    {
      pixels.Length == SIZE * SIZE
    }

    function ViewOf(): View
      reads this`xmin, this`xmax, this`ymin, this`ymax
    {
      View(xmin, xmax, ymin, ymax)
    }

    function Orient(): Orientation
      reads this`flipX, this`flipY, this`swapXY
    {
      Orientation(flipX != 0, flipY != 0, swapXY != 0)
    }

    /** The globals' initial values followed by `gfxInit`: a black `SIZE` by `SIZE` window;
        the audio arguments are not used. */
    constructor (freq: int, buffer: int)
      ensures Valid() && fresh(pixels)
      ensures forall i :: 0 <= i < pixels.Length ==> pixels[i] == 0
      ensures ViewOf() == View(0.0, 0.0, 0.0, 0.0) && cursX == 0.0 && cursY == 0.0
      ensures Orient() == Orientation(false, false, false)
    {
      pixels := new Byte[SIZE * SIZE](_ => 0);
      xmin, xmax, ymin, ymax := 0.0, 0.0, 0.0, 0.0;
      cursX, cursY := 0.0, 0.0;
      flipX, flipY, swapXY := 0, 0, 0;
    }

    /** `setScale`: the screen rectangle; this renderer ignores the weight. */
    method SetScale(xleft: real, xright: real, ytop: real, ybottom: real, weight: real)
      modifies this`xmin, this`xmax, this`ymin, this`ymax
      ensures ViewOf() == View(xleft, xright, ytop, ybottom)
    {
      xmin := xleft;
      xmax := xright;
      ymin := ytop;
      ymax := ybottom;
    }

    /** `lineTo(x, y, weight)`: draws the line from the cursor to (x, y), mapped to pixels and
        oriented by the flags, in the shade of `weight`, and moves the cursor to (x, y). */
    method LineTo(x: real, y: real, weight: real)
      requires Valid() && Drawable(cursX, cursY, x, y, ViewOf(), weight)
      modifies pixels, this`cursX, this`cursY
      ensures cursX == x && cursY == y
      ensures pixels[..] == PlotPath(old(pixels[..]),
                                     Path(WindowLine(old(cursX), old(cursY), x, y, old(ViewOf()), old(Orient()))),
                                     Shade(weight))
    {
      ghost var before := pixels[..];
      ghost var line := WindowLine(cursX, cursY, x, y, ViewOf(), Orient());
      var wt: Byte := (weight * 245.0 + 10.0).Floor;
      assert wt == Shade(weight);
      var x0 := ScreenCoord(cursX, xmin, xmax);
      var y0 := ScreenCoord(cursY, ymin, ymax);
      var x1 := ScreenCoord(x, xmin, xmax);
      var y1 := ScreenCoord(y, ymin, ymax);
      x0, y0, x1, y1 := OrientEnds(x0, y0, x1, y1, Orient());
      assert Line(x0, y0, x1, y1) == line;
      cursX := x;
      cursY := y;
      assert pixels[..] == before;
      // the shallow and the steep branch both draw this one line; their thickening loops
      // run no pass at a line width of 1
      LineTo2(pixels, x0, y0, x1, y1, wt);
      assert pixels[..] == PlotPath(before, Path(line), wt);
    }

    /** `moveTo(x, y)`: a `lineTo` of weight 0, which draws the dim line of shade 10. */
    method MoveTo(x: real, y: real)
      requires Valid() && Drawable(cursX, cursY, x, y, ViewOf(), 0.0)
      modifies pixels, this`cursX, this`cursY
      ensures cursX == x && cursY == y
      ensures pixels[..] == PlotPath(old(pixels[..]),
                                     Path(WindowLine(old(cursX), old(cursY), x, y, old(ViewOf()), old(Orient()))),
                                     10)
    {
      LineTo(x, y, 0.0);
    }

    /** `flip(clear)`: shows the surface, then blackens it only when `clear` is non-zero. */
    method Flip(clear: int)
      requires Valid()
      modifies pixels
      ensures clear != 0 ==> forall i :: 0 <= i < pixels.Length ==> pixels[i] == 0
      ensures clear == 0 ==> pixels[..] == old(pixels[..])
    {
      if clear != 0 {
        forall i | 0 <= i < pixels.Length {
          pixels[i] := 0;
        }
      }
    }

    /** `setMode`: bits 0, 1 and 2 of `mode` set mirror-X, mirror-Y and swap-axes. */
    method SetMode(mode: int)
      modifies this`flipX, this`flipY, this`swapXY
      ensures flipX == MaskBit(mode, 1) && flipY == MaskBit(mode, 2) && swapXY == MaskBit(mode, 4)
      ensures Orient() == Decode(mode)
    {
      flipX := MaskBit(mode, 1);
      flipY := MaskBit(mode, 2);
      swapXY := MaskBit(mode, 4);
    }
  }
}
