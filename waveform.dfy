/** What `sendFrame` in `src/gfx.c` renders from a stroke list: for each segment, `w + 1`
    interleaved stereo pairs tracing the beam from the previous point toward the next one.
    The source steps a `double` by `dX` per sample; here that position is exact. */
module Waveform {
  import opened Units
  import opened Arith
  import opened Mode
  import opened Strokes

  /** Sample pairs spent on the segment that ends at `q`. */
  function Steps(q: Point): nat {
    q.w + 1
  }

  /** Sample pairs of a whole frame: the sum of `w + 1` over every point but the first. */
  function BufSize(pts: seq<Point>): nat
    decreases |pts|
  {
    if |pts| < 2 then 0 else BufSize(pts[..|pts| - 1]) + Steps(pts[|pts| - 1])
  }

  /** Each segment takes between 1 and 65536 pairs, so a full list needs at most
      4095 * 65536 pairs: the byte count `4 * bufsiz` fits a 32-bit `int`. */
  lemma {:induction false} BufSizeBounds(pts: seq<Point>)
    ensures |pts| >= 1 ==> |pts| - 1 <= BufSize(pts) <= (|pts| - 1) * 0x1_0000
    ensures |pts| <= MAX_POINTS ==> 4 * BufSize(pts) < 0x8000_0000
    decreases |pts|
  {
    if |pts| >= 2 {
      BufSizeBounds(pts[..|pts| - 1]);
    }
  }

  /** The frame of a prefix is the beginning of the frame of the whole list. */
  lemma {:induction false} BufSizePrefix(pts: seq<Point>, j: nat)
    requires 1 <= j <= |pts|
    ensures j < |pts| ==> BufSize(pts[..j + 1]) == BufSize(pts[..j]) + Steps(pts[j])
    ensures BufSize(pts[..j]) <= BufSize(pts)
    decreases |pts| - j
  {
    if j < |pts| {
      assert pts[..j + 1][..j] == pts[..j];
      BufSizePrefix(pts, j + 1);
    } else {
      assert pts[..j] == pts;
    }
  }

  /** The beam position after `i` of `steps` equal increments `(b - a) / steps` from `a`
      toward `b`, as `X += dX` accumulates it. */
  function Position(a: Uint16, b: Uint16, i: nat, steps: nat): real
    requires steps > 0
  {
    if i == 0 then a as real else Position(a, b, i - 1, steps) + (b as real - a as real) / steps as real
  }

  /** The accumulated position in closed form: `a + i * (b - a) / steps`. */
  lemma {:induction false} PositionClosed(a: Uint16, b: Uint16, i: nat, steps: nat)
    requires steps > 0
    ensures Position(a, b, i, steps) == a as real + (i as real) * ((b - a) as real / steps as real)
  {
    if i > 0 {
      PositionClosed(a, b, i - 1, steps);
      var d := (b - a) as real / steps as real;
      assert (i as real) * d == ((i - 1) as real) * d + d;
    }
  }

  lemma PositionBetween(a: Uint16, b: Uint16, i: nat, steps: nat)
    requires 0 <= i <= steps && steps > 0
    ensures a <= b ==> a as real <= Position(a, b, i, steps) <= b as real
    ensures b <= a ==> b as real <= Position(a, b, i, steps) <= a as real
  {
    PositionClosed(a, b, i, steps);
    var d := (b - a) as real / steps as real;
    DividedBetween(i as real, steps as real, (b - a) as real);
    assert Position(a, b, i, steps) == a as real + (i as real) * d;
  }

  /** `t` of `n` equal parts of `e` lie between `0` and `e`. */
  lemma DividedBetween(t: real, n: real, e: real)
    requires 0.0 <= t <= n && n > 0.0
    ensures e >= 0.0 ==> 0.0 <= t * (e / n) <= e
    ensures e <= 0.0 ==> e <= t * (e / n) <= 0.0
  {
    var d := e / n;
    assert n * d == e;
    assert e - t * d == (n - t) * d;
    if e >= 0.0 {
      assert d >= 0.0;
    } else {
      assert d <= 0.0;
    }
  }

  /** The coordinate cast from that position, which never leaves the segment's range. */
  function Coord(a: Uint16, b: Uint16, i: nat, steps: nat): (c: Uint16)
    requires 0 <= i <= steps && steps > 0
    ensures a <= b ==> a <= c <= b
    ensures b <= a ==> b <= c <= a
    ensures i == 0 ==> c == a
  {
    PositionBetween(a, b, i, steps);
    Position(a, b, i, steps).Floor
  }

  /** The last pair of a rising segment lies short of its target: the target itself is only
      reached as the first pair of the next segment. */
  lemma SegmentStopsShort(a: Uint16, b: Uint16, steps: nat)
    requires a < b && steps > 0
    ensures Coord(a, b, steps - 1, steps) < b
  {
    var e := (b - a) as real;
    var p := Position(a, b, steps - 1, steps);
    PositionClosed(a, b, steps - 1, steps);
    assert ((steps - 1) as real) * (e / steps as real) == e - e / steps as real;
    assert e / steps as real > 0.0;
    assert p < b as real;
  }

  /** The X sample of device coordinate `c`: inverted unless X is mirrored. */
  function SampleX(c: Uint16, mirror: bool): Sint16 {
    if mirror then c - 32768 else (0xFFFF - c) - 32768
  }

  /** The Y sample of device coordinate `c`: inverted only when Y is mirrored. */
  function SampleY(c: Uint16, mirror: bool): Sint16 {
    if mirror then (0xFFFF - c) - 32768 else c - 32768
  }

  /** Mirroring an axis maps every sample `s` of that axis to `-1 - s`, so the mirrored and
      unmirrored samples of a coordinate sum to -1 and mirroring twice changes nothing; the two
      axes use opposite conventions by default. */
  lemma MirrorComplements(c: Uint16, mirror: bool)
    ensures SampleX(c, !mirror) == -1 - SampleX(c, mirror)
    ensures SampleY(c, !mirror) == -1 - SampleY(c, mirror)
    ensures SampleX(c, mirror) == SampleY(c, !mirror)
    ensures SampleX(c, true) == c - 32768 && SampleY(c, false) == c - 32768
  {
  }

  /** Index within a pair of the channel that carries X. */
  function XSlot(o: Orientation): nat {
    if o.swapAxes then 0 else 1
  }

  /** One stereo pair (left, right) for the beam at (x, y). */
  function SamplePair(x: Uint16, y: Uint16, o: Orientation): (pair: seq<Sint16>)
    ensures |pair| == 2
    ensures pair[XSlot(o)] == SampleX(x, o.mirrorX) && pair[1 - XSlot(o)] == SampleY(y, o.mirrorY)
  {
    var iX := SampleX(x, o.mirrorX);
    var iY := SampleY(y, o.mirrorY);
    if o.swapAxes then [iX, iY] else [iY, iX]
  }

  /** The first `i` pairs of the segment from `p` to `q`: pair `k` is the beam at step `k`. */
  function Pairs(p: Point, q: Point, o: Orientation, i: nat): (s: seq<Sint16>)
    requires i <= Steps(q)
    ensures |s| == 2 * i
  {
    if i == 0 then []
    else Pairs(p, q, o, i - 1) + SamplePair(Coord(p.x, q.x, i - 1, Steps(q)), Coord(p.y, q.y, i - 1, Steps(q)), o)
  }

  /** Samples written after `done` grow by one pair per step. */
  lemma PairsGrow(p: Point, q: Point, o: Orientation, i: nat, done: seq<Sint16>)
    requires i < Steps(q)
    ensures done + Pairs(p, q, o, i + 1) ==
            (done + Pairs(p, q, o, i)) + SamplePair(Coord(p.x, q.x, i, Steps(q)), Coord(p.y, q.y, i, Steps(q)), o)
  {
  }

  /** The samples of the segment from `p` to `q`: all `Steps(q)` pairs. */
  function Segment(p: Point, q: Point, o: Orientation): (s: seq<Sint16>)
    ensures |s| == 2 * Steps(q)
  {
    Pairs(p, q, o, Steps(q))
  }

  /** Sample `k` of a segment is channel `k % 2` of the pair for step `k / 2`. */
  lemma {:induction false} PairsAt(p: Point, q: Point, o: Orientation, i: nat, k: nat)
    requires i <= Steps(q) && k < 2 * i
    ensures Pairs(p, q, o, i)[k] ==
            SamplePair(Coord(p.x, q.x, k / 2, Steps(q)), Coord(p.y, q.y, k / 2, Steps(q)), o)[k % 2]
    decreases i
  {
    if k < 2 * (i - 1) {
      PairsAt(p, q, o, i - 1, k);
    } else {
      assert k / 2 == i - 1 && k % 2 == k - 2 * (i - 1);
    }
  }

  /** Every frame the renderer writes: its segments one after another. */
  function Wave(pts: seq<Point>, o: Orientation): (s: seq<Sint16>)
    ensures |s| == 2 * BufSize(pts)
    decreases |pts|
  {
    if |pts| < 2 then [] else Wave(pts[..|pts| - 1], o) + Segment(pts[|pts| - 2], pts[|pts| - 1], o)
  }

  /** One more point in the list adds its segment to the end of the frame. */
  lemma WaveGrows(pts: seq<Point>, j: nat, o: Orientation)
    requires 1 <= j < |pts|
    ensures BufSize(pts[..j + 1]) == BufSize(pts[..j]) + Steps(pts[j])
    ensures Wave(pts[..j + 1], o) == Wave(pts[..j], o) + Segment(pts[j - 1], pts[j], o)
  {
    assert pts[..j + 1][..j] == pts[..j];
  }

  /** The frame of a prefix of the list is a prefix of the frame of the list. */
  lemma {:induction false} WavePrefix(pts: seq<Point>, j: nat, o: Orientation)
    requires 1 <= j <= |pts|
    ensures BufSize(pts[..j]) <= BufSize(pts)
    ensures Wave(pts[..j], o) == Wave(pts, o)[..2 * BufSize(pts[..j])]
    decreases |pts| - j
  {
    BufSizePrefix(pts, j);
    if j == |pts| {
      assert pts[..j] == pts;
    } else {
      WavePrefix(pts, j + 1, o);
      var w := Wave(pts[..j + 1], o);
      assert pts[..j + 1][..j] == pts[..j];
      assert w == Wave(pts[..j], o) + Segment(pts[j - 1], pts[j], o);
      assert Wave(pts[..j], o) == w[..2 * BufSize(pts[..j])];
    }
  }

  /** Segment `j` (from point j-1 to point j) starts at pair `BufSize(pts[..j])`, with the beam
      exactly on point j-1. */
  lemma SegmentStartsAtPreviousPoint(pts: seq<Point>, j: nat, o: Orientation)
    requires 1 <= j < |pts|
    ensures var at, sp := 2 * BufSize(pts[..j]), SamplePair(pts[j - 1].x, pts[j - 1].y, o);
            && at + 2 <= |Wave(pts, o)|
            && Wave(pts, o)[at] == sp[0] && Wave(pts, o)[at + 1] == sp[1]
  {
    SegmentOpens(pts[j - 1], pts[j], o);
    SegmentInFrame(pts, j, o, 0);
    SegmentInFrame(pts, j, o, 1);
  }

  /** Sample `k` of segment `j` (from point j-1 to point j) is sample `2 * BufSize(pts[..j]) + k`
      of the frame. */
  lemma SegmentInFrame(pts: seq<Point>, j: nat, o: Orientation, k: nat)
    requires 1 <= j < |pts| && k < 2 * Steps(pts[j])
    ensures 2 * BufSize(pts[..j]) + k < |Wave(pts, o)|
    ensures Wave(pts, o)[2 * BufSize(pts[..j]) + k] == Segment(pts[j - 1], pts[j], o)[k]
  {
    WavePrefix(pts, j + 1, o);
    WaveGrows(pts, j, o);
    IndexPastPrefix(Wave(pts, o), Wave(pts[..j], o), Segment(pts[j - 1], pts[j], o), k);
  }

  /** Where a prefix of `w` is `w0 + seg`, entry `k` of `seg` sits at `|w0| + k` in `w`. */
  lemma IndexPastPrefix<T>(w: seq<T>, w0: seq<T>, seg: seq<T>, k: nat)
    requires |w0| + |seg| <= |w| && w0 + seg == w[..|w0| + |seg|] && k < |seg|
    ensures w[|w0| + k] == seg[k]
  {
    assert (w0 + seg)[|w0| + k] == seg[k];
  }

  /** A segment opens with the beam on its starting point. */
  lemma SegmentOpens(p: Point, q: Point, o: Orientation)
    ensures var sp := SamplePair(p.x, p.y, o);
            Segment(p, q, o)[0] == sp[0] && Segment(p, q, o)[1] == sp[1]
  {
    PairsAt(p, q, o, Steps(q), 0);
    PairsAt(p, q, o, Steps(q), 1);
    assert Coord(p.x, q.x, 0, Steps(q)) == p.x && Coord(p.y, q.y, 0, Steps(q)) == p.y;
  }

  /** The index of the other channel of the same pair. */
  function Partner(k: nat): nat {
    if k % 2 == 0 then k + 1 else k - 1
  }

  /** Within one segment, swapping the axes exchanges the two channels of each pair. */
  lemma SegmentSwap(p: Point, q: Point, o: Orientation, k: nat)
    requires k < 2 * Steps(q)
    ensures Partner(k) < 2 * Steps(q)
    ensures Segment(p, q, o.(swapAxes := !o.swapAxes))[k] == Segment(p, q, o)[Partner(k)]
  {
    PairsAt(p, q, o, Steps(q), Partner(k));
    PairsAt(p, q, o.(swapAxes := !o.swapAxes), Steps(q), k);
    assert Partner(k) / 2 == k / 2 && Partner(k) % 2 == 1 - k % 2;
  }

  /** Within one segment, mirroring an axis complements that axis's samples. */
  lemma SegmentMirror(p: Point, q: Point, o: Orientation, k: nat)
    requires k < 2 * Steps(q)
    ensures var s := Segment(p, q, o)[k];
            && Segment(p, q, o.(mirrorX := !o.mirrorX))[k] == (if k % 2 == XSlot(o) then -1 - s else s)
            && Segment(p, q, o.(mirrorY := !o.mirrorY))[k] == (if k % 2 == XSlot(o) then s else -1 - s)
  {
    var i := k / 2;
    PairsAt(p, q, o, Steps(q), k);
    PairsAt(p, q, o.(mirrorX := !o.mirrorX), Steps(q), k);
    PairsAt(p, q, o.(mirrorY := !o.mirrorY), Steps(q), k);
    MirrorComplements(Coord(p.x, q.x, i, Steps(q)), o.mirrorX);
    MirrorComplements(Coord(p.y, q.y, i, Steps(q)), o.mirrorY);
  }

  /** A sample of a frame with more than one segment lies in the last segment or before it. */
  lemma WaveAt(pts: seq<Point>, o: Orientation, k: nat)
    requires |pts| >= 2 && k < |Wave(pts, o)|
    ensures var n := |Wave(pts[..|pts| - 1], o)|;
            && n == 2 * BufSize(pts[..|pts| - 1])
            && (k < n ==> Wave(pts, o)[k] == Wave(pts[..|pts| - 1], o)[k])
            && (k >= n ==>
                  && k - n < 2 * Steps(pts[|pts| - 1])
                  && (k - n) % 2 == k % 2
                  && Wave(pts, o)[k] == Segment(pts[|pts| - 2], pts[|pts| - 1], o)[k - n])
  {
    var m := BufSize(pts[..|pts| - 1]);
    if k >= 2 * m {
      ParityShift(k - 2 * m, m);
    }
  }

  /** Swapping the axes exchanges the two channels of every pair and changes nothing else. */
  lemma {:induction false} SwapExchangesChannels(pts: seq<Point>, o: Orientation, k: nat)
    requires k < |Wave(pts, o)|
    ensures Partner(k) < |Wave(pts, o)|
    ensures Wave(pts, o.(swapAxes := !o.swapAxes))[k] == Wave(pts, o)[Partner(k)]
    decreases |pts|
  {
    var o' := o.(swapAxes := !o.swapAxes);
    var init := pts[..|pts| - 1];
    var n := |Wave(init, o)|;
    WaveAt(pts, o, k);
    WaveAt(pts, o', k);
    WaveAt(pts, o, Partner(k));
    if k < n {
      SwapExchangesChannels(init, o, k);
    } else {
      assert Partner(k) - n == Partner(k - n);
      SegmentSwap(pts[|pts| - 2], pts[|pts| - 1], o, k - n);
    }
  }

  /** Mirroring X maps every X sample `s` of the frame to `-1 - s` and leaves the Y samples;
      mirroring Y does the same to the Y samples. */
  lemma {:induction false} MirrorComplementsAxis(pts: seq<Point>, o: Orientation, k: nat)
    requires k < |Wave(pts, o)|
    ensures var s := Wave(pts, o)[k];
            && Wave(pts, o.(mirrorX := !o.mirrorX))[k] == (if k % 2 == XSlot(o) then -1 - s else s)
            && Wave(pts, o.(mirrorY := !o.mirrorY))[k] == (if k % 2 == XSlot(o) then s else -1 - s)
    decreases |pts|
  {
    var init := pts[..|pts| - 1];
    var n := |Wave(init, o)|;
    WaveAt(pts, o, k);
    WaveAt(pts, o.(mirrorX := !o.mirrorX), k);
    WaveAt(pts, o.(mirrorY := !o.mirrorY), k);
    if k < n {
      MirrorComplementsAxis(init, o, k);
    } else {
      SegmentMirror(pts[|pts| - 2], pts[|pts| - 1], o, k - n);
    }
  }
}
