/** The oscilloscope renderer of `src/gfx.c` as one engine object: the globals become fields,
    and each call, from the drawing side or from the audio callback, is one atomic method. */
module Gfx {
  import opened Units
  import opened Mode
  import opened Strokes
  import opened Waveform
  import opened Feeder

  /** The sample rate and buffer size `gfxInit` uses: a value of 0 or less picks the default. */
  function AudioConfig(freq: int, buffer: int): (r: (int, int))
    ensures r.0 > 0 && r.1 > 0
    ensures r.0 == freq || (freq <= 0 && r.0 == 44100)
    ensures r.1 == buffer || (buffer <= 0 && r.1 == 1024)
  {
    (if freq <= 0 then 44100 else freq, if buffer <= 0 then 1024 else buffer)
  }

  /** The refresh rate a frame of `pairs` sample pairs gives at `freq` pairs per second: the
      frame is played `freq / pairs` times a second; a frame of no pairs gives no finite rate. */
  function RefreshRate(freq: int, pairs: int): (r: Option<real>)
    requires pairs >= 0
    ensures r.None? <==> pairs == 0
    ensures r.Some? ==> r.value * pairs as real == freq as real
    ensures r.Some? && freq > 0 ==> r.value > 0.0
  {
    if pairs == 0 then None else Some(freq as real / pairs as real)
  }

  class Engine {
    /** `work_pts`: the stroke list, one (x, y, weight) triple per entry. */
    var workPts: array<Point>
    /** `work.n`: the number of triples in use. */
    var workN: int
    /** `currFrame`: the frame being played. */
    var curr: Frame
    /** `nextFrame`: the waiting frame, `None` for a NULL sample pointer. */
    var next: Option<Frame>
    /** The fill routine's `static int pos`: its byte offset into `curr`. */
    var playPos: int
    /** `xmin`, `xmax`, `ymin`, `ymax`, `targetWeight`. */
    var scale: Scale
    /** The orientation globals as `setMode` sets them: `mode & 1`, `mode & 2`, `mode & 4`. */
    var flipX: int
    var flipY: int
    var swapXY: int
    /** `g_freq`. */
    var freq: int
    /** `g_refresh`; `None` stands for the infinity a frame of no pairs gives. */
    var refresh: Option<real>

    /** The array has its `MAX_POINTS` entries and the count lies within it. */
    ghost predicate Stored()
      reads this`workPts, this`workN
    {
      workPts.Length == MAX_POINTS && 0 <= workN <= MAX_POINTS
    }

    /** The stroke list is a well-formed list of at most `MAX_POINTS` triples. */
    ghost predicate ListValid()
      reads this`workPts, this`workN, workPts
    {
      Stored() && WellFormed(Points())
    }

    /** The frame slots hold well-formed frames and the play offset lies inside the current one. */
    ghost predicate SlotsValid()
      reads this`curr, this`next, this`playPos
    {
      && ValidFrame(curr)
      && (next.Some? ==> ValidFrame(next.value))
      && 0 <= playPos && (playPos == 0 || playPos < 4 * curr.n)
    }

    ghost predicate Valid()
      reads this, workPts
    {
      ListValid() && SlotsValid() && freq > 0
    }

    /** The stroke list held in the first `workN` entries. */
    ghost function Points(): seq<Point>
      reads this`workPts, this`workN, workPts
      requires Stored()
    {
      workPts[..workN]
    }

    /** The orientation the renderer reads from the three flags. */
    function Orient(): Orientation
      reads this`flipX, this`flipY, this`swapXY
    {
      Orientation(flipX != 0, flipY != 0, swapXY != 0)
    }

    /** The globals' initial values followed by `gfxInit(freq, buffer)`: the defaults for
        non-positive arguments, an empty stroke list, a silent current frame, nothing waiting. */
    constructor (freq: int, buffer: int)
      ensures Valid() && fresh(workPts)
      ensures Points() == [] && next == None && playPos == 0
      ensures curr == InitFrame(AudioConfig(freq, buffer).1)
      ensures this.freq == AudioConfig(freq, buffer).0
      ensures scale == DEFAULT_SCALE && Orient() == Orientation(false, false, false)
      ensures refresh == Some(0.0)
    {
      var f := if freq <= 0 then 44100 else freq;
      var b := if buffer <= 0 then 1024 else buffer;
      workPts := new Point[MAX_POINTS];
      workN := 0;
      curr := InitFrame(b);
      next := None;
      playPos := 0;
      scale := DEFAULT_SCALE;
      flipX, flipY, swapXY := 0, 0, 0;
      this.freq := f;
      refresh := Some(0.0);
    }

    /** `setScale`: the screen rectangle and the weight of a full-strength line. */
    method SetScale(xleft: real, xright: real, ytop: real, ybottom: real, weight: real)
      modifies this`scale
      ensures scale == Scale(xleft, xright, ytop, ybottom, weight)
    {
      scale := Scale(xleft, xright, ytop, ybottom, weight);
    }

    /** `setMode`: bits 0, 1 and 2 of `mode` set mirror-X, mirror-Y and swap-axes. */
    method SetMode(mode: int)
      modifies this`flipX, this`flipY, this`swapXY
      ensures flipX == MaskBit(mode, 1) && flipY == MaskBit(mode, 2) && swapXY == MaskBit(mode, 4)
      ensures Orient() == Decode(mode)
    {
      flipX := MaskBit(mode, 1);
      flipY := MaskBit(mode, 2);
      swapXY := MaskBit(mode, 4);
    }

    /** `lineTo(x, y, color)`: ignored when the list is full; otherwise stores the mapped,
        clamped point with weight 0 if it is the first and its segment's weight otherwise, in
        the next entry of the array and nowhere else. `lineLen` is the segment's normalised
        length, which the source computes with `sqrt`. */
    method LineTo(x: real, y: real, color: real, lineLen: real)
      requires Valid()
      requires Appendable(Points(), scale, x, y, color, lineLen)
      modifies workPts, this`workN
      ensures Valid()
      ensures Points() == Append(old(Points()), scale, x, y, color, lineLen)
      ensures workN == if old(workN) >= MAX_POINTS then old(workN) else old(workN) + 1
      ensures forall i :: 0 <= i < workPts.Length && i != old(workN) ==> workPts[i] == old(workPts[i])
    {
      ghost var pts := Points();
      if workN >= MAX_POINTS {
        return;
      }
      var px := ClampDevice(ScaleAxis(x, scale.xmin, scale.xmax));
      var py := ClampDevice(ScaleAxis(y, scale.ymin, scale.ymax));
      var c: real;
      if workN > 0 {
        var len := if lineLen < DWELL_THRESHOLD then DWELL_LENGTH else lineLen;
        c := color * len * scale.targetWeight;
        if c < 1.0 {
          c := 1.0;
        }
        assert c == SegmentBrightness(color, lineLen, scale.targetWeight);
      } else {
        c := 0.0;
      }
      ghost var p := NextPoint(pts, scale, x, y, color, lineLen);
      workPts[workN] := Point(px.Floor, py.Floor, c.Floor);
      workN := workN + 1;
      assert Points() == pts + [p];
      AppendKeepsWellFormed(pts, scale, x, y, color, lineLen);
    }

    /** `moveTo(x, y)`: a `lineTo` of colour 0. */
    method MoveTo(x: real, y: real, lineLen: real)
      requires Valid()
      requires Appendable(Points(), scale, x, y, 0.0, lineLen)
      modifies workPts, this`workN
      ensures Valid()
      ensures Points() == Append(old(Points()), scale, x, y, 0.0, lineLen)
      ensures workN == if old(workN) >= MAX_POINTS then old(workN) else old(workN) + 1
      ensures forall i :: 0 <= i < workPts.Length && i != old(workN) ==> workPts[i] == old(workPts[i])
    {
      LineTo(x, y, 0.0, lineLen);
    }

    /** The first loop of `sendFrame`: the frame size in pairs, `w + 1` for every point but the
        first. */
    method FrameSize() returns (bufsiz: int)
      requires Stored()
      ensures bufsiz == BufSize(Points())
      ensures 4 * bufsiz < 0x8000_0000
    {
      ghost var pts := Points();
      bufsiz := 0;
      var pt := 1;
      while pt < workN
        invariant 1 <= pt && (workN == 0 || pt <= workN)
        invariant bufsiz == if workN == 0 then 0 else BufSize(pts[..pt])
      {
        BufSizePrefix(pts, pt);
        bufsiz := bufsiz + workPts[pt].w + 1;
        pt := pt + 1;
      }
      if workN > 0 {
        assert pts[..workN] == pts;
      }
      BufSizeBounds(pts);
    }

    /** The second loop of `sendFrame`: a new buffer of `bufsiz` pairs holding the segments of
        the stroke list one after another. */
    method RenderFrame(bufsiz: int) returns (buf: array<Sint16>)
      requires Stored() && bufsiz == BufSize(Points())
      ensures fresh(buf)
      ensures buf[..] == Wave(Points(), Orient())
    {
      buf := RenderStrokes(workPts, workN, Orient(), bufsiz);
    }

    /** `sendFrame(&work)`: renders the stroke list into a new frame of `BufSize` pairs and
        makes it the waiting frame, dropping any frame that was waiting; the current frame and
        the stroke list are untouched. */
    method SendFrame()
      requires Valid()
      modifies this`next, this`refresh
      ensures Valid()
      ensures next == Some(Frame(Wave(Points(), Orient()), BufSize(Points())))
      ensures refresh == RefreshRate(freq, BufSize(Points()))
    {
      var bufsiz := FrameSize();
      var buf := RenderFrame(bufsiz);
      refresh := RefreshRate(freq, bufsiz);
      next := Some(Frame(buf[..], bufsiz));
    }

    /** `flip(clear)`: stages the rendered stroke list and sets the refresh rate from its size,
        then empties the list only when `clear` is non-zero, so `flip(0)` keeps drawing onto
        the same picture. */
    method Flip(clear: int)
      requires Valid()
      modifies this`next, this`refresh, this`workN
      ensures Valid()
      ensures next == Some(Frame(Wave(old(Points()), Orient()), BufSize(old(Points()))))
      ensures refresh == RefreshRate(freq, BufSize(old(Points())))
      ensures Points() == if clear != 0 then [] else old(Points())
    {
      SendFrame();
      if clear != 0 {
        workN := 0;
      }
    }

    /** `cb_fill_audio(len)`: copies exactly the bytes `Play` gives from the frame slots and
        leaves its state; frames of no pairs would make it loop forever, so both slots must hold
        at least one pair. */
    method FillAudio(len: int) returns (stream: seq<Byte>)
      requires Valid()
      requires curr.n >= 1 && (next.Some? ==> next.value.n >= 1)
      modifies this`curr, this`next, this`playPos
      ensures Valid()
      ensures (stream, PlayState(curr, next, playPos)) == Play(PlayState(old(curr), old(next), old(playPos)), len)
      ensures len >= 0 ==> |stream| == len
      ensures 0 <= playPos < 4 * curr.n
    {
      stream, curr, next, playPos := CopyOut(curr, next, playPos, len);
      if len >= 0 {
        PlayLength(PlayState(old(curr), old(next), old(playPos)), len);
      }
    }
  }

  /** The loop of `cb_fill_audio` on the frame slots `cur`, `nxt` and the offset `pos`: copy
      to the end of the frame or of the request, and at the end of the frame rewind, taking the
      waiting frame if there is one. */
  method CopyOut(cur0: Frame, nxt0: Option<Frame>, pos0: int, len: int)
    returns (stream: seq<Byte>, cur: Frame, nxt: Option<Frame>, pos: int)
    requires Playable(PlayState(cur0, nxt0, pos0))
    ensures Playable(PlayState(cur, nxt, pos))
    ensures (stream, PlayState(cur, nxt, pos)) == Play(PlayState(cur0, nxt0, pos0), len)
  {
    ghost var s0 := PlayState(cur0, nxt0, pos0);
    cur, nxt, pos := cur0, nxt0, pos0;
    var left := len;
    var done := 0;
    stream := [];
    PlayStarts(s0, len);
    while left > 0
      invariant Playable(PlayState(cur, nxt, pos))
      invariant done == |stream|
      invariant Resumes(s0, len, stream, PlayState(cur, nxt, pos), left)
      decreases left
    {
      ghost var s, l := PlayState(cur, nxt, pos), left;
      var chunk;
      chunk, cur, nxt, pos, left := CopyPass(cur, nxt, pos, left);
      PlayResume(s0, len, stream, s, l, chunk, PlayState(cur, nxt, pos), left);
      stream := stream + chunk;
      done := done + |chunk|;
    }
    PlayFinished(s0, len, stream, PlayState(cur, nxt, pos), left);
  }

  /** One pass of the fill loop: copies what is left of the current frame, up to `left` bytes,
      and at the end of the frame rewinds it or switches to the waiting one. */
  method CopyPass(cur0: Frame, nxt0: Option<Frame>, pos0: int, left0: int)
    returns (chunk: seq<Byte>, cur: Frame, nxt: Option<Frame>, pos: int, left: int)
    requires Playable(PlayState(cur0, nxt0, pos0)) && left0 > 0
    ensures var s0 := PlayState(cur0, nxt0, pos0);
            && chunk == FrameBytes(cur0)[pos0..pos0 + ToCopy(s0, left0)]
            && PlayState(cur, nxt, pos) == AfterCopy(s0, ToCopy(s0, left0))
            && left == left0 - ToCopy(s0, left0) && |chunk| == ToCopy(s0, left0)
  {
    cur, nxt, pos, left := cur0, nxt0, pos0, left0;
    chunk := [];
    var frameLeft := cur.n * 4 - pos;
    var toCopy := if frameLeft < left then frameLeft else left;
    if toCopy > 0 {
      chunk := FrameBytes(cur)[pos..pos + toCopy];
    }
    left := left - toCopy;
    pos := pos + toCopy;
    frameLeft := frameLeft - toCopy;
    if frameLeft <= 0 {
      // the source's negative-frameLeft diagnostic cannot fire
      assert frameLeft == 0;
      pos := 0;
      if nxt.Some? {
        cur := nxt.value;
        nxt := None;
      }
    }
  }

  method RenderStrokes(a: array<Point>, n: int, o: Orientation, bufsiz: int) returns (buf: array<Sint16>)
    requires 0 <= n <= a.Length && bufsiz == BufSize(a[..n])
    ensures fresh(buf)
    ensures buf[..] == Wave(a[..n], o)
  {
    ghost var pts := a[..n];
    buf := new Sint16[bufsiz * 2];
    var pos := 0;
    if n == 0 {
      return;
    }
    var pt := 1;
    while pt < n
      invariant 1 <= pt <= n
      invariant pos == 2 * BufSize(pts[..pt]) && BufSize(pts[..pt]) <= bufsiz
      invariant buf[..pos] == Wave(pts[..pt], o)
    {
      BufSizePrefix(pts, pt + 1);
      WaveGrows(pts, pt, o);
      var p, q := a[pt - 1], a[pt];
      assert p == pts[pt - 1] && q == pts[pt];
      var steps := q.w + 1;
      RenderSegment(buf, pos, p, q, o);
      pos := pos + 2 * steps;
      pt := pt + 1;
    }
    assert pts[..n] == pts;
    assert pos == bufsiz * 2;
    assert buf[..] == buf[..pos];
  }

  /** The inner loop of `sendFrame`: the `w + 1` pairs of the segment from `p` to `q`, in
      `buf` from index `start` on, with the beam moved by `dX`, `dY` per pair. */
  method RenderSegment(buf: array<Sint16>, start: int, p: Point, q: Point, o: Orientation)
    requires 0 <= start && start + 2 * Steps(q) <= buf.Length
    modifies buf
    ensures buf[..start + 2 * Steps(q)] == old(buf[..start]) + Segment(p, q, o)
  {
    ghost var done := buf[..start];
    var pos := start;
    var X: real := p.x as real;
    var Y: real := p.y as real;
    var nextX: real := q.x as real;
    var nextY: real := q.y as real;
    var steps: int := q.w as int + 1;
    var dX := (nextX - X) / steps as real;
    var dY := (nextY - Y) / steps as real;
    var i := 0;
    while i < steps
      invariant 0 <= i <= steps
      invariant pos == start + 2 * i
      invariant X == Position(p.x, q.x, i, steps) && Y == Position(p.y, q.y, i, steps)
      invariant buf[..pos] == done + Pairs(p, q, o, i)
    {
      var cx := X.Floor;
      var cy := Y.Floor;
      assert cx == Coord(p.x, q.x, i, steps) && cy == Coord(p.y, q.y, i, steps);
      // the mirror and swap branches of the source, as `SamplePair` states them
      var pair := SamplePair(cx, cy, o);
      PutPair(buf, pos, pair);
      PairsGrow(p, q, o, i, done);
      pos := pos + 2;
      X := X + dX;
      Y := Y + dY;
      i := i + 1;
    }
  }


  /** Stores one sample pair at `pos` and `pos + 1`, extending the filled prefix by it. */
  method PutPair(buf: array<Sint16>, pos: int, pair: seq<Sint16>)
    requires 0 <= pos && pos + 2 <= buf.Length && |pair| == 2
    modifies buf
    ensures buf[..pos + 2] == old(buf[..pos]) + pair
  {
    buf[pos] := pair[0];
    buf[pos + 1] := pair[1];
  }
}
