# Oscilloscope vector graphics, modelled in Dafny

This project models the renderer of a small vector-graphics library for oscilloscopes. The
library draws on a scope through the sound card. A program builds a frame from `moveTo` and
`lineTo` calls, which append (x, y, weight) triples in 16-bit device space to a stroke list of
at most `MAX_POINTS` entries. `flip` renders the list into a PCM wave. Each segment becomes
`weight + 1` interleaved stereo sample pairs that walk the beam from one point to the next.
`setMode` can mirror either axis and swap the two channels. The wave is the waiting frame of
three frame slots. The audio callback plays the current frame in a loop and switches to the
waiting frame only when the current one ends.

A second renderer has the same API and draws into a square window instead of the scope. It
rasterises each line with Bresenham's algorithm. Its `plot` adds brightness to a pixel,
saturating at 255.

Modules:

- `Units`: the C integer types used (`Uint16`, `Sint16`, bytes) and `Option`.
- `Arith`: a few lemmas about integer division.
- `Mode`: the `setMode` bitmap, shared by both renderers.
- `Strokes`: how `lineTo` maps, clamps and weighs a point, and the shape of the stroke list.
- `Waveform`: the samples `sendFrame` writes for a stroke list, as functions (`Segment`, `Wave`).
- `Feeder`: frames as bytes, and the audio fill routine as the function `Play`.
- `Gfx`: class `Engine`, the oscilloscope renderer's globals and calls. Its methods keep the
  source's loops and are proved against the functions above.
- `Raster`: `clamp`, `iabs`, the Bresenham walk (`Step`, `Trace`, `Path`) and plotting on a
  brightness buffer (`PlotOne`, `PlotPath`).
- `GfxDebug`: class `Window`, the window renderer's globals and calls, with `plot` and
  `lineTo2` as methods over the pixel array.

The `double` arithmetic of the source is modelled with exact `real`s. The square root of
`lineTo`'s line length is not computed. The caller passes it as `lineLen`. A precondition
states that it is the length the source measures: from the stored previous point to the new
point after scaling and clamping, before the new point is truncated. I/O, the clock and the audio thread are not modelled:
every call, including the audio callback, is one atomic step on its object.

## Model

| member | source | states |
|---|---|---|
| Mode.MaskBit | src/gfx.c:261-265 | `mode & b` for a one-bit mask `b` is `b` or 0, and it is `b` exactly when that bit of `mode` is set, for negative modes too |
| Mode.DecodeEncode | src/gfx.h:109-114 | each orientation has a documented mode number in 0..7, and `setMode` of that number sets exactly those flags |
| Mode.LowBitsDetermineMode | src/gfx.h:109-114 | only bits 0, 1 and 2 matter: every mode sets the same flags as the mode modulo 8 |
| Strokes.ClampDevice | src/gfx.c:230-234 | the clamped device coordinate lies in [0, 65535] and is unchanged inside that range |
| Strokes.ClampIsNearest | src/gfx.c:230-234 | the clamped coordinate is the screen point nearest to the unclamped one |
| Strokes.DeviceCoordEdges | src/gfx.c:224-234 | a flat axis stores 32768; on a proper axis, points at or beyond the ends are stored at 0 and 65535 |
| Strokes.DeviceCoordMonotone | src/gfx.c:224-234 | on an increasing axis, a point further along is never stored further back |
| Strokes.SegmentBrightness | src/gfx.c:236-246 | a segment's step count before the cast is at least 1, and at least `color * len * targetWeight`, where a dwell gets the fixed length 0.05 |
| Strokes.BrightnessIsProductAboveOne | src/gfx.c:243-246 | above the floor of 1, the step count is exactly `color * len * targetWeight` |
| Strokes.StoredWeight | src/gfx.c:236-252 | the stored weight of every point after the first is at least 1 |
| Strokes.MoveWeightIsOne | src/gfx.c:213-247 | a `moveTo` after the first point costs exactly one step, whatever its length |
| Strokes.NextPoint | src/gfx.c:236-252 | the stored triple has weight 0 exactly when it is the first point of the list |
| Strokes.HalfScreenLine | src/gfx.c:236-252 | `lineTo(32767.9, 0, 1)` after a stored (0, 0) on a 0..65535 screen of weight 100 takes the length measured to the unrounded x, and stores (32767, 0, 50) |
| Strokes.AppendKeepsWellFormed | src/gfx.c:220-253 | appending keeps the list bounded, with a weight-0 first point and later weights of at least 1; with room, it adds one triple and keeps the earlier ones; when full, it changes nothing |
| Strokes.RepeatedPointDwells | src/gfx.c:236-246 | under the corrected measurement to the point as stored, a repeat of the point just stored is always below the dwell threshold and gets the brightness of the dwell length |
| Strokes.DwellMissedAsWritten | src/gfx.c:236-252 | as written, `lineTo(0.99, 0.99, 1)` after a stored (0, 0) on a 0..65535 screen of weight 100 is appendable, misses the dwell and stores (0, 0, 1), not the dwell's weight 5 |
| Waveform.BufSizeBounds | src/gfx.c:140-142 | each segment takes 1 to 65536 pairs, so a full list's byte count `4 * bufsiz` fits a 32-bit `int` |
| Waveform.BufSizePrefix | src/gfx.c:140-142 | the size sum over a prefix grows by `w + 1` per point and never exceeds the whole list's |
| Waveform.PositionClosed | src/gfx.c:153-172 | after `i` increments of `dX`, the beam is at `a + i * (b - a) / steps` |
| Waveform.PositionBetween | src/gfx.c:153-172 | during a segment, the beam stays between the two end points |
| Waveform.Coord | src/gfx.c:157-166 | the integer coordinate of every step lies within the segment's range, and step 0 is the start point |
| Waveform.SegmentStopsShort | src/gfx.c:147-175 | a rising segment's last pair is short of its target, which only the next segment's first pair reaches |
| Waveform.MirrorComplements | src/gfx.c:157-166 | mirroring an axis maps each sample `s` to `-1 - s`, so mirrored and unmirrored samples sum to -1; X and Y use opposite conventions |
| Waveform.SamplePair | src/gfx.c:157-173 | a pair holds the X sample in the channel `swapXY` selects and the Y sample in the other |
| Waveform.Segment | src/gfx.c:147-175 | a segment writes exactly `2 * (w + 1)` samples |
| Waveform.Wave | src/gfx.c:147-181 | the rendered frame has exactly `2 * bufsiz` samples, so the size diagnostic never fires |
| Waveform.WaveGrows | src/gfx.c:147-177 | one more point appends its segment to the end of the frame |
| Waveform.WavePrefix | src/gfx.c:147-177 | the frame of a prefix of the list is a prefix of the list's frame |
| Waveform.SegmentInFrame | src/gfx.c:147-177 | segment `j` sits in the frame from sample `2 * BufSize(pts[..j])` on |
| Waveform.SegmentStartsAtPreviousPoint | src/gfx.c:148-149 | each segment opens with the beam on the previous point |
| Waveform.SegmentSwap | src/gfx.c:167-173 | inside a segment, toggling `swapXY` exchanges the two channels of each pair |
| Waveform.SegmentMirror | src/gfx.c:157-166 | inside a segment, toggling a mirror complements that axis's samples and leaves the other axis's |
| Waveform.SwapExchangesChannels | src/gfx.c:147-177 | for a whole frame, toggling `swapXY` exchanges the channels of every pair and changes nothing else |
| Waveform.MirrorComplementsAxis | src/gfx.c:147-177 | for a whole frame, toggling mirror-X maps every X sample `s` to `-1 - s` and keeps every Y sample |
| Feeder.SampleBytesAt | src/gfx.c:108-110 | byte `k` of the sample memory is byte `k % 2` of sample `k / 2` |
| Feeder.FrameBytesRoundTrip | src/gfx.c:108-110 | reading the frame's bytes back two at a time gives its samples |
| Feeder.Play | src/gfx.c:103-127 | a fill leaves frames the fill loop can keep playing, with the offset inside the current frame |
| Feeder.PlayChunk | src/gfx.c:104-125 | one pass copies between 1 byte and the rest of the frame, and the request continues from the state it leaves |
| Feeder.PlayLength | src/gfx.c:101-127 | a fill writes exactly `len` bytes |
| Feeder.PlayLoops | src/gfx.c:103-126 | with nothing waiting, output byte `k` is byte `(pos + k) mod 4n` of the current frame, and `pos` advances by `len` modulo `4n` |
| Feeder.PlaySwapsAtBoundary | src/gfx.c:114-125 | with a frame waiting, the current frame plays to its end before the waiting one plays from byte 0; then the waiting frame is current and the slot is empty, and a request ending earlier keeps both slots |
| Feeder.InitFrameOverreads | src/gfx.c:80-85 | as written, the initial frame's count claims twice the pairs its buffer holds, so the fill routine would read twice the bytes there are |
| Feeder.InitFrame | src/gfx.c:80-85 | the corrected initial frame holds `buffer/4` silent pairs, exactly what its count claims, and at least one pair when `buffer >= 4` |
| Gfx.AudioConfig | src/gfx.c:63-65 | a non-positive frequency becomes 44100 and a non-positive buffer size 1024; other values are kept |
| Gfx.RefreshRate | src/gfx.c:184 | the refresh rate times the frame's pair count is the frequency; a frame of no pairs has no finite rate |
| Gfx.Engine.constructor | src/gfx.c:59-92 | after `gfxInit`: the defaulted frequency, an empty stroke list, a silent current frame, no waiting frame, the default scale, no mirroring |
| Gfx.Engine.SetScale | src/gfx.c:204-210 | stores the screen rectangle and the target weight |
| Gfx.Engine.SetMode | src/gfx.c:261-265 | the three flags are bits 0, 1 and 2 of `mode`, and the orientation is `Decode(mode)` |
| Gfx.Engine.LineTo | src/gfx.c:220-254 | when full, nothing changes; otherwise the stroke list becomes `Append` of the old one, with `work.n` up by one and only entry `work.n` of the array written |
| Gfx.Engine.MoveTo | src/gfx.c:213-215 | a `lineTo` of colour 0, with the same effect on the list |
| Gfx.Engine.FrameSize | src/gfx.c:140-142 | the size loop computes `BufSize` of the stroke list, and `4 * bufsiz` fits an `int` |
| Gfx.Engine.RenderFrame | src/gfx.c:144-177 | the rendered buffer is `Wave` of the stroke list under the current orientation |
| Gfx.Engine.SendFrame | src/gfx.c:133-199 | the waiting slot holds the rendered frame of `BufSize` pairs, replacing any waiting frame; the current frame and the list are untouched |
| Gfx.Engine.Flip | src/gfx.c:256-259 | stages the rendered list, replacing any waiting frame, and sets the refresh rate from its size, then empties the list only for a non-zero `clear` |
| Gfx.Engine.FillAudio | src/gfx.c:95-128 | the callback produces `Play`'s bytes and state, exactly `len` bytes, and afterwards `0 <= pos < 4 * currFrame.n` |
| Gfx.CopyOut | src/gfx.c:103-127 | the fill loop yields exactly `Play`'s bytes and final state |
| Gfx.CopyPass | src/gfx.c:104-126 | one pass copies `ToCopy` bytes from the offset, rewinds or swaps at the frame end as `AfterCopy` says, and the `frameLeft < 0` diagnostic cannot fire |
| Gfx.RenderStrokes | src/gfx.c:144-177 | the render loop over the stroke array fills a new buffer with exactly `Wave` of the list |
| Gfx.RenderSegment | src/gfx.c:148-175 | the inner loop appends exactly `Segment(p, q)` after the samples already written and keeps them |
| Raster.Clamp | src/gfx_debug.c:82-86 | the result lies in [0, SIZE-1], equals `n` inside that range, and is 0 or SIZE-1 outside it |
| Raster.Iabs | src/gfx_debug.c:78-80 | the result is non-negative and is `x` or `-x` |
| Raster.StartOnTrack | src/gfx_debug.c:93-97 | the set-up of `lineTo2` starts the walk on track with `dx + dy` unit moves owed |
| Raster.StepOnTrack | src/gfx_debug.c:99-111 | a pass before the end stays on track, owes fewer moves, and moves one pixel at most on each axis, never away from the end |
| Raster.Trace | src/gfx_debug.c:99-111 | the walk from a cursor begins at the cursor and ends at (x1, y1) |
| Raster.Path | src/gfx_debug.c:90-112 | the walk plots (x0, y0) first and (x1, y1) last |
| Raster.TraceAdjacent | src/gfx_debug.c:99-111 | each plotted pixel differs from the one before, by at most 1 on each axis, and is no farther from the end |
| Raster.TraceLength | src/gfx_debug.c:99-111 | the walk ends after at most `dx + dy` moves, so the loop terminates |
| Raster.PathLength | src/gfx_debug.c:90-112 | the walk plots exactly `max(dx, dy) + 1` pixels |
| Raster.OffsetInjective | src/gfx_debug.c:54 | distinct on-screen pixels have distinct buffer offsets |
| Raster.PlotOne | src/gfx_debug.c:38-65 | an off-screen plot changes nothing; an on-screen plot sets only its pixel, to `min(old + bright, 255)` |
| Raster.Hits | src/gfx_debug.c:90-112 | a path visits a buffer offset at most as many times as it has pixels |
| Raster.GainCountsHits | src/gfx_debug.c:53-60 | what a path adds to a pixel before saturation is `bright` times the pixel's visits |
| Raster.SaturateTwice | src/gfx_debug.c:53-60 | two saturating adds are one saturating add of the sum |
| Raster.PlotPathAt | src/gfx_debug.c:53-60 | after a path, each pixel is `min(old + bright * visits, 255)` |
| Raster.OverdrawAdds | src/gfx_debug.c:53-60 | two lines over one buffer add their brightness up to white, whichever is drawn first |
| GfxDebug.Trunc | src/gfx_debug.c:119-122 | C's `(int)` conversion rounds toward zero |
| GfxDebug.ScreenCoord | src/gfx_debug.c:119-122 | every mapped coordinate lies in the window, and one inside the rectangle keeps the two-pixel margin unclamped |
| GfxDebug.SwapTransposes | src/gfx_debug.c:132-139 | toggling `swapXY` transposes the oriented end point |
| GfxDebug.OrientedOnScreen | src/gfx_debug.c:124-131 | an oriented pixel lies in [0, SIZE], and it is on screen exactly when no mirrored axis sends its 0 edge to `SIZE` |
| GfxDebug.MirroredEdgeDropped | src/gfx_debug.c:124-131 | a line end clamped to 0 on a mirrored axis is dropped by `plot` |
| GfxDebug.Shade | src/gfx_debug.c:116-117 | the shade is `weight * 245 + 10` truncated, and a weight of 0 still shows at 10 |
| GfxDebug.Plot | src/gfx_debug.c:38-65 | the pixel array becomes `PlotOne` of the old one |
| GfxDebug.LineTo2 | src/gfx_debug.c:90-112 | the loop plots, in order, every pixel of `Path` of the line and terminates |
| GfxDebug.Advance | src/gfx_debug.c:102-110 | one pass after the plot is the walk's `Step` |
| GfxDebug.OrientEnds | src/gfx_debug.c:124-139 | the flag tests map both end points by `OrientPixel` |
| GfxDebug.Window.constructor | src/gfx_debug.c:24-36 | a black `SIZE` by `SIZE` window, a zero cursor and rectangle, and no flags |
| GfxDebug.Window.SetScale | src/gfx_debug.c:67-72 | stores the rectangle and ignores the weight |
| GfxDebug.Window.LineTo | src/gfx_debug.c:114-161 | plots the path of `WindowLine` from the old cursor to (x, y), mapped and oriented, in `Shade(weight)`, and moves the cursor to (x, y) |
| GfxDebug.Window.MoveTo | src/gfx_debug.c:74-76 | draws the same line in the dim shade 10 and moves the cursor |
| GfxDebug.Window.Flip | src/gfx_debug.c:163-169 | blackens every pixel for a non-zero `clear`, and leaves the pixels otherwise |
| GfxDebug.Window.SetMode | src/gfx_debug.c:171-175 | the three flags are bits 0, 1 and 2 of `mode` |

## Left out

- Concurrency: the audio callback and `sendFrame` race on `nextFrame` in the source. Here each call is one atomic method of `Gfx.Engine`.
- SDL and libc: opening audio, pausing, the video mode, surface locking, `SDL_UpdateRect` and the warnings on stderr are not modelled. `malloc`, `free` and `memcpy` become fresh arrays, sequence replacement and slicing.
- The `exit(1)` when `SDL_OpenAudio` or `SDL_SetVideoMode` fails is not modelled; both constructors assume the device opened.
- Floating point: every `double` is an exact `real`. `sqrt` is not computed: `lineLen` is a parameter whose square is required to be the squared distance `lineTo` measures.
- Gfx.RenderSegment: the `X += dX` steps are exact, so rounding drift over a long segment is not captured.
- The commented-out debug output in `sendFrame` is not modelled.
- Undefined conversions are preconditions, not behaviour. `Appendable` requires the step count to fit a `Uint16`. In the window renderer, `Mappable` and `Shadeable` require a non-flat axis, an `int`-sized scaled coordinate and a shade that fits a byte.
- `malloc(0)` for a list of fewer than two points is taken to return a non-NULL pointer, so it stages a frame of no pairs.
- Gfx.Engine.FillAudio: requires both slots to hold at least one pair. With a frame of no pairs the source's fill loop never ends, and the refresh rate divides by zero (modelled as `None`).
- Gfx.Engine.constructor: SDL's `samples` field is 16 bits wide, so a buffer size above 65535 would be truncated; the model keeps it whole.
- The engine measures lengths as the source does. The corrected dwell rule of the second finding below, `MeasuredToStored`, is stated beside it in `Strokes.RepeatedPointDwells` and is not run by the engine.
- Feeder.SampleByte: `AUDIO_S16SYS` is the machine's native byte order. The model fixes it to little-endian, low byte first, and does not cover a big-endian host.
- The stroke list is an `array<Point>` of triples, not a flat `Uint16` array of `3 * MAX_POINTS` entries.
- `getRefreshRate` in both renderers is not a member. It only returns `g_refresh`, whose value `Gfx.Engine.SendFrame` and `Gfx.Engine.Flip` state, or 0.0 in the window renderer.
- GfxDebug.Plot: the 16-bit surface stores red in 5 bits, so `SDL_GetRGB` reads back a rounded brightness. The model keeps the exact 8-bit sum, and pixels are addressed row by row without row padding.
- GfxDebug.Window.LineTo: `LINEWIDTH` is 1, so the thickening loops of both branches run no pass and only the single `lineTo2` call is modelled.
- The window's title caption is not modelled.

## Findings

| source | as written | input that shows it | evidently intended | confidence | as-written member | corrected member |
|---|---|---|---|---|---|---|
| src/gfx.c:80-85 | `currFrame.n = samples/4*channels` counts samples, while the fill routine reads `4 * n` bytes, i.e. `n` pairs | `gfxInit(44100, 1024)`: a 1024-byte buffer and `n = 512`, so the fill routine reads 2048 bytes | `n = samples/4`, the pair count of the same silent buffer | high, not executed | Feeder.InitFrameOverreads | Feeder.InitFrame |
| src/gfx.c:236-252 | the dwell test measures from the stored, truncated previous point to the new point before its own truncation | `moveTo(0.99, 0.99)`, then `lineTo(0.99, 0.99, 1)` with scale 0..65535 and weight 100: both store (0, 0), but the length 1.4/65535 passes the threshold, giving weight 1 | a repeated stored point is a dwell, weighted by the dwell length (weight 5 here) | low, not executed | Strokes.DwellMissedAsWritten | Strokes.RepeatedPointDwells |
