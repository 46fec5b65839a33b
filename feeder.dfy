/** Rendered frames and the audio fill routine `cb_fill_audio` of `src/gfx.c`, as a function of
    the frame slots: the current frame is played in a loop, and a waiting frame takes over only
    when the current one reaches its end. */
module Feeder {
  import opened Units
  import opened Arith

  /** A rendered frame: its samples, left and right interleaved, and `n`, its number of pairs. */
  datatype Frame = Frame(samples: seq<Sint16>, n: int)

  /** A frame whose buffer holds exactly the `2 * n` samples its count claims. */
  predicate ValidFrame(f: Frame) {
    f.n >= 0 && |f.samples| == 2 * f.n
  }

  /** Byte `b` (0 is the low byte) of a sample in 16-bit two's complement: `AUDIO_S16SYS` on a
      little-endian machine. */
  function SampleByte(s: Sint16, b: nat): Byte
    requires b < 2
  {
    var u := s % 0x1_0000;
    if b == 0 then u % 0x100 else u / 0x100
  }

  /** The sample a player reads back from its two bytes. */
  function SampleOf(lo: Byte, hi: Byte): Sint16 {
    var u := lo + 0x100 * hi;
    if u >= 0x8000 then u - 0x1_0000 else u
  }

  /** A sample buffer's memory: each sample as its low byte, then its high byte. */
  function SampleBytes(ss: seq<Sint16>): (b: seq<Byte>)
    ensures |b| == 2 * |ss|
  {
    if |ss| == 0 then []
    else SampleBytes(ss[..|ss| - 1]) + [SampleByte(ss[|ss| - 1], 0), SampleByte(ss[|ss| - 1], 1)]
  }

  /** Byte `k` of a sample buffer is byte `k % 2` of sample `k / 2`. */
  lemma {:induction false} SampleBytesAt(ss: seq<Sint16>, k: int)
    requires 0 <= k < 2 * |ss|
    ensures SampleBytes(ss)[k] == SampleByte(ss[k / 2], k % 2)
    decreases |ss|
  {
    var m := |ss| - 1;
    if k < 2 * m {
      SampleBytesAt(ss[..m], k);
      assert ss[..m][k / 2] == ss[k / 2];
    } else {
      assert k / 2 == m;
    }
  }

  /** The frame's memory as the byte copy sees it. */
  function FrameBytes(f: Frame): (b: seq<Byte>)
    ensures |b| == 2 * |f.samples|
  {
    SampleBytes(f.samples)
  }

  /** Reading the bytes of a frame back two at a time gives its samples. */
  lemma FrameBytesRoundTrip(f: Frame, i: nat)
    requires i < |f.samples|
    ensures SampleOf(FrameBytes(f)[2 * i], FrameBytes(f)[2 * i + 1]) == f.samples[i]
  {
    SampleBytesAt(f.samples, 2 * i);
    SampleBytesAt(f.samples, 2 * i + 1);
    assert (2 * i) / 2 == i && (2 * i) % 2 == 0;
    assert (2 * i + 1) / 2 == i && (2 * i + 1) % 2 == 1;
    var s: int := f.samples[i];
    var u: int := s % 0x1_0000;
    assert u == if s < 0 then s + 0x1_0000 else s;
    assert u == u % 0x100 + 0x100 * (u / 0x100);
  }

  /** The two frame slots and the byte offset `pos` into the current frame (the fill routine's
      `static int pos`). */
  datatype PlayState = PlayState(curr: Frame, next: Option<Frame>, pos: int)

  /** What the fill routine needs to make progress: well-formed frames of at least one pair, and
      an offset inside the current frame. */
  predicate Playable(s: PlayState) {
    && ValidFrame(s.curr) && s.curr.n >= 1
    && 0 <= s.pos < 4 * s.curr.n
    && (s.next.Some? ==> ValidFrame(s.next.value) && s.next.value.n >= 1)
  }

  /** The bytes a fill request for `left` bytes copies and the state it leaves behind: copy to
      the end of the current frame or to the end of the request, whichever comes first; at the
      end of the frame rewind, taking the waiting frame if there is one. */
  function Play(s: PlayState, left: int): (r: (seq<Byte>, PlayState))
    requires Playable(s)
    ensures Playable(r.1)
    decreases left
  {
    if left <= 0 then ([], s)
    else
      var bytes := FrameBytes(s.curr);
      var frameLeft := 4 * s.curr.n - s.pos;
      if left < frameLeft then
        (bytes[s.pos..s.pos + left], s.(pos := s.pos + left))
      else
        var s' := if s.next.Some? then PlayState(s.next.value, None, 0) else s.(pos := 0);
        var rest := Play(s', left - frameLeft);
        (bytes[s.pos..] + rest.0, rest.1)
  }

  /** The state after one pass of the fill loop: `toCopy` bytes in, and a rewind, taking the
      waiting frame if there is one, when the current frame ran out. */
  function AfterCopy(s: PlayState, toCopy: int): PlayState {
    if s.pos + toCopy < 4 * s.curr.n then s.(pos := s.pos + toCopy)
    else if s.next.Some? then PlayState(s.next.value, None, 0)
    else s.(pos := 0)
  }

  /** The bytes one pass of the fill loop copies: up to the end of the frame or of the request. */
  function ToCopy(s: PlayState, left: int): int {
    var frameLeft := 4 * s.curr.n - s.pos;
    if frameLeft < left then frameLeft else left
  }

  /** One pass of the fill loop: the request continues from the state `AfterCopy` leaves. */
  lemma PlayChunk(s: PlayState, left: int)
    requires Playable(s) && left > 0
    ensures 0 < ToCopy(s, left) <= 4 * s.curr.n - s.pos
    ensures Playable(AfterCopy(s, ToCopy(s, left)))
    ensures var s1 := AfterCopy(s, ToCopy(s, left));
            Play(s, left) == (FrameBytes(s.curr)[s.pos..s.pos + ToCopy(s, left)] + Play(s1, left - ToCopy(s, left)).0,
                              Play(s1, left - ToCopy(s, left)).1)
  {
    var bytes := FrameBytes(s.curr);
    var frameLeft := 4 * s.curr.n - s.pos;
    if left < frameLeft {
      assert bytes[s.pos..s.pos + left] + [] == bytes[s.pos..s.pos + left];
    } else {
      assert bytes[s.pos..s.pos + frameLeft] == bytes[s.pos..];
    }
  }

  /** A fill that has produced `stream` and still owes `left` bytes from state `s` is on its
      way to the whole answer `Play(s0, len)`. */
  predicate Resumes(s0: PlayState, len: int, stream: seq<Byte>, s: PlayState, left: int)
    requires Playable(s0) && Playable(s)
  {
    Play(s0, len).0 == stream + Play(s, left).0 && Play(s0, len).1 == Play(s, left).1
  }

  /** A fill starts on its way, having produced nothing. */
  lemma PlayStarts(s0: PlayState, len: int)
    requires Playable(s0)
    ensures Resumes(s0, len, [], s0, len)
  {
    assert [] + Play(s0, len).0 == Play(s0, len).0;
  }

  /** One pass of the fill loop, copying `chunk` and leaving state `s1` and `left1` bytes to
      go, keeps a fill on its way. */
  lemma PlayResume(s0: PlayState, len: int, stream: seq<Byte>, s: PlayState, left: int,
                   chunk: seq<Byte>, s1: PlayState, left1: int)
    requires Playable(s0) && Playable(s) && left > 0
    requires Resumes(s0, len, stream, s, left)
    requires chunk == FrameBytes(s.curr)[s.pos..s.pos + ToCopy(s, left)]
    requires s1 == AfterCopy(s, ToCopy(s, left)) && left1 == left - ToCopy(s, left)
    ensures Playable(s1) && Resumes(s0, len, stream + chunk, s1, left1)
  {
    PlayChunk(s, left);
    var rest := Play(s1, left1);
    assert stream + (chunk + rest.0) == (stream + chunk) + rest.0;
  }

  /** A fill that owes nothing more is complete. */
  lemma PlayFinished(s0: PlayState, len: int, stream: seq<Byte>, s: PlayState, left: int)
    requires Playable(s0) && Playable(s) && left <= 0
    requires Resumes(s0, len, stream, s, left)
    ensures Play(s0, len) == (stream, s)
  {
    assert stream + [] == stream;
  }

  /** A request is always filled completely. */
  lemma {:induction false} PlayLength(s: PlayState, len: int)
    requires Playable(s) && len >= 0
    ensures |Play(s, len).0| == len
    decreases len
  {
    if len > 0 && len >= 4 * s.curr.n - s.pos {
      var s' := if s.next.Some? then PlayState(s.next.value, None, 0) else s.(pos := 0);
      PlayLength(s', len - (4 * s.curr.n - s.pos));
    }
  }

  /** With nothing waiting, the current frame plays in a loop: output byte `k` is byte
      `(pos + k) mod 4n` of the current frame, and the offset advances by the request length
      modulo the frame size. */
  lemma {:induction false} PlayLoops(s: PlayState, len: int)
    requires Playable(s) && s.next.None? && len >= 0
    ensures var L := 4 * s.curr.n;
            Play(s, len).1 == s.(pos := (s.pos + len) % L)
    ensures var L := 4 * s.curr.n;
            |Play(s, len).0| == len &&
            forall k :: 0 <= k < len ==> Play(s, len).0[k] == FrameBytes(s.curr)[(s.pos + k) % L]
    decreases len
  {
    var L := 4 * s.curr.n;
    var frameLeft := L - s.pos;
    PlayLength(s, len);
    if len < frameLeft {
      ModOfSmall(s.pos + len, L);
    } else {
      PlayLoops(s.(pos := 0), len - frameLeft);
      ModAddPeriod(len - frameLeft, L);
      assert s.pos + len == (len - frameLeft) + L;
    }
    forall k | 0 <= k < len ensures Play(s, len).0[k] == FrameBytes(s.curr)[(s.pos + k) % L] {
      PlayLoopsAt(s, len, k);
    }
  }

  /** Byte `k` of a request with nothing waiting, one index at a time. */
  lemma {:induction false} PlayLoopsAt(s: PlayState, len: int, k: int)
    requires Playable(s) && s.next.None? && 0 <= k < len
    ensures |Play(s, len).0| == len
    ensures Play(s, len).0[k] == FrameBytes(s.curr)[(s.pos + k) % (4 * s.curr.n)]
    decreases len
  {
    var L := 4 * s.curr.n;
    var bytes := FrameBytes(s.curr);
    var frameLeft := L - s.pos;
    PlayLength(s, len);
    if k < frameLeft {
      ModOfSmall(s.pos + k, L);
      if len < frameLeft {
        assert Play(s, len).0 == bytes[s.pos..s.pos + len];
      } else {
        assert Play(s, len).0 == bytes[s.pos..] + Play(s.(pos := 0), len - frameLeft).0;
      }
    } else {
      var s' := s.(pos := 0);
      assert Play(s, len).0 == bytes[s.pos..] + Play(s', len - frameLeft).0;
      PlayLoopsAt(s', len - frameLeft, k - frameLeft);
      ModAddPeriod(k - frameLeft, L);
      assert s.pos + k == (k - frameLeft) + L;
    }
  }

  /** With a frame waiting, a request that ends inside the current frame copies from it and
      keeps the waiting frame; a request that reaches the end of the current frame copies its
      rest, then plays the waiting frame in a loop from its start, which becomes current while
      the waiting slot empties. A frame is never left part-way for the new one. */
  lemma PlaySwapsAtBoundary(s: PlayState, len: int)
    requires Playable(s) && s.next.Some? && len >= 0
    ensures var F := 4 * s.curr.n - s.pos;
            len < F ==> Play(s, len) == (FrameBytes(s.curr)[s.pos..s.pos + len], s.(pos := s.pos + len))
    ensures var F, nx := 4 * s.curr.n - s.pos, s.next.value;
            len >= F ==> Play(s, len).1 == PlayState(nx, None, (len - F) % (4 * nx.n))
    ensures |Play(s, len).0| == len
    ensures var F, nx := 4 * s.curr.n - s.pos, s.next.value;
            forall k :: F <= k < len ==> Play(s, len).0[k] == FrameBytes(nx)[(k - F) % (4 * nx.n)]
    ensures var F := 4 * s.curr.n - s.pos;
            forall k :: 0 <= k < len && k < F ==> Play(s, len).0[k] == FrameBytes(s.curr)[s.pos + k]
  {
    var F, nx := 4 * s.curr.n - s.pos, s.next.value;
    PlayLength(s, len);
    if len >= F {
      var s' := PlayState(nx, None, 0);
      PlayLoops(s', len - F);
      var rest := Play(s', len - F);
      assert Play(s, len).0 == FrameBytes(s.curr)[s.pos..] + rest.0;
      forall k | F <= k < len ensures Play(s, len).0[k] == FrameBytes(nx)[(k - F) % (4 * nx.n)] {
        assert Play(s, len).0[k] == rest.0[k - F];
      }
    } else if len == 0 {
      assert FrameBytes(s.curr)[s.pos..s.pos] == [];
    }
  }

  /** `count` zero samples. */
  function Silence(count: nat): (z: seq<Sint16>)
    ensures |z| == count && forall i :: 0 <= i < count ==> z[i] == 0
  {
    seq(count, _ => 0)
  }

  /** The silent frame `gfxInit` starts with, as written: `buffer/4*2` zero samples with `n`
      set to that same number, though `n` counts pairs and the fill routine reads `4 * n` bytes. */
  function InitFrameAsWritten(buffer: int): Frame
    requires buffer > 0
  {
    Frame(Silence(buffer / 4 * 2), buffer / 4 * 2)
  }

  /** As written, every buffer size of 4 or more gives a frame whose count claims twice the pairs
      its buffer holds; with the default 1024 the fill routine reads 2048 bytes out of 1024. */
  lemma InitFrameOverreads(buffer: int)
    requires buffer >= 4
    ensures !ValidFrame(InitFrameAsWritten(buffer))
    ensures 4 * InitFrameAsWritten(buffer).n == 2 * |FrameBytes(InitFrameAsWritten(buffer))|
    ensures buffer == 1024 ==> |FrameBytes(InitFrameAsWritten(buffer))| == 1024 && 4 * InitFrameAsWritten(buffer).n == 2048
  {
  }

  /** The initial frame with its count in pairs: the same `buffer/4*2` zero samples, `buffer/4`
      pairs. It is silent and well formed, and it has at least one pair exactly when the buffer
      size is at least 4. */
  function InitFrame(buffer: int): (f: Frame)
    requires buffer > 0
    ensures ValidFrame(f) && f.n == buffer / 4
    ensures forall i :: 0 <= i < |f.samples| ==> f.samples[i] == 0
    ensures f.n >= 1 <==> buffer >= 4
  {
    Frame(Silence(buffer / 4 * 2), buffer / 4)
  }
}
