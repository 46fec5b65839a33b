/** The orientation bitmap of `setMode`, shared by the audio and the window renderer:
    bit 0 mirrors X, bit 1 mirrors Y, bit 2 swaps the axes. */
module Mode {
  import opened Arith

  /** `mode & b` in C for a one-bit mask `b`, read on the two's-complement form of `mode`.
      Dafny's `%` is Euclidean, so `mode % 2b - mode % b` is exactly that bit, times `b`,
      for negative modes too. */
  function MaskBit(mode: int, b: int): (r: int)
    requires b == 1 || b == 2 || b == 4
    ensures r == 0 || r == b
    ensures r == b <==> (mode / b) % 2 == 1
  {
    if b == 1 then mode % 2
    else if b == 2 then BitAt2(mode)
    else BitAt4(mode)
  }

  function BitAt2(mode: int): (r: int)
    ensures r == 0 || r == 2
    ensures r == 2 <==> (mode / 2) % 2 == 1
  {
    var q := mode / 4;
    assert mode == 4 * q + mode % 4;
    assert mode / 2 == 2 * q + (mode % 4) / 2;
    mode % 4 - mode % 2
  }

  function BitAt4(mode: int): (r: int)
    ensures r == 0 || r == 4
    ensures r == 4 <==> (mode / 4) % 2 == 1
  {
    var q := mode / 8;
    assert mode == 8 * q + mode % 8;
    assert mode / 4 == 2 * q + (mode % 8) / 4;
    assert mode % 4 == (mode % 8) % 4;
    mode % 8 - mode % 4
  }

  /** The three orientation flags as the renderers test them (a flag is set when non-zero). */
  datatype Orientation = Orientation(mirrorX: bool, mirrorY: bool, swapAxes: bool)

  /** The flags that `setMode(mode)` leaves behind. */
  function Decode(mode: int): Orientation {
    Orientation(MaskBit(mode, 1) != 0, MaskBit(mode, 2) != 0, MaskBit(mode, 4) != 0)
  }

  /** The documented bitmap: 1 mirrors X, 2 mirrors Y, 4 swaps the axes. */
  function Encode(o: Orientation): (mode: int)
    ensures 0 <= mode < 8
  {
    (if o.mirrorX then 1 else 0) + (if o.mirrorY then 2 else 0) + (if o.swapAxes then 4 else 0)
  }

  /** Decoding the documented mode number of an orientation gives the same flags back. */
  lemma DecodeEncode(o: Orientation)
    ensures Decode(Encode(o)) == o
  {
    var x, y, z := if o.mirrorX then 1 else 0, if o.mirrorY then 1 else 0, if o.swapAxes then 1 else 0;
    var m := Encode(o);
    assert m == x + 2 * y + 4 * z;
    assert m % 2 == x;
    assert m % 4 == x + 2 * y;
    assert m % 8 == m;
  }

  /** Only bits 0, 1 and 2 matter: every mode decodes like its remainder modulo 8. */
  lemma LowBitsDetermineMode(mode: int)
    ensures Decode(mode) == Decode(mode % 8)
  {
    var q, r := mode / 8, mode % 8;
    ModOfSmall(r, 8);
    DivModUnique(mode, 4, 2 * q + r / 4, r % 4);
    DivModUnique(mode, 2, 4 * q + r / 2, r % 2);
    assert MaskBit(mode, 1) == MaskBit(r, 1);
    assert MaskBit(mode, 2) == MaskBit(r, 2);
    assert MaskBit(mode, 4) == MaskBit(r, 4);
  }
}
