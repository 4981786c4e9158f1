/**
 * The pixel passes of the image preprocessing: a grayscale pass over an RGBA
 * buffer (run twice, once as "edge detection"), then a dilation that
 * thickens bright regions with a 3x3 cross kernel.  A buffer holds four bytes
 * per pixel, R, G, B and alpha, row by row; it is the `data` of a canvas
 * `ImageData`, a `Uint8ClampedArray`.
 */
module Pixels {

  type Byte = x: int | 0 <= x < 256

  /**
   * The store into a `Uint8ClampedArray`: clamp to [0, 255], then round to the
   * nearest integer, halves to even.
   */
  function ToUint8Clamp(v: real): (b: Byte)
    ensures v <= 0.0 ==> b == 0
    ensures v >= 255.0 ==> b == 255
    ensures 0.0 <= v <= 255.0 ==> v - 0.5 <= b as real <= v + 0.5
  {
    if v <= 0.0 then 0
    else if v >= 255.0 then 255
    else
      var f := v.Floor;
      var frac := v - f as real;
      if frac < 0.5 then f
      else if frac > 0.5 then f + 1
      else if f % 2 == 0 then f else f + 1
  }

  /** The value stored for a pixel's average: `(r + g + b) / 3` through the clamped store. */
  function StoredAverage(r: Byte, g: Byte, b: Byte): Byte
  {
    ToUint8Clamp((r as int + g + b) as real / 3.0)
  }

  /** The average of three channels rounded to the nearest integer; a third is never a half. */
  function RoundedThird(r: Byte, g: Byte, b: Byte): Byte
  {
    (r as int + g + b + 1) / 3
  }

  /** The clamped store of the exact average is the rounded third. */
  lemma StoredAverageIsRoundedThird(r: Byte, g: Byte, b: Byte)
    ensures StoredAverage(r, g, b) == RoundedThird(r, g, b)
  {
    var s := r as int + g + b;
    var q, m := s / 3, s % 3;
    assert s == 3 * q + m;
    var v := s as real / 3.0;
    assert v == q as real + m as real / 3.0;
    assert v.Floor == q;
    if v > 0.0 && v < 255.0 {
      assert v - q as real == m as real / 3.0;
    }
  }

  /** The rounded third lies between the smallest and the largest of the three channels. */
  lemma RoundedThirdBetweenChannels(r: Byte, g: Byte, b: Byte)
    ensures RoundedThird(r, g, b) >= r || RoundedThird(r, g, b) >= g || RoundedThird(r, g, b) >= b
    ensures RoundedThird(r, g, b) <= r || RoundedThird(r, g, b) <= g || RoundedThird(r, g, b) <= b
    ensures r == g == b ==> RoundedThird(r, g, b) == r
  {
  }

  /** A gray pixel's average is its own value. */
  lemma RoundedThirdOfGray(v: Byte)
    ensures RoundedThird(v, v, v) == v
  {
    assert v as int + v + v + 1 == 3 * v + 1;
  }

  // ---------------------------------------------------------------------
  // Grayscale

  /** Every pixel of the buffer is gray: its three colour bytes are equal. */
  predicate IsGray(s: seq<Byte>)
    decreases |s|
  {
    |s| < 4 || (IsGray(s[..|s| - 4]) && s[|s| - 4] == s[|s| - 3] == s[|s| - 2])
  }

  /**
   * The buffer after the grayscale pass, built pixel by pixel from the end:
   * each colour byte replaced by its pixel's rounded average, each alpha byte
   * kept.  Whole pixels only; a buffer shorter than a pixel is kept.
   */
  function Grayscaled(s: seq<Byte>): (t: seq<Byte>)
    ensures |t| == |s|
    decreases |s|
  {
    if |s| < 4 then s
    else
      var n := |s| - 4;
      var avg := RoundedThird(s[n], s[n + 1], s[n + 2]);
      Grayscaled(s[..n]) + [avg, avg, avg, s[n + 3]]
  }

  /** Pixel `p` of a buffer `4 * pixels` bytes long, read in the last pixel's terms. */
  lemma {:induction false} GrayscaledPixel(s: seq<Byte>, p: nat, pixels: nat)
    requires |s| == 4 * pixels && p < pixels
    ensures var t, avg := Grayscaled(s), RoundedThird(s[4 * p], s[4 * p + 1], s[4 * p + 2]);
      t[4 * p] == avg && t[4 * p + 1] == avg && t[4 * p + 2] == avg && t[4 * p + 3] == s[4 * p + 3]
    decreases pixels
  {
    var n := |s| - 4;
    if p < pixels - 1 {
      GrayscaledPixel(s[..n], p, pixels - 1);
      assert Grayscaled(s)[..n] == Grayscaled(s[..n]);
    }
  }

  /** The pass leaves every pixel gray. */
  lemma {:induction false} GrayscaledIsGray(s: seq<Byte>)
    ensures IsGray(Grayscaled(s))
    decreases |s|
  {
    if |s| >= 4 {
      var n := |s| - 4;
      GrayscaledIsGray(s[..n]);
      assert Grayscaled(s)[..n] == Grayscaled(s[..n]);
    }
  }

  /** A gray buffer is left as it is. */
  lemma {:induction false} GrayscaledFixesGray(s: seq<Byte>)
    requires IsGray(s)
    ensures Grayscaled(s) == s
    decreases |s|
  {
    if |s| >= 4 {
      var n := |s| - 4;
      GrayscaledFixesGray(s[..n]);
      RoundedThirdOfGray(s[n]);
      LastPixel(s);
    }
  }

  /** A buffer is its front followed by its last four bytes. */
  lemma LastPixel(s: seq<Byte>)
    requires |s| >= 4
    ensures s == s[..|s| - 4] + [s[|s| - 4], s[|s| - 3], s[|s| - 2], s[|s| - 1]]
  {
  }

  /** The second pass of the same loop changes nothing: the pass is idempotent. */
  lemma GrayscaledIdempotent(s: seq<Byte>)
    ensures Grayscaled(Grayscaled(s)) == Grayscaled(s)
  {
    GrayscaledIsGray(s);
    GrayscaledFixesGray(Grayscaled(s));
  }

  /** Visiting the pixel at byte `i` writes its rounded average over its three colour bytes. */
  lemma GrayscaledStep(original: seq<Byte>, i: nat)
    requires i + 4 <= |original|
    ensures var current := Grayscaled(original[..i]) + original[i..];
      current[i] == original[i] && current[i + 1] == original[i + 1] && current[i + 2] == original[i + 2]
    ensures var v := RoundedThird(original[i], original[i + 1], original[i + 2]);
      (Grayscaled(original[..i]) + original[i..])[i := v][i + 1 := v][i + 2 := v]
      == Grayscaled(original[..i + 4]) + original[i + 4..]
  {
    GrayscaledLastPixel(original[..i + 4]);
    assert original[..i + 4][..i] == original[..i];
    assert original[i..] == [original[i], original[i + 1], original[i + 2], original[i + 3]] + original[i + 4..];
  }

  /** The last pixel of the grayscaled buffer is the grayscaled last pixel. */
  lemma GrayscaledLastPixel(s: seq<Byte>)
    requires |s| >= 4
    ensures var n := |s| - 4;
      var v := RoundedThird(s[n], s[n + 1], s[n + 2]);
      Grayscaled(s) == Grayscaled(s[..n]) + [v, v, v, s[n + 3]]
  {
  }

  /** Before the first pixel nothing is grayscaled; after the last one everything is. */
  lemma GrayscaledEnds(original: seq<Byte>)
    ensures Grayscaled(original[..0]) + original[0..] == original
    ensures Grayscaled(original[..|original|]) + original[|original|..] == Grayscaled(original)
  {
    assert original[..0] == [] && original[0..] == original;
    assert original[..|original|] == original && original[|original|..] == [];
  }

  /**
   * The body of the grayscale loop for the pixel at byte `i`: the exact
   * average of R, G and B is stored, through the clamped store, into all
   * three colour bytes.
   */
  method GrayPixel(data: array<Byte>, i: nat)
    requires i + 2 < data.Length
    modifies data
    ensures var before := old(data[..]);
      var v := RoundedThird(before[i], before[i + 1], before[i + 2]);
      data[..] == before[i := v][i + 1 := v][i + 2 := v]
  {
    StoredAverageIsRoundedThird(data[i], data[i + 1], data[i + 2]);
    var avg := (data[i] as int + data[i + 1] + data[i + 2]) as real / 3.0;
    data[i] := ToUint8Clamp(avg);
    data[i + 1] := ToUint8Clamp(avg);
    data[i + 2] := ToUint8Clamp(avg);
  }

  /** The grayscale loop: each colour byte of a pixel takes the stored average of the pixel's R, G and B. */
  method Grayscale(data: array<Byte>)
    requires data.Length % 4 == 0
    modifies data
    ensures data[..] == Grayscaled(old(data[..]))
  {
    ghost var original := data[..];
    ghost var pixels, total := 0, data.Length / 4;
    GrayscaledEnds(original);
    var i := 0;
    while i < data.Length
      invariant i == 4 * pixels && pixels <= total && data.Length == 4 * total
      invariant data[..] == Grayscaled(original[..i]) + original[i..]
    {
      assert pixels + 1 <= total;
      GrayscaledStep(original, i);
      GrayPixel(data, i);
      i := i + 4;
      pixels := pixels + 1;
    }
  }

  /** `applyEdgeDetection`: the same grayscale loop, run once more on the canvas pixels. */
  method ApplyEdgeDetection(data: array<Byte>)
    requires data.Length % 4 == 0
    modifies data
    ensures data[..] == Grayscaled(old(data[..]))
  {
    Grayscale(data);
  }

  // ---------------------------------------------------------------------
  // Pixel coordinates

  /** `y * width`, the first pixel of row `y`, counted row by row. */
  function RowStart(width: nat, y: nat): nat
  {
    if y == 0 then 0 else RowStart(width, y - 1) + width
  }

  lemma {:induction false} RowStartIsProduct(width: nat, y: nat)
    ensures RowStart(width, y) == y * width
  {
    if y > 0 {
      RowStartIsProduct(width, y - 1);
    }
  }

  /** A later row starts at least a full row further on. */
  lemma {:induction false} RowStartGrows(width: nat, y: nat, y': nat)
    requires y < y'
    ensures RowStart(width, y) + width <= RowStart(width, y')
    decreases y'
  {
    if y + 1 < y' {
      RowStartGrows(width, y, y' - 1);
    }
  }

  /** The byte length of a `width` by `height` RGBA buffer. */
  function BufferSize(width: nat, height: nat): nat
  {
    RowStart(width, height) * 4
  }

  /** Index of channel `c` of the pixel at column `x`, row `y`: `(y * width + x) * 4 + c`. */
  function Idx(width: nat, x: nat, y: nat, c: nat): nat
  {
    (RowStart(width, y) + x) * 4 + c
  }

  lemma IdxInBounds(width: nat, height: nat, x: nat, y: nat, c: nat)
    requires x < width && y < height && c < 4
    ensures Idx(width, x, y, c) < BufferSize(width, height)
  {
    RowStartGrows(width, y, height);
  }

  /** Distinct (pixel, channel) triples occupy distinct bytes. */
  lemma IdxInjective(width: nat, x: nat, y: nat, c: nat, x': nat, y': nat, c': nat)
    requires x < width && x' < width && c < 4 && c' < 4
    requires Idx(width, x, y, c) == Idx(width, x', y', c')
    ensures x == x' && y == y' && c == c'
  {
    if y < y' {
      RowStartGrows(width, y, y');
    } else if y' < y {
      RowStartGrows(width, y', y);
    }
  }

  /** Channel `c` of the pixel at column `x`, row `y`. */
  function At(t: seq<Byte>, width: nat, height: nat, x: nat, y: nat, c: nat): Byte
    requires |t| == BufferSize(width, height) && x < width && y < height && c < 4
  {
    IdxInBounds(width, height, x, y, c);
    t[Idx(width, x, y, c)]
  }

  lemma BufferSizeIsProduct(width: nat, height: nat)
    ensures BufferSize(width, height) == width * height * 4
  {
    RowStartIsProduct(width, height);
  }

  /** Column of the pixel that byte `i` belongs to. */
  function Column(width: nat, i: nat): nat
    requires width > 0
  {
    (i / 4) % width
  }

  /** Row of the pixel that byte `i` belongs to. */
  function Row(width: nat, i: nat): nat
    requires width > 0
  {
    (i / 4) / width
  }

  /** Every byte of the buffer is some channel of some pixel. */
  lemma IdxCovers(width: nat, height: nat, i: nat)
    requires i < BufferSize(width, height)
    ensures width > 0
    ensures Column(width, i) < width && Row(width, i) < height
    ensures Idx(width, Column(width, i), Row(width, i), i % 4) == i
  {
    if width == 0 {
      RowStartIsProduct(width, height);
    }
    var p := i / 4;
    RowStartIsProduct(width, p / width);
    assert p == (p / width) * width + p % width;
    if p / width >= height {
      if p / width > height {
        RowStartGrows(width, height, p / width);
      }
    }
  }

  // ---------------------------------------------------------------------
  // Dilation

  const KernelSize: nat := 3
  const HalfKernel: nat := KernelSize / 2

  /** The structuring element: the centre and its four orthogonal neighbours. */
  const Kernel: seq<seq<int>> := [[0, 1, 0], [1, 1, 1], [0, 1, 0]]

  function Max(a: int, b: int): int
  {
    if a >= b then a else b
  }

  /** A pixel at least one pixel away from every edge: the ones the kernel fits around. */
  predicate Interior(width: nat, height: nat, x: nat, y: nat)
  {
    1 <= x < width - 1 && 1 <= y < height - 1
  }

  /** The largest red value among the pixel and its four orthogonal neighbours in the snapshot. */
  function CrossMax(t: seq<Byte>, width: nat, height: nat, x: nat, y: nat): (m: Byte)
    requires |t| == BufferSize(width, height) && Interior(width, height, x, y)
    ensures m >= At(t, width, height, x, y, 0)
    ensures m >= At(t, width, height, x, y - 1, 0) && m >= At(t, width, height, x, y + 1, 0)
    ensures m >= At(t, width, height, x - 1, y, 0) && m >= At(t, width, height, x + 1, y, 0)
    ensures || m == At(t, width, height, x, y, 0)
            || m == At(t, width, height, x, y - 1, 0) || m == At(t, width, height, x, y + 1, 0)
            || m == At(t, width, height, x - 1, y, 0) || m == At(t, width, height, x + 1, y, 0)
  {
    Max(Max(Max(Max(At(t, width, height, x, y - 1, 0), At(t, width, height, x - 1, y, 0)), At(t, width, height, x, y, 0)),
            At(t, width, height, x + 1, y, 0)), At(t, width, height, x, y + 1, 0))
  }

  /** The kernel product at cell (`ky`, `kx`): the kernel weight times the red value under it. */
  function KernelTerm(t: seq<Byte>, width: nat, height: nat, x: nat, y: nat, ky: nat, kx: nat): int
    requires |t| == BufferSize(width, height) && Interior(width, height, x, y) && ky < KernelSize && kx < KernelSize
  {
    Kernel[ky][kx] * At(t, width, height, x + kx - HalfKernel, y + ky - HalfKernel, 0)
  }

  /**
   * The running maximum, starting from 0, once every kernel row before `ky`
   * and the first `kx` cells of row `ky` have been visited.
   */
  function RunningMax(t: seq<Byte>, width: nat, height: nat, x: nat, y: nat, ky: nat, kx: nat): int
    requires |t| == BufferSize(width, height) && Interior(width, height, x, y) && ky <= KernelSize && kx <= KernelSize
    requires ky == KernelSize ==> kx == 0
    decreases ky, kx
  {
    if kx > 0 then Max(RunningMax(t, width, height, x, y, ky, kx - 1), KernelTerm(t, width, height, x, y, ky, kx - 1))
    else if ky > 0 then RunningMax(t, width, height, x, y, ky - 1, KernelSize)
    else 0
  }

  /** The running maximum over the top kernel row: only the upper neighbour has weight 1. */
  lemma RunningMaxTopRow(t: seq<Byte>, width: nat, height: nat, x: nat, y: nat)
    requires |t| == BufferSize(width, height) && Interior(width, height, x, y)
    ensures RunningMax(t, width, height, x, y, 1, 0) == At(t, width, height, x, y - 1, 0)
  {
    assert KernelTerm(t, width, height, x, y, 0, 0) == 0;
    assert KernelTerm(t, width, height, x, y, 0, 2) == 0;
    assert RunningMax(t, width, height, x, y, 0, 1) == 0;
  }

  /** Over the middle kernel row the left neighbour, the pixel and the right neighbour join in. */
  lemma RunningMaxMiddleRow(t: seq<Byte>, width: nat, height: nat, x: nat, y: nat)
    requires |t| == BufferSize(width, height) && Interior(width, height, x, y)
    ensures RunningMax(t, width, height, x, y, 2, 0)
      == Max(Max(Max(RunningMax(t, width, height, x, y, 1, 0), At(t, width, height, x - 1, y, 0)),
                 At(t, width, height, x, y, 0)), At(t, width, height, x + 1, y, 0))
  {
    assert KernelTerm(t, width, height, x, y, 1, 0) == At(t, width, height, x - 1, y, 0);
    assert KernelTerm(t, width, height, x, y, 1, 1) == At(t, width, height, x, y, 0);
    assert KernelTerm(t, width, height, x, y, 1, 2) == At(t, width, height, x + 1, y, 0);
    assert RunningMax(t, width, height, x, y, 1, 0) == RunningMax(t, width, height, x, y, 0, 3);
  }

  /** Over the bottom kernel row only the lower neighbour has weight 1. */
  lemma RunningMaxBottomRow(t: seq<Byte>, width: nat, height: nat, x: nat, y: nat)
    requires |t| == BufferSize(width, height) && Interior(width, height, x, y)
    ensures RunningMax(t, width, height, x, y, 3, 0)
      == Max(RunningMax(t, width, height, x, y, 2, 0), At(t, width, height, x, y + 1, 0))
  {
    assert KernelTerm(t, width, height, x, y, 2, 0) == 0;
    assert KernelTerm(t, width, height, x, y, 2, 2) == 0;
    assert RunningMax(t, width, height, x, y, 2, 1) == RunningMax(t, width, height, x, y, 2, 0);
  }

  /** Over the whole kernel the running maximum is the cross maximum: the corner weights contribute 0. */
  lemma RunningMaxIsCrossMax(t: seq<Byte>, width: nat, height: nat, x: nat, y: nat)
    requires |t| == BufferSize(width, height) && Interior(width, height, x, y)
    ensures RunningMax(t, width, height, x, y, KernelSize, 0) == CrossMax(t, width, height, x, y)
  {
    RunningMaxTopRow(t, width, height, x, y);
    RunningMaxMiddleRow(t, width, height, x, y);
    RunningMaxBottomRow(t, width, height, x, y);
  }

  /** The product the inner loop forms at kernel cell (`ky`, `kx`), read at the source's own index. */
  lemma KernelProductAt(t: seq<Byte>, width: nat, height: nat, x: nat, y: nat, ky: nat, kx: nat)
    requires |t| == BufferSize(width, height) && Interior(width, height, x, y) && ky < KernelSize && kx < KernelSize
    ensures var kyIndex, kxIndex := y + ky - HalfKernel, x + kx - HalfKernel;
      && 0 <= (kyIndex * width + kxIndex) * 4 < |t|
      && KernelTerm(t, width, height, x, y, ky, kx) == Kernel[ky][kx] * t[(kyIndex * width + kxIndex) * 4]
  {
    var kyIndex, kxIndex := y + ky - HalfKernel, x + kx - HalfKernel;
    IdxInBounds(width, height, kxIndex, kyIndex, 0);
    RowStartIsProduct(width, kyIndex);
  }

  /** The inner two loops: the maximum of the kernel-weighted red values around one pixel. */
  method KernelMax(tempData: seq<Byte>, width: nat, height: nat, x: nat, y: nat) returns (max: int)
    requires |tempData| == BufferSize(width, height) && Interior(width, height, x, y)
    ensures max == CrossMax(tempData, width, height, x, y)
  {
    max := 0;
    var ky := 0;
    while ky < KernelSize
      invariant 0 <= ky <= KernelSize
      invariant max == RunningMax(tempData, width, height, x, y, ky, 0)
    {
      var kx := 0;
      while kx < KernelSize
        invariant 0 <= kx <= KernelSize
        invariant max == RunningMax(tempData, width, height, x, y, ky, kx)
      {
        var kyIndex := y + ky - HalfKernel;
        var kxIndex := x + kx - HalfKernel;
        var kernelValue := Kernel[ky][kx];
        KernelProductAt(tempData, width, height, x, y, ky, kx);
        var pixelValue := tempData[(kyIndex * width + kxIndex) * 4];
        max := Max(max, kernelValue * pixelValue);
        kx := kx + 1;
      }
      ky := ky + 1;
    }
    RunningMaxIsCrossMax(tempData, width, height, x, y);
  }

  /** The new value of one byte: colour bytes of interior pixels take the cross maximum, all else is kept. */
  function DilatedAt(t: seq<Byte>, width: nat, height: nat, x: nat, y: nat, c: nat): Byte
    requires |t| == BufferSize(width, height) && x < width && y < height && c < 4
  {
    IdxInBounds(width, height, x, y, c);
    if c < 3 && Interior(width, height, x, y) then CrossMax(t, width, height, x, y) else At(t, width, height, x, y, c)
  }

  /** The buffer after dilation, read byte by byte through its pixel coordinates. */
  function Dilated(t: seq<Byte>, width: nat, height: nat): (d: seq<Byte>)
    requires |t| == BufferSize(width, height)
    ensures |d| == |t|
  {
    seq(|t|, i requires 0 <= i < |t| =>
      IdxCovers(width, height, i);
      DilatedAt(t, width, height, Column(width, i), Row(width, i), i % 4))
  }

  lemma DilatedPixel(t: seq<Byte>, width: nat, height: nat, x: nat, y: nat, c: nat)
    requires |t| == BufferSize(width, height) && x < width && y < height && c < 4
    ensures Idx(width, x, y, c) < |t|
    ensures Dilated(t, width, height)[Idx(width, x, y, c)] == DilatedAt(t, width, height, x, y, c)
  {
    var i := Idx(width, x, y, c);
    IdxInBounds(width, height, x, y, c);
    IdxCovers(width, height, i);
    IdxInjective(width, x, y, c, Column(width, i), Row(width, i), i % 4);
  }

  /**
   * Dilation only touches colour bytes of interior pixels: border pixels and
   * alpha bytes are kept, and an image narrower or shorter than the kernel
   * comes out unchanged.
   */
  lemma DilatedKeepsBorderAndAlpha(t: seq<Byte>, width: nat, height: nat, x: nat, y: nat, c: nat)
    requires |t| == BufferSize(width, height) && x < width && y < height && c < 4
    requires c == 3 || x == 0 || y == 0 || x == width - 1 || y == height - 1
    ensures At(Dilated(t, width, height), width, height, x, y, c) == At(t, width, height, x, y, c)
  {
    DilatedPixel(t, width, height, x, y, c);
  }

  lemma DilatedSmallImageUnchanged(t: seq<Byte>, width: nat, height: nat)
    requires |t| == BufferSize(width, height) && (width < KernelSize || height < KernelSize)
    ensures Dilated(t, width, height) == t
  {
    forall i | 0 <= i < |t|
      ensures Dilated(t, width, height)[i] == t[i]
    {
      IdxCovers(width, height, i);
    }
  }

  /** Each colour byte of an interior pixel becomes the cross maximum, so it never falls below the pixel's old red. */
  lemma DilatedInterior(t: seq<Byte>, width: nat, height: nat, x: nat, y: nat, c: nat)
    requires |t| == BufferSize(width, height) && Interior(width, height, x, y) && c < 3
    ensures At(Dilated(t, width, height), width, height, x, y, c) == CrossMax(t, width, height, x, y)
    ensures At(Dilated(t, width, height), width, height, x, y, c) >= At(t, width, height, x, y, 0)
  {
    DilatedPixel(t, width, height, x, y, c);
  }

  /** Dilation is monotone: a buffer that is brighter byte for byte stays brighter. */
  lemma DilatedMonotone(t: seq<Byte>, u: seq<Byte>, width: nat, height: nat)
    requires |t| == |u| == BufferSize(width, height)
    requires forall i :: 0 <= i < |t| ==> t[i] <= u[i]
    ensures forall i :: 0 <= i < |t| ==> Dilated(t, width, height)[i] <= Dilated(u, width, height)[i]
  {
    forall i | 0 <= i < |t|
      ensures Dilated(t, width, height)[i] <= Dilated(u, width, height)[i]
    {
      IdxCovers(width, height, i);
      var x, y := Column(width, i), Row(width, i);
      if i % 4 < 3 && Interior(width, height, x, y) {
        IdxInBounds(width, height, x, y - 1, 0);
        IdxInBounds(width, height, x - 1, y, 0);
        IdxInBounds(width, height, x, y, 0);
        IdxInBounds(width, height, x + 1, y, 0);
        IdxInBounds(width, height, x, y + 1, 0);
      }
    }
  }

  /**
   * The buffer part-way through the loops: pixels before column `x` of row
   * `y`, in row-major order, carry their dilated value; all other bytes still
   * hold the snapshot's.
   */
  function Frontier(t: seq<Byte>, width: nat, height: nat, x: nat, y: nat): (d: seq<Byte>)
    requires |t| == BufferSize(width, height)
    ensures |d| == |t|
  {
    seq(|t|, i requires 0 <= i < |t| =>
      IdxCovers(width, height, i);
      if Row(width, i) < y || (Row(width, i) == y && Column(width, i) < x)
      then DilatedAt(t, width, height, Column(width, i), Row(width, i), i % 4)
      else t[i])
  }

  /** Before the first interior pixel nothing has changed. */
  lemma FrontierStart(t: seq<Byte>, width: nat, height: nat)
    requires |t| == BufferSize(width, height)
    ensures Frontier(t, width, height, HalfKernel, HalfKernel) == t
  {
    forall i | 0 <= i < |t|
      ensures Frontier(t, width, height, HalfKernel, HalfKernel)[i] == t[i]
    {
      IdxCovers(width, height, i);
    }
  }

  /** Writing the three colour bytes of one interior pixel moves the frontier one pixel on. */
  lemma FrontierStep(t: seq<Byte>, width: nat, height: nat, x: nat, y: nat, m: Byte)
    requires |t| == BufferSize(width, height) && Interior(width, height, x, y)
    requires m == CrossMax(t, width, height, x, y)
    ensures Idx(width, x, y, 2) < |t|
    ensures var i := Idx(width, x, y, 0);
      Frontier(t, width, height, x + 1, y) == Frontier(t, width, height, x, y)[i := m][i + 1 := m][i + 2 := m]
  {
    IdxInBounds(width, height, x, y, 2);
    var i := Idx(width, x, y, 0);
    var before, after := Frontier(t, width, height, x, y), Frontier(t, width, height, x + 1, y);
    forall j | 0 <= j < |t|
      ensures after[j] == before[i := m][i + 1 := m][i + 2 := m][j]
    {
      IdxCovers(width, height, j);
      var px, py, c := Column(width, j), Row(width, j), j % 4;
      if i <= j < i + 3 {
        IdxInjective(width, px, py, c, x, y, j - i);
      } else if px == x && py == y {
        assert j == i + 3;
      }
    }
  }

  /** At the end of a row the frontier moves to the start of the next one: the skipped pixels are border pixels. */
  lemma FrontierNextRow(t: seq<Byte>, width: nat, height: nat, x: nat, y: nat)
    requires |t| == BufferSize(width, height)
    requires x >= width - 1 && x >= HalfKernel
    ensures Frontier(t, width, height, x, y) == Frontier(t, width, height, HalfKernel, y + 1)
  {
    forall i | 0 <= i < |t|
      ensures Frontier(t, width, height, x, y)[i] == Frontier(t, width, height, HalfKernel, y + 1)[i]
    {
      IdxCovers(width, height, i);
    }
  }

  /** Once the frontier is past the last interior row, the buffer is the dilated snapshot. */
  lemma FrontierEnd(t: seq<Byte>, width: nat, height: nat, y: nat)
    requires |t| == BufferSize(width, height)
    requires y >= height - 1 && y >= HalfKernel
    ensures Frontier(t, width, height, HalfKernel, y) == Dilated(t, width, height)
  {
    forall i | 0 <= i < |t|
      ensures Frontier(t, width, height, HalfKernel, y)[i] == Dilated(t, width, height)[i]
    {
      IdxCovers(width, height, i);
    }
  }

  /** One pass of the `x` loop: the interior pixels of row `y`, left to right. */
  method DilateRow(data: array<Byte>, tempData: seq<Byte>, width: nat, height: nat, y: nat)
    requires data.Length == |tempData| == BufferSize(width, height) && HalfKernel <= y < height - HalfKernel
    requires data[..] == Frontier(tempData, width, height, HalfKernel, y)
    modifies data
    ensures data[..] == Frontier(tempData, width, height, HalfKernel, y + 1)
  {
    var x := HalfKernel;
    while x < width - HalfKernel
      invariant HalfKernel <= x && (x <= width - HalfKernel || x == HalfKernel)
      invariant data[..] == Frontier(tempData, width, height, x, y)
    {
      var max: Byte := KernelMax(tempData, width, height, x, y);
      FrontierStep(tempData, width, height, x, y, max);
      ghost var next: seq<Byte> := data[..][Idx(width, x, y, 0) := max];
      next := next[Idx(width, x, y, 0) + 1 := max];
      next := next[Idx(width, x, y, 0) + 2 := max];
      RowStartIsProduct(width, y);
      var index := (y * width + x) * 4;
      assert index == Idx(width, x, y, 0);
      data[index] := max;
      data[index + 1] := max;
      data[index + 2] := max;
      assert data[..] == next;
      x := x + 1;
    }
    FrontierNextRow(tempData, width, height, x, y);
  }

  /**
   * `applyDilation`: every colour byte of an interior pixel becomes the largest
   * red value of the pixel and its four neighbours, all read from a snapshot
   * taken before the first write, so the row-major visiting order does not
   * matter.
   */
  method ApplyDilation(data: array<Byte>, width: nat, height: nat)
    requires data.Length == BufferSize(width, height)
    modifies data
    ensures data[..] == Dilated(old(data[..]), width, height)
  {
    var tempData := data[..];
    FrontierStart(tempData, width, height);
    var y := HalfKernel;
    while y < height - HalfKernel
      invariant HalfKernel <= y && (y <= height - HalfKernel || y == HalfKernel)
      invariant data[..] == Frontier(tempData, width, height, HalfKernel, y)
    {
      DilateRow(data, tempData, width, height, y);
      y := y + 1;
    }
    FrontierEnd(tempData, width, height, y);
  }

  /**
   * The pixel part of `preprocessImage`: grayscale, the grayscale loop again
   * as edge detection, then dilation.  The second pass changes nothing, so
   * the result is the dilation of the grayscaled input.
   */
  method Preprocess(data: array<Byte>, width: nat, height: nat)
    requires data.Length == BufferSize(width, height)
    modifies data
    ensures data[..] == Dilated(Grayscaled(old(data[..])), width, height)
  {
    Grayscale(data);
    ApplyEdgeDetection(data);
    GrayscaledIdempotent(old(data[..]));
    ApplyDilation(data, width, height);
  }
}
