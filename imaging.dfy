/**
 * Raster images as the inference code sees them: 8-bit frames from the
 * decoder, the float tensors fed to the classifier, the divide-by-255
 * normalisation, `int()` truncation of detector coordinates and numpy's
 * basic-slice crop `frame[y1:y2, x1:x2]`.
 */
module Imaging {

  /** One 8-bit channel value. */
  type Byte = b: int | 0 <= b < 256

  /** One pixel: three channel values (OpenCV decodes in B, G, R order). */
  datatype Pixel<T> = Pixel(c0: T, c1: T, c2: T)

  /** A raster: a sequence of rows, `width` pixels per row (height × width × 3). */
  datatype Image<T> = Image(rows: seq<seq<Pixel<T>>>, width: nat) {

    /** Every row holds exactly `width` pixels, as in a numpy array. */
    predicate Rectangular() {
      forall i :: 0 <= i < |rows| ==> |rows[i]| == width
    }

    /** numpy's `size`: rows × columns × channels. */
    function Size(): nat {
      |rows| * width * 3
    }
  }

  /** A decoded frame: a rectangular 8-bit image. */
  type Frame = im: Image<Byte> | im.Rectangular() witness Image([], 0)

  /** A classifier input: the normalised float image. */
  type Tensor = Image<real>

  /** Scaling of one channel value to [0, 1] by division by 255. */
  function Normalize(p: Byte): (v: real)
    ensures 0.0 <= v <= 1.0
    ensures v * 255.0 == p as real
    ensures p == 0 ==> v == 0.0
    ensures p == 255 ==> v == 1.0
  {
    p as real / 255.0
  }

  function NormalizePixel(p: Pixel<Byte>): Pixel<real> {
    Pixel(Normalize(p.c0), Normalize(p.c1), Normalize(p.c2))
  }

  /** Every entry of a tensor lies in [0, 1]. */
  predicate InUnitRange(t: Tensor) {
    forall i, j :: 0 <= i < |t.rows| && 0 <= j < |t.rows[i]| ==>
      var px := t.rows[i][j];
      0.0 <= px.c0 <= 1.0 && 0.0 <= px.c1 <= 1.0 && 0.0 <= px.c2 <= 1.0
  }

  /** The element-wise division by 255 applied to a whole image. */
  function NormalizeImage(im: Image<Byte>): (t: Tensor)
    ensures |t.rows| == |im.rows| && t.width == im.width
    ensures forall i :: 0 <= i < |im.rows| ==> |t.rows[i]| == |im.rows[i]|
    ensures forall i, j :: 0 <= i < |im.rows| && 0 <= j < |im.rows[i]| ==>
      t.rows[i][j].c0 * 255.0 == im.rows[i][j].c0 as real &&
      t.rows[i][j].c1 * 255.0 == im.rows[i][j].c1 as real &&
      t.rows[i][j].c2 * 255.0 == im.rows[i][j].c2 as real
    ensures InUnitRange(t)
    ensures im.Rectangular() ==> t.Rectangular()
  {
    Image(seq(|im.rows|, i requires 0 <= i < |im.rows| =>
                seq(|im.rows[i]|, j requires 0 <= j < |im.rows[i]| => NormalizePixel(im.rows[i][j]))),
          im.width)
  }

  /** A detector box in pixel coordinates, as floats (x1, y1, x2, y2). */
  datatype Box = Box(x1: real, y1: real, x2: real, y2: real)

  /** Python's `int()` on a float: truncation toward zero. */
  function Trunc(x: real): (t: int)
    ensures 0.0 <= x ==> 0 <= t && t as real <= x < t as real + 1.0
    ensures x < 0.0 ==> t <= 0 && t as real - 1.0 < x <= t as real
  {
    if 0.0 <= x then x.Floor else -((-x).Floor)
  }

  /** Python's normalisation of one bound of a step-1 slice of a length-n axis:
      a negative bound counts from the end, and both are clamped to [0, n]. */
  function SliceBound(i: int, n: nat): (b: nat)
    ensures b <= n
    ensures 0 <= i <= n ==> b == i
    ensures -(n as int) <= i < 0 ==> b == n + i
    ensures i > n ==> b == n
    ensures i < -(n as int) ==> b == 0
  {
    if i < 0 then (if i + n < 0 then 0 else i + n) else if i > n then n else i
  }

  /** The length of the slice `[lo:hi]` of a length-n axis. */
  function SliceLength(lo: int, hi: int, n: nat): (len: nat)
    ensures SliceBound(lo, n) + len <= n
    ensures len == 0 <==> SliceBound(hi, n) <= SliceBound(lo, n)
    ensures len > 0 ==> SliceBound(lo, n) + len == SliceBound(hi, n)
  {
    if SliceBound(hi, n) <= SliceBound(lo, n) then 0 else SliceBound(hi, n) - SliceBound(lo, n)
  }

  /** numpy's basic slice `f[y1:y2, x1:x2]` of a frame. */
  function Crop(f: Frame, x1: int, y1: int, x2: int, y2: int): (c: Frame)
    ensures |c.rows| == SliceLength(y1, y2, |f.rows|)
    ensures c.width == SliceLength(x1, x2, f.width)
    ensures forall i, j :: 0 <= i < |c.rows| && 0 <= j < c.width ==>
      c.rows[i][j] == f.rows[SliceBound(y1, |f.rows|) + i][SliceBound(x1, f.width) + j]
  {
    var top, left := SliceBound(y1, |f.rows|), SliceBound(x1, f.width);
    var h, w := SliceLength(y1, y2, |f.rows|), SliceLength(x1, x2, f.width);
    Image(seq(h, i requires 0 <= i < h => f.rows[top + i][left .. left + w]), w)
  }

  /** The crop of a box, after truncating its coordinates with `int()`. */
  function CropBox(f: Frame, b: Box): (c: Frame)
    ensures |c.rows| == SliceLength(Trunc(b.y1), Trunc(b.y2), |f.rows|)
    ensures c.width == SliceLength(Trunc(b.x1), Trunc(b.x2), f.width)
    ensures forall i, j :: 0 <= i < |c.rows| && 0 <= j < c.width ==>
      c.rows[i][j] == f.rows[SliceBound(Trunc(b.y1), |f.rows|) + i][SliceBound(Trunc(b.x1), f.width) + j]
  {
    Crop(f, Trunc(b.x1), Trunc(b.y1), Trunc(b.x2), Trunc(b.y2))
  }

  /** A crop has `size == 0` exactly when it has no rows or no columns. */
  lemma CropEmptyIff(f: Frame, x1: int, y1: int, x2: int, y2: int)
    ensures Crop(f, x1, y1, x2, y2).Size() == 0 <==>
      SliceLength(y1, y2, |f.rows|) == 0 || SliceLength(x1, x2, f.width) == 0
  {
  }

  /** For any coordinates, in range or not, the crop is empty exactly when a
      normalised upper bound does not exceed the normalised lower bound. */
  lemma CropEmptyIffBounds(f: Frame, x1: int, y1: int, x2: int, y2: int)
    ensures Crop(f, x1, y1, x2, y2).Size() == 0 <==>
      SliceBound(x2, f.width) <= SliceBound(x1, f.width) || SliceBound(y2, |f.rows|) <= SliceBound(y1, |f.rows|)
  {
    CropEmptyIff(f, x1, y1, x2, y2);
  }

  /** For coordinates inside the frame the crop is empty exactly for a
      degenerate box: x2 <= x1 or y2 <= y1. */
  lemma InBoundsCropEmptyIff(f: Frame, x1: int, y1: int, x2: int, y2: int)
    requires 0 <= x1 <= f.width && 0 <= x2 <= f.width
    requires 0 <= y1 <= |f.rows| && 0 <= y2 <= |f.rows|
    ensures Crop(f, x1, y1, x2, y2).Size() == 0 <==> x2 <= x1 || y2 <= y1
  {
  }
}
