/**
 * Images as the transform sees them: a height-by-width grid of 8-bit RGB
 * pixels (a NumPy array of shape (height, width, 3)), and the two resampling
 * kernels the transform asks the image library for.
 *
 * The library's arithmetic is not modelled. A kernel is supplied as a value:
 * the area kernel says which colour each output pixel receives, the
 * nearest-neighbour kernel says which source row or column each output row or
 * column copies. What `Resize` guarantees for any such kernel is the exact
 * output size and, for nearest-neighbour, that every output pixel is a copy
 * of a source pixel.
 */
module Raster {

  newtype byte = x: int | 0 <= x < 256

  datatype Rgb = Rgb(red: byte, green: byte, blue: byte)

  /** Rows from top to bottom, each row from left to right. */
  type Image = seq<seq<Rgb>>

  function Height(img: Image): nat {
    |img|
  }

  function Width(img: Image): nat {
    if |img| == 0 then 0 else |img[0]|
  }

  /** `img` has exactly `h` rows of exactly `w` pixels each. */
  predicate HasSize(img: Image, w: nat, h: nat) {
    |img| == h && forall y | 0 <= y < h :: |img[y]| == w
  }

  /** A non-empty rectangular image: what the resampler accepts as its input. */
  predicate Rect(img: Image) {
    Height(img) >= 1 && Width(img) >= 1 && HasSize(img, Width(img), Height(img))
  }

  /** `p` is the colour of some pixel of `img`. */
  predicate Occurs(p: Rgb, img: Image) {
    exists y, x | 0 <= y < |img| && 0 <= x < |img[y]| :: img[y][x] == p
  }

  /** Every colour of `img` already occurs in `src`: no colour was blended or invented. */
  predicate ColoursFrom(img: Image, src: Image) {
    forall y, x | 0 <= y < |img| && 0 <= x < |img[y]| :: Occurs(img[y][x], src)
  }

  lemma ColoursFromSelf(img: Image)
    ensures ColoursFrom(img, img)
  {
  }

  /**
   * Output pixels of a nearest-neighbour stretch from a `srcW` by `srcH`
   * image that copy the same source row and column have the same colour:
   * each source pixel becomes a flat block.
   */
  predicate FlatBlocks(dst: Image, ks: Kernels, srcW: nat, srcH: nat)
    requires srcW >= 1 && srcH >= 1
  {
    forall y1, x1, y2, x2 |
      && 0 <= y1 < |dst| && 0 <= x1 < |dst[y1]| && 0 <= y2 < |dst| && 0 <= x2 < |dst[y2]|
      && Pick(ks, srcH, |dst|, y1) == Pick(ks, srcH, |dst|, y2)
      && Pick(ks, srcW, |dst[y1]|, x1) == Pick(ks, srcW, |dst[y2]|, x2)
      :: dst[y1][x1] == dst[y2][x2]
  }

  /** The interpolation flag given to the resampler. */
  datatype Kernel = Area | Nearest

  /**
   * The resampler's arithmetic, which lives outside this model.
   * `area(src, w, h, x, y)` is the colour of output pixel (x, y) when `src` is
   * resampled with the area kernel to `w` by `h`, which may shrink or enlarge
   * it; `nearest(srcLen, dstLen, i)` is the source
   * row (or column) that output row (or column) `i` copies when an axis of
   * `srcLen` pixels is stretched to `dstLen` pixels.
   */
  datatype Kernels = Kernels(
    area: (Image, nat, nat, nat, nat) -> Rgb,
    nearest: (nat, nat, nat) -> nat)

  /** The source index that a nearest-neighbour output index copies, kept inside the source. */
  function Pick(ks: Kernels, srcLen: nat, dstLen: nat, i: nat): (s: nat)
    requires srcLen >= 1
    ensures s < srcLen
  {
    var s := ks.nearest(srcLen, dstLen, i);
    if s < srcLen then s else srcLen - 1
  }

  /**
   * Resize `src` to exactly `w` by `h` pixels with kernel `k`.
   */
  function Resize(k: Kernel, src: Image, w: nat, h: nat, ks: Kernels): (dst: Image)
    requires Rect(src)
    ensures HasSize(dst, w, h)
    ensures k == Nearest ==> ColoursFrom(dst, src)
    ensures k == Nearest ==> FlatBlocks(dst, ks, Width(src), Height(src))
  {
    match k
    case Area =>
      seq(h, y requires 0 <= y < h => seq(w, x requires 0 <= x < w => ks.area(src, w, h, x, y)))
    case Nearest =>
      var dst := seq(h, y requires 0 <= y < h =>
        seq(w, x requires 0 <= x < w =>
          src[Pick(ks, Height(src), h, y)][Pick(ks, Width(src), w, x)]));
      NearestCopiesSource(src, dst, w, h, ks);
      dst
  }

  /** Every pixel of a nearest-neighbour stretch is one of the source's pixels. */
  lemma NearestCopiesSource(src: Image, dst: Image, w: nat, h: nat, ks: Kernels)
    requires Rect(src)
    requires HasSize(dst, w, h)
    requires forall y, x | 0 <= y < h && 0 <= x < w ::
      dst[y][x] == src[Pick(ks, Height(src), h, y)][Pick(ks, Width(src), w, x)]
    ensures ColoursFrom(dst, src)
  {
    forall y, x | 0 <= y < |dst| && 0 <= x < |dst[y]|
      ensures Occurs(dst[y][x], src)
    {
      var sy, sx := Pick(ks, Height(src), h, y), Pick(ks, Width(src), w, x);
      assert 0 <= sy < |src| && 0 <= sx < |src[sy]| && src[sy][sx] == dst[y][x];
    }
  }
}
