/**
 * `create_perfect_pixel_art`: resample the source with the area kernel to
 * exactly the pixel-art size (shrinking a large source, enlarging a small one),
 * then, only if the display size differs, stretch that result
 * with nearest-neighbour resampling; otherwise the display image is a copy of
 * the pixel art.
 *
 * `PerfectPixelArt` is the transform on image values; `CreatePerfectPixelArt`
 * is the same transform on buffers, where both results are newly allocated
 * and never the same buffer.
 */
module PixelArt {
  import opened Raster

  function PerfectPixelArt(img: Image, targetWidth: nat, targetHeight: nat,
                           displayWidth: nat, displayHeight: nat, ks: Kernels): (r: (Image, Image))
    requires Rect(img)
    requires targetWidth >= 1 && targetHeight >= 1 && displayWidth >= 1 && displayHeight >= 1
    ensures HasSize(r.0, targetWidth, targetHeight)
    ensures HasSize(r.1, displayWidth, displayHeight)
    ensures ColoursFrom(r.1, r.0)
  {
    var pixelArt := Resize(Area, img, targetWidth, targetHeight, ks);
    var display :=
      if displayWidth != targetWidth || displayHeight != targetHeight then
        Resize(Nearest, pixelArt, displayWidth, displayHeight, ks)
      else
        (ColoursFromSelf(pixelArt); pixelArt);
    (pixelArt, display)
  }

  /**
   * The display image is the pixel art itself exactly when the two sizes
   * agree; otherwise it is a different image.
   */
  lemma DisplayIsPixelArtIffSameSize(img: Image, tw: nat, th: nat, dw: nat, dh: nat, ks: Kernels)
    requires Rect(img) && tw >= 1 && th >= 1 && dw >= 1 && dh >= 1
    ensures var r := PerfectPixelArt(img, tw, th, dw, dh, ks);
      r.1 == r.0 <==> dw == tw && dh == th
  {
    var r := PerfectPixelArt(img, tw, th, dw, dh, ks);
    if dw != tw {
      assert |r.1[0]| != |r.0[0]|;
    } else if dh != th {
      assert |r.1| != |r.0|;
    }
  }

  /**
   * Only the area kernel sees the source: two sources whose pixel art
   * agrees get the same display image, whatever else they contain.
   */
  lemma DisplayDerivedFromPixelArt(img1: Image, img2: Image, tw: nat, th: nat, dw: nat, dh: nat, ks: Kernels)
    requires Rect(img1) && Rect(img2) && tw >= 1 && th >= 1 && dw >= 1 && dh >= 1
    requires PerfectPixelArt(img1, tw, th, dw, dh, ks).0 == PerfectPixelArt(img2, tw, th, dw, dh, ks).0
    ensures PerfectPixelArt(img1, tw, th, dw, dh, ks).1 == PerfectPixelArt(img2, tw, th, dw, dh, ks).1
  {
  }

  /** The pixel art does not depend on the display size. */
  lemma PixelArtIgnoresDisplaySize(img: Image, tw: nat, th: nat, dw1: nat, dh1: nat, dw2: nat, dh2: nat, ks: Kernels)
    requires Rect(img) && tw >= 1 && th >= 1 && dw1 >= 1 && dh1 >= 1 && dw2 >= 1 && dh2 >= 1
    ensures PerfectPixelArt(img, tw, th, dw1, dh1, ks).0 == PerfectPixelArt(img, tw, th, dw2, dh2, ks).0
  {
  }

  /** The pixels of a buffer, row by row. */
  function Pixels(a: array2<Rgb>): (img: Image)
    reads a
    ensures HasSize(img, a.Length1, a.Length0)
  {
    seq(a.Length0, y requires 0 <= y < a.Length0 reads a =>
      seq(a.Length1, x requires 0 <= x < a.Length1 reads a => a[y, x]))
  }

  /** A newly allocated `h` by `w` buffer holding `img`. */
  method NewBuffer(img: Image, w: nat, h: nat) returns (a: array2<Rgb>)
    requires HasSize(img, w, h)
    ensures fresh(a) && a.Length0 == h && a.Length1 == w
    ensures Pixels(a) == img
  {
    a := new Rgb[h, w];
    for y := 0 to h
      invariant forall y', x | 0 <= y' < y && 0 <= x < w :: a[y', x] == img[y'][x]
    {
      for x := 0 to w
        invariant forall y', x' | 0 <= y' < y && 0 <= x' < w :: a[y', x'] == img[y'][x']
        invariant forall x' | 0 <= x' < x :: a[y, x'] == img[y][x']
      {
        a[y, x] := img[y][x];
      }
    }
    assert forall y | 0 <= y < h :: Pixels(a)[y] == img[y];
  }

  /** A new buffer with the same size and pixels as `a`. */
  method Copy(a: array2<Rgb>) returns (c: array2<Rgb>)
    ensures fresh(c) && c.Length0 == a.Length0 && c.Length1 == a.Length1
    ensures Pixels(c) == Pixels(a)
  {
    c := NewBuffer(Pixels(a), a.Length1, a.Length0);
  }

  /**
   * The transform on buffers. Both results are new buffers, distinct from
   * each other and from the source, which is left as it was; their pixels are
   * those of `PerfectPixelArt`.
   */
  method CreatePerfectPixelArt(img: array2<Rgb>, targetWidth: nat, targetHeight: nat,
                               displayWidth: nat, displayHeight: nat, ks: Kernels)
    returns (pixelArt: array2<Rgb>, displayImg: array2<Rgb>)
    requires img.Length0 >= 1 && img.Length1 >= 1
    requires targetWidth >= 1 && targetHeight >= 1 && displayWidth >= 1 && displayHeight >= 1
    ensures fresh(pixelArt) && fresh(displayImg) && pixelArt != displayImg
    ensures pixelArt.Length0 == targetHeight && pixelArt.Length1 == targetWidth
    ensures displayImg.Length0 == displayHeight && displayImg.Length1 == displayWidth
    ensures Pixels(pixelArt) == Resize(Area, Pixels(img), targetWidth, targetHeight, ks)
    ensures Pixels(displayImg) ==
      if displayWidth != targetWidth || displayHeight != targetHeight
      then Resize(Nearest, Pixels(pixelArt), displayWidth, displayHeight, ks)
      else Pixels(pixelArt)
    ensures (Pixels(pixelArt), Pixels(displayImg))
      == PerfectPixelArt(Pixels(img), targetWidth, targetHeight, displayWidth, displayHeight, ks)
  {
    var small := Resize(Area, Pixels(img), targetWidth, targetHeight, ks);
    pixelArt := NewBuffer(small, targetWidth, targetHeight);
    if displayWidth != targetWidth || displayHeight != targetHeight {
      var large := Resize(Nearest, Pixels(pixelArt), displayWidth, displayHeight, ks);
      displayImg := NewBuffer(large, displayWidth, displayHeight);
    } else {
      displayImg := Copy(pixelArt);
    }
  }
}
