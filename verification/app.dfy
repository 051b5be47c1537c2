/**
 * One run of the page after an upload: resolve the controls, run the
 * transform with the resolved sizes, and name the two downloads after those
 * sizes.
 */
module App {
  import opened Raster
  import D = Dimensions
  import P = PixelArt
  import F = FileNames

  /** A file offered for download: its name and the image it encodes. */
  datatype Download = Download(fileName: string, image: Image)

  datatype Outcome = Outcome(target: D.TargetSpec, pixelArt: Download, display: Download)

  function Generate(c: D.Controls, img: Image, ks: Kernels): (out: Outcome)
    requires D.ValidControls(c) && Rect(img)
    ensures out.target == D.Resolve(c)
    ensures (out.pixelArt.image, out.display.image)
      == P.PerfectPixelArt(img, out.target.pixelWidth, out.target.pixelHeight,
                           out.target.displayWidth, out.target.displayHeight, ks)
    ensures out.pixelArt.fileName == F.PixelArtFileName(out.target.pixelWidth, out.target.pixelHeight)
    ensures out.display.fileName == F.DisplayFileName(out.target.displayWidth, out.target.displayHeight)
    ensures D.WellFormed(out.target)
    ensures HasSize(out.pixelArt.image, out.target.pixelWidth, out.target.pixelHeight)
    ensures HasSize(out.display.image, out.target.displayWidth, out.target.displayHeight)
    ensures ColoursFrom(out.display.image, out.pixelArt.image)
  {
    var t := D.Resolve(c);
    var (pixelArt, display) := P.PerfectPixelArt(img, t.pixelWidth, t.pixelHeight, t.displayWidth, t.displayHeight, ks);
    Outcome(t,
      Download(F.PixelArtFileName(t.pixelWidth, t.pixelHeight), pixelArt),
      Download(F.DisplayFileName(t.displayWidth, t.displayHeight), display))
  }

  /**
   * Each download's name states the width and height of the image it holds,
   * and the two downloads never share a name.
   */
  lemma DownloadsNameTheirSize(c: D.Controls, img: Image, ks: Kernels)
    requires D.ValidControls(c) && Rect(img)
    ensures var out := Generate(c, img, ks);
      && F.ParseFileName(F.PixelArtPrefix, out.pixelArt.fileName)
         == F.Some((Width(out.pixelArt.image), Height(out.pixelArt.image)))
      && F.ParseFileName(F.DisplayPrefix, out.display.fileName)
         == F.Some((Width(out.display.image), Height(out.display.image)))
      && out.pixelArt.fileName != out.display.fileName
  {
    var out := Generate(c, img, ks);
    var t := out.target;
    F.DownloadNames(t.pixelWidth, t.pixelHeight, t.displayWidth, t.displayHeight);
  }
}
