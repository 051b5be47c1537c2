/**
 * The dimension resolver: from the state of the controls to the four
 * integers the transform is given, the pixel-art width and height and the
 * display width and height.
 *
 * The resolver does no clamping of its own: the sliders and number inputs
 * only produce values inside their declared bounds, so those bounds are the
 * preconditions here (`ValidControls`).
 */
module Dimensions {

  /** The labels of the Simple-mode preset selector, in display order. */
  const Custom: string := "Custom"
  const Tiny: string := "Tiny (32×32)"
  const Small: string := "Small (64×64)"
  const Medium: string := "Medium (128×128)"
  const Large: string := "Large (256×256)"
  const PresetOptions: seq<string> := [Custom, Tiny, Small, Medium, Large]

  /** The size of each non-Custom preset. */
  const SizeMap: map<string, (int, int)> :=
    map[Tiny := (32, 32), Small := (64, 64), Medium := (128, 128), Large := (256, 256)]

  /** Bounds of the width and height sliders and number inputs. */
  const MinSide: int := 16
  const MaxSide: int := 512
  /** Bounds of the Advanced-mode pixel size multiplier slider. */
  const MinPixelSize: int := 1
  const MaxPixelSize: int := 20
  /** The multiplier Simple mode always uses. */
  const SimplePixelSize: int := 4
  /** No display side is ever larger than this. */
  const DisplayCap: int := 1300

  /**
   * The controls on screen. In Simple mode the two sliders only exist, and are
   * only read, when the preset is "Custom".
   */
  datatype Controls =
    | Simple(preset: string, sliderWidth: int, sliderHeight: int)
    | Advanced(inputWidth: int, inputHeight: int, pixelSize: int)

  datatype TargetSpec = TargetSpec(pixelWidth: int, pixelHeight: int, displayWidth: int, displayHeight: int)

  predicate SideInRange(v: int) {
    MinSide <= v <= MaxSide
  }

  /**
   * What the widgets can produce. A named preset is always a key of
   * `SizeMap`, so its lookup never fails.
   */
  predicate ValidControls(c: Controls): (ok: bool)
    ensures ok && c.Simple? && c.preset != Custom ==> c.preset in SizeMap
  {
    match c
    case Simple(preset, w, h) =>
      preset in PresetOptions && (preset == Custom ==> SideInRange(w) && SideInRange(h))
    case Advanced(w, h, m) =>
      SideInRange(w) && SideInRange(h) && MinPixelSize <= m <= MaxPixelSize
  }

  /** The scale factor from pixel-art size to display size that the mode uses. */
  function Multiplier(c: Controls): (m: int)
    ensures ValidControls(c) ==> MinPixelSize <= m <= MaxPixelSize
  {
    match c
    case Simple(_, _, _) => SimplePixelSize
    case Advanced(_, _, m) => m
  }

  /** The invariants every resolved target keeps. */
  predicate WellFormed(t: TargetSpec) {
    && SideInRange(t.pixelWidth) && SideInRange(t.pixelHeight)
    && t.pixelWidth <= t.displayWidth <= DisplayCap
    && t.pixelHeight <= t.displayHeight <= DisplayCap
  }

  /** One display side: the scaled pixel side, capped at `DisplayCap`; that is, the minimum of the two. */
  function DisplaySide(side: int, multiplier: int): (d: int)
    ensures d <= side * multiplier && d <= DisplayCap
    ensures d == side * multiplier || d == DisplayCap
  {
    if side * multiplier < DisplayCap then side * multiplier else DisplayCap
  }

  /** The preset's pixel size, or the sliders' values for "Custom". */
  function SimpleSize(preset: string, sliderWidth: int, sliderHeight: int): (r: (int, int))
    requires preset in PresetOptions
    ensures preset != Custom ==> r.0 == r.1 && SideInRange(r.0)
    ensures SideInRange(sliderWidth) && SideInRange(sliderHeight) ==> SideInRange(r.0) && SideInRange(r.1)
  {
    if preset == Custom then (sliderWidth, sliderHeight) else SizeMap[preset]
  }

  /** Scaling up by a multiplier of at least one never makes a side smaller. */
  lemma DisplayCoversPixels(side: int, multiplier: int)
    requires SideInRange(side) && multiplier >= 1
    ensures side <= DisplaySide(side, multiplier) <= DisplayCap
  {
  }

  function Resolve(c: Controls): (t: TargetSpec)
    requires ValidControls(c)
    ensures WellFormed(t)
    ensures t.displayWidth == DisplaySide(t.pixelWidth, Multiplier(c))
    ensures t.displayHeight == DisplaySide(t.pixelHeight, Multiplier(c))
  {
    var (pw, ph) := match c
      case Simple(preset, w, h) => SimpleSize(preset, w, h)
      case Advanced(w, h, _) => (w, h);
    var m := Multiplier(c);
    DisplayCoversPixels(pw, m);
    DisplayCoversPixels(ph, m);
    TargetSpec(pw, ph, DisplaySide(pw, m), DisplaySide(ph, m))
  }

  /** Each named preset resolves to its square size, and display size four times that, whatever the sliders hold. */
  lemma PresetsResolveToLiterals(w: int, h: int)
    ensures Resolve(Simple(Tiny, w, h)) == TargetSpec(32, 32, 128, 128)
    ensures Resolve(Simple(Small, w, h)) == TargetSpec(64, 64, 256, 256)
    ensures Resolve(Simple(Medium, w, h)) == TargetSpec(128, 128, 512, 512)
    ensures Resolve(Simple(Large, w, h)) == TargetSpec(256, 256, 1024, 1024)
  {
  }

  /** A named preset does not read the sliders. */
  lemma PresetIgnoresSliders(preset: string, w1: int, h1: int, w2: int, h2: int)
    requires preset in PresetOptions && preset != Custom
    ensures Resolve(Simple(preset, w1, h1)) == Resolve(Simple(preset, w2, h2))
  {
  }

  /** The Custom preset and Advanced mode take the pixel size from the controls unchanged: no clamping, no rounding. */
  lemma ManualSizesPassThrough(c: Controls)
    requires ValidControls(c)
    requires c.Simple? ==> c.preset == Custom
    ensures c.Simple? ==> Resolve(c).pixelWidth == c.sliderWidth && Resolve(c).pixelHeight == c.sliderHeight
    ensures c.Advanced? ==> Resolve(c).pixelWidth == c.inputWidth && Resolve(c).pixelHeight == c.inputHeight
  {
  }

  /**
   * The axes are independent: the resolved width (pixel and display) depends
   * only on the width control and the multiplier, the height only on the
   * height control and the multiplier.
   */
  lemma AxesIndependent(c1: Controls, c2: Controls)
    requires ValidControls(c1) && ValidControls(c2)
    requires c1.Advanced? && c2.Advanced? && c1.pixelSize == c2.pixelSize
    ensures c1.inputWidth == c2.inputWidth ==>
      Resolve(c1).pixelWidth == Resolve(c2).pixelWidth && Resolve(c1).displayWidth == Resolve(c2).displayWidth
    ensures c1.inputHeight == c2.inputHeight ==>
      Resolve(c1).pixelHeight == Resolve(c2).pixelHeight && Resolve(c1).displayHeight == Resolve(c2).displayHeight
  {
  }

  /** The same independence for the Custom preset of Simple mode. */
  lemma CustomAxesIndependent(w1: int, h1: int, w2: int, h2: int)
    requires SideInRange(w1) && SideInRange(h1) && SideInRange(w2) && SideInRange(h2)
    ensures w1 == w2 ==> Resolve(Simple(Custom, w1, h1)).displayWidth == Resolve(Simple(Custom, w2, h2)).displayWidth
    ensures h1 == h2 ==> Resolve(Simple(Custom, w1, h1)).displayHeight == Resolve(Simple(Custom, w2, h2)).displayHeight
  {
  }

  /**
   * The display side is the pixel side times the multiplier exactly when that
   * product fits under the cap; past the cap the display side is 1300, not
   * side times multiplier.
   */
  lemma ExactScaleIffUnderCap(c: Controls)
    requires ValidControls(c)
    ensures var t := Resolve(c);
      (t.displayWidth == t.pixelWidth * Multiplier(c) <==> t.pixelWidth * Multiplier(c) <= DisplayCap)
      && (t.displayHeight == t.pixelHeight * Multiplier(c) <==> t.pixelHeight * Multiplier(c) <= DisplayCap)
  {
  }

  /** The widgets' default values (90 by 120, multiplier 4) give the same target in both modes. */
  lemma DefaultControls()
    ensures Resolve(Simple(Custom, 90, 120)) == TargetSpec(90, 120, 360, 480)
    ensures Resolve(Advanced(90, 120, 4)) == TargetSpec(90, 120, 360, 480)
  {
  }

  /**
   * Capping one axis but not the other changes the aspect ratio of the display
   * image: 512 by 16 pixels at multiplier 20 is shown at 1300 by 320.
   */
  lemma CapChangesAspect()
    ensures var t := Resolve(Advanced(512, 16, 20));
      t == TargetSpec(512, 16, 1300, 320) && t.displayWidth * t.pixelHeight != t.displayHeight * t.pixelWidth
  {
  }
}
