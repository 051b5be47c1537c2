# Perfect Pixel Art Generator — a Dafny model

The Perfect Pixel Art Generator is a small Streamlit page (`pix.py`). It turns
an uploaded picture into pixel art in two steps. First it resamples the upload
with the area kernel to exactly the "pixel art" size. This shrinks a large
upload and enlarges a small one. Then, only when the "display" size differs
from the pixel-art size, it stretches the pixel art to the display size with
nearest-neighbour resampling; when the sizes are equal the display image is a
copy of the pixel art. Both images are offered for download.

The model covers the page's logic and leaves out its widgets:

- **Dimension resolver** (`Dimensions`, `dimensions.dfy`). The controls are
  the mode, the preset, the two width/height controls and the pixel-size
  multiplier. From them it computes the pixel-art width and height and the
  display width and height. A named preset gives a square size from the
  `size_map` table. "Custom" and Advanced mode take the size from the
  controls. Display sides are `min(side × multiplier, 1300)`, where the
  multiplier is 4 in Simple mode and the slider's value in Advanced mode.
- **Images and resampling** (`Raster`, `raster.dfy`). An image is a grid of
  8-bit RGB pixels. `Resize` takes a kernel tag (`Area` or `Nearest`) and an
  exact target size. The kernels' arithmetic belongs to the image library, so
  it is a parameter (`Kernels`). The area kernel gives the colour of each
  output pixel. The nearest kernel gives the source row or column that each
  output row or column copies.
- **The transform** `create_perfect_pixel_art` (`PixelArt`, `pixel_art.dfy`).
  `PerfectPixelArt` is the transform on image values. `CreatePerfectPixelArt`
  is the same transform on `array2` buffers. It returns newly allocated
  buffers, and in the equal-size case the display buffer is a separate copy.
- **Download names** (`FileNames`, `file_names.dfy`). The names are
  `pixel_art_<w>x<h>.png` and `pixel_art_display_<w>x<h>.png`, with Python's
  decimal formatting of ints. `ParseFileName` reads the size back out of a
  name; it is the partner the round-trip lemmas use.
- **One page run** (`App`, `app.dfy`). It resolves the controls, runs the
  transform and names the downloads.

`pix.py` does no clamping of widths, heights or the multiplier. It relies on
the widgets, which cannot produce values outside their bounds. The widget
bounds are therefore preconditions (`Dimensions.ValidControls`), and no
clamping function exists in the model.

## Model

| member | source | states |
|---|---|---|
| `Dimensions.ValidControls` | pix.py:40-97 | what the widgets can produce: a preset from the selector's list, sliders and number inputs in [16, 512], multiplier in [1, 20]; any valid Simple-mode preset other than "Custom" is a key of `size_map`, so the lookup at line 59 cannot fail |
| `Dimensions.Multiplier` | pix.py:63-100 | the scale from pixel size to display size: 4 in Simple mode, the pixel-size slider in Advanced mode; for valid controls it lies in [1, 20] |
| `Dimensions.DisplaySide` | pix.py:63-64 | a display side is at most the scaled side and at most 1300, and equals one of them: it is their minimum |
| `Dimensions.SimpleSize` | pix.py:49-59 | a named preset gives a square size inside [16, 512]; "Custom" with in-range sliders gives an in-range size |
| `Dimensions.DisplayCoversPixels` | pix.py:90-100 | with a multiplier of at least 1, a display side is never smaller than its pixel side and never above 1300 |
| `Dimensions.Resolve` | pix.py:42-100 | every resolved target has pixel sides in [16, 512] and pixel ≤ display ≤ 1300 on each axis; each display side is min(pixel side × multiplier, 1300), with multiplier 4 in Simple mode and the slider value in Advanced mode |
| `Dimensions.PresetsResolveToLiterals` | pix.py:53-64 | Tiny, Small, Medium and Large resolve to 32², 64², 128², 256² with display 128², 256², 512², 1024², for any slider values |
| `Dimensions.PresetIgnoresSliders` | pix.py:49-59 | a named preset's result is the same whatever the sliders hold |
| `Dimensions.ManualSizesPassThrough` | pix.py:49-86 | "Custom" and Advanced mode use the controls' width and height unchanged |
| `Dimensions.AxesIndependent` | pix.py:99-100 | in Advanced mode the resolved width depends only on the width input and multiplier, and the height only on the height input and multiplier |
| `Dimensions.CustomAxesIndependent` | pix.py:63-64 | the same axis independence for the Custom sliders |
| `Dimensions.ExactScaleIffUnderCap` | pix.py:99-100 | the display side is exactly pixel side × multiplier if and only if that product is at most 1300 |
| `Dimensions.DefaultControls` | pix.py:50-100 | the widgets' defaults (90, 120, multiplier 4) resolve to 90×120 shown at 360×480 in both modes |
| `Dimensions.CapChangesAspect` | pix.py:99-100 | 512×16 at multiplier 20 is shown at 1300×320, so the display's aspect ratio differs from the pixel art's |
| `Raster.Resize` | pix.py:110-114 | the output is exactly the requested width by height; a nearest-neighbour output contains only colours of its input, and output pixels that copy the same source row and column have the same colour (flat blocks) |
| `PixelArt.PerfectPixelArt` | pix.py:106-118 | the pixel art is exactly target width × height, the display image exactly display width × height, and every display colour is a colour of the pixel art |
| `PixelArt.DisplayIsPixelArtIffSameSize` | pix.py:113-116 | the display image equals the pixel art if and only if display and target sizes agree |
| `PixelArt.DisplayDerivedFromPixelArt` | pix.py:110-114 | the display image is determined by the pixel art alone: the nearest kernel never sees the source |
| `PixelArt.PixelArtIgnoresDisplaySize` | pix.py:110 | the pixel art depends on the source and target size only, not on the display size |
| `PixelArt.NewBuffer` | pix.py:110-114 | a resample result is stored in a newly allocated buffer of its size holding exactly its pixels |
| `PixelArt.Copy` | pix.py:116 | the copy is a new buffer with the same size and pixels as the original |
| `PixelArt.CreatePerfectPixelArt` | pix.py:106-118 | area resample of the source first; nearest resample of the pixel art only when a size differs, otherwise a copy; both results are new, mutually distinct buffers whose pixels are those of `PerfectPixelArt` |
| `FileNames.FileName` | pix.py:149-164 | `prefix + decimal w + "x" + decimal h + ".png"`; the name parses back to (w, h) under its prefix |
| `FileNames.PixelArtFileName` | pix.py:149 | `"pixel_art_" + decimal w + "x" + decimal h + ".png"`; it parses back to (w, h) |
| `FileNames.DisplayFileName` | pix.py:164 | `"pixel_art_display_" + decimal w + "x" + decimal h + ".png"`; it parses back to (w, h) |
| `FileNames.Decimal` | pix.py:149 | an int is written as at least one decimal digit, with a leading '0' only for zero, and zero is exactly "0" |
| `FileNames.DecimalRoundTrip` | pix.py:149 | reading back the decimal text of n gives n |
| `FileNames.SizeRoundTrip` | pix.py:149 | the text w + "x" + h parses back to (w, h) |
| `FileNames.FileNameRoundTrip` | pix.py:149 | prefix + w + "x" + h + ".png" parses back to (w, h) for any prefix |
| `FileNames.FileNameInjective` | pix.py:164 | two different sizes never get the same file name |
| `FileNames.DownloadNames` | pix.py:146-167 | both download names give back their sizes, and the pixel-art name never equals the display name |
| `App.Generate` | pix.py:120-164 | one run uses the target `Resolve` gives for the controls, the two images `PerfectPixelArt` makes from the upload with exactly those four sizes, and the two download names built from those sizes; the target is well-formed, the images have the resolved sizes, and the display uses only pixel-art colours |
| `App.DownloadsNameTheirSize` | pix.py:146-167 | each download's file name states the width and height of the image it holds, and the two names differ |

## Left out

- The Streamlit page (title, uploader, radio, columns, `st.image`, `st.info`, `st.metric`, download buttons). It is UI. Only the widgets' bounds are kept, as preconditions.
- The widgets' `step=2`. No property depends on it, and a typed number input need not respect it, so width and height are only required to lie in [16, 512].
- Decoding the upload with PIL and encoding the PNG downloads with `BytesIO`. These are I/O and foreign codecs. A download is modelled as a file name plus the image it would encode.
- The RGBA-to-RGB conversion with `cv2.cvtColor`. It is a foreign call, and the transform is given an RGB image. Greyscale uploads are also not modelled: for a 2-D array the `shape[2]` test would fail before any processing.
- Images with other than three channels. Pixels are RGB triples. A two-channel (grey plus alpha) upload passes the `shape[2] == 4` test unconverted and is resized as it is; the model does not cover it. Nothing proved here depends on the pixel type.
- Raster.Resize: does not model OpenCV's area and nearest-neighbour resampling arithmetic. Both kernels are parameters, so no colour value of the area kernel is stated. The "solid colour in, same solid colour out" law is not proved. For nearest-neighbour, flat blocks are proved, but not that the blocks are squares of equal size, which depends on OpenCV's index formula.
- The size-reduction metric. It is floating-point division formatted with one decimal place.
- Determinism of the transform is not stated as a lemma. Every operation here is a function or is specified by one, so equal inputs give equal results by construction.
- The `"Selected: …"` and settings info texts. They are display strings with no effect on the results.
