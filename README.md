# MergeImageFiles in Dafny

A model of the `MergeImage` class of MergeImageFiles. This utility concatenates a
`;`-separated list of image files into one image. In portrait mode the images are
stacked vertically; in landscape mode they are placed side by side. The canvas is
cleared to black first, and the result is saved to a target path. The entry point
reports only `"Success"` or `"Error"`.

The model has four modules:

- `Imaging` (imaging.dfy) holds the values. `Image` is a decoded raster: a width,
  a height and opaque pixel rows. `Bitmap` is an image that is well formed: it has
  positive extents and rows that match them. The module also defines `Orientation`,
  the canvas `Rect` and `Size`, and `Black` (ARGB `0xFF000000`).
- `Layout` (layout.dfy) is the pure specification of the layout. It defines the
  canvas size (`Total`, a sum along the stacking axis, and `Widest`, a running
  maximum across it), the offsets as prefix sums, and each image's destination
  rectangle. Its lemmas prove the layout correct.
- `Canvas` (canvas.dfy) covers drawing. `Render` specifies the colour of each cell
  once the canvas is cleared to black and the images are stamped in input order.
  Its lemmas say which image each cell shows. `Draw` allocates a 2D array canvas,
  clears it and runs the source's offset loop, and it is proved against `Render`.
- `MergeImage` (merge_image.dfy) holds the two source operations. `CombineBitmap`
  runs the decode-and-measure loop (`LoadImages`) and then `Draw`.
  `MergeImageFiles` splits the list on `;`, maps the flag to an orientation,
  combines the images, saves the result and returns the status string.

Decoding a file and saving a canvas are done by the graphics library, so they are
parameters. `decode: string -> Option<Bitmap>` returns `None` when a path cannot be
decoded. `save: (seq<seq<Color>>, string) -> bool` receives the canvas pixels and
the target path, and returns `false` when saving fails. Both are pure functions of
their inputs. As a result, two runs with the same inputs give the same canvas and
the same status.

`g.Clear` and `g.DrawImage` are library calls with no loop in the source. They are
modelled as aggregate `forall` assignments on the array (`Clear` and `Stamp`).
`Stamp` copies an image unscaled and opaque, and clips to the canvas the way
`DrawImage` does. `PlacementInsideCanvas` shows that the clipping never takes effect.

## Model

| member | source | states |
|---|---|---|
| `Layout.WidestIsMaximum` | MergeImageFiles/MergeImageFiles/MergeImage.cs:35-44 | the running maximum (`x > w ? x : w` from 0) is the maximum: no image's cross-axis extent exceeds it, some image attains it, and it is 0 for no images |
| `Layout.CanvasSizeByOrientation` | MergeImageFiles/MergeImageFiles/MergeImage.cs:34-44 | portrait canvas: height is the sum of the heights, width is the largest width (bounds every width and is attained); landscape canvas: width is the sum of the widths, height is the largest height |
| `Layout.CanvasNotEmpty` | MergeImageFiles/MergeImageFiles/MergeImage.cs:26-50 | for at least one decoded image, both canvas extents are positive; `CombineBitmap` uses this to show that its canvas allocation fails only for an empty file list |
| `Layout.PlaceAt` | MergeImageFiles/MergeImageFiles/MergeImage.cs:62-71 | each destination rectangle has the image's own width and height (no scaling) |
| `Layout.OffsetSteps` | MergeImageFiles/MergeImageFiles/MergeImage.cs:59-71 | the offset starts at 0; after image i it has grown by exactly that image's stacking-axis extent; after the last image it equals the canvas's stacking-axis length |
| `Layout.OffsetOrdered` | MergeImageFiles/MergeImageFiles/MergeImage.cs:59-71 | offsets never decrease: image i ends no later than any later image j starts |
| `Layout.PlacementInsideCanvas` | MergeImageFiles/MergeImageFiles/MergeImage.cs:35-71 | every placed rectangle lies inside the canvas, on both axes |
| `Layout.PlacementsDisjoint` | MergeImageFiles/MergeImageFiles/MergeImage.cs:62-71 | the rectangles of two different images share no cell |
| `Layout.StackingAxisCovered` | MergeImageFiles/MergeImageFiles/MergeImage.cs:59-71 | every position on the stacking axis below the canvas length lies in some image's span, so there are no gaps |
| `Canvas.Composite` | MergeImageFiles/MergeImageFiles/MergeImage.cs:50 | the combined image has exactly the canvas size computed from the images |
| `Canvas.Render` | MergeImageFiles/MergeImageFiles/MergeImage.cs:56-73 | the colour of a cell once the canvas is cleared to black and each image, in input order, is stamped at its running offset over what was there; `UncoveredStaysBlack`, `CoveredShowsOwnImage` and `CompositeCell` prove what it shows |
| `Canvas.UncoveredStaysBlack` | MergeImageFiles/MergeImageFiles/MergeImage.cs:56-73 | a cell outside every placed rectangle is still black after all images are stamped |
| `Canvas.CoveredShowsOwnImage` | MergeImageFiles/MergeImageFiles/MergeImage.cs:58-73 | a cell inside image i's rectangle ends up with image i's pixel at the matching position, and no other image's rectangle covers it (exactly one writer) |
| `Canvas.CompositeCell` | MergeImageFiles/MergeImageFiles/MergeImage.cs:50-73 | every cell of the combined image is either black and uncovered, or the pixel of an image whose rectangle covers it |
| `Canvas.Clear` | MergeImageFiles/MergeImageFiles/MergeImage.cs:56 | every cell of the canvas takes the background colour |
| `Canvas.Stamp` | MergeImageFiles/MergeImageFiles/MergeImage.cs:64 | cells in the destination rectangle get the image's pixels unscaled; all other cells are unchanged |
| `Canvas.Draw` | MergeImageFiles/MergeImageFiles/MergeImage.cs:50-73 | a fresh canvas of the given size, cleared to black, with every cell equal to `Render` of the images stamped in order at their running offsets |
| `MergeImage.Split` | MergeImageFiles/MergeImageFiles/MergeImage.cs:109 | splitting always yields at least one segment, even for the empty list |
| `MergeImage.SplitCount` | MergeImageFiles/MergeImageFiles/MergeImage.cs:109 | there is one more segment than there are `;` characters, so empty segments are kept |
| `MergeImage.SplitSegmentsHaveNoSeparator` | MergeImageFiles/MergeImageFiles/MergeImage.cs:109 | no segment contains `;` |
| `MergeImage.JoinSplit` | MergeImageFiles/MergeImageFiles/MergeImage.cs:109 | joining the segments with `;` gives back the original list string |
| `MergeImage.SplitJoin` | MergeImageFiles/MergeImageFiles/MergeImage.cs:109 | splitting the `;`-join of segments without `;` gives those segments back |
| `MergeImage.DecodeAll` | MergeImageFiles/MergeImageFiles/MergeImage.cs:29-32 | the files decode, in order and one bitmap per file, exactly when every file decodes |
| `MergeImage.LoadImages` | MergeImageFiles/MergeImageFiles/MergeImage.cs:26-47 | the decode-and-measure loop collects the decoded bitmaps in file order, or fails when any file fails to decode; its accumulators end at the canvas size |
| `MergeImage.CombineBitmap` | MergeImageFiles/MergeImageFiles/MergeImage.cs:18-93 | fails exactly when the file list is empty (the canvas would be 0×0, which `new Bitmap` refuses) or some file fails to decode; otherwise it returns a fresh canvas whose pixels are the combined image of the decoded files |
| `MergeImage.OrientationOf` | MergeImageFiles/MergeImageFiles/MergeImage.cs:105-112 | landscape exactly when the flag is 0, portrait for every other integer |
| `MergeImage.MergeImageFiles` | MergeImageFiles/MergeImageFiles/MergeImage.cs:102-125 | the status is exactly `"Success"` or `"Error"`; it is `"Success"` exactly when every `;`-segment decodes and saving the combined image (in the flag's orientation) to the target path succeeds |

## Left out

- Decoding (`new Bitmap(image)`) and encoding/saving (`resultImage.Save`) are
  library calls. They are the `decode` and `save` parameters. The model does not
  capture which paths decode, or the bytes written on disk. The one-argument
  `Save` encodes by the bitmap's raw format, which is PNG for a fresh canvas.
- What `DrawImage` does to pixel values is not modelled: alpha compositing over
  black, DPI handling and interpolation. A stamp copies the pixels opaquely.
- `Dispose` of the decoded bitmaps, the graphics object and the canvas on an error
  is resource management with no observable result in the model.
- Exception types and the `throw ex` rethrow are not modelled. Every failure
  becomes `None` inside the model and `"Error"` at the entry point.
- Allocation failure of the canvas for lack of memory is not modelled, because
  Dafny allocation does not fail, so this path to `"Error"` is missing. The
  refusal of a zero extent is modelled: `CombineBitmap` fails on an empty file
  list.
- 32-bit `int` overflow of the width and height sums is not modelled; the model
  uses unbounded naturals. In the source, an overflowing sum makes `new Bitmap`
  throw, and the entry point then returns `"Error"`.
- A `null` list argument is not modelled; Dafny strings cannot be null. In the
  source it makes `Split` throw, and the result is `"Error"`.
- LoadImages: the source's early abort at the first undecodable file cannot be
  observed, because decoding is pure here. The contract states only the result.
- A partly written output file after a failed save is not modelled.
