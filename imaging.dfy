/**
 The values the compositor works on: decoded bitmaps, the stacking
 orientation, and the canvas rectangles images are drawn into.
 */
module Imaging {

  datatype Option<T> = None | Some(value: T)

  /** A 32-bit ARGB pixel value; the compositor never looks inside one. */
  type Color = bv32

  /** The background every canvas is cleared to (opaque black, ARGB 0xFF000000). */
  const Black: Color := 0xFF00_0000

  /** A decoded raster: its extent and its pixels, row by row. */
  datatype Image = Image(width: nat, height: nat, rows: seq<seq<Color>>)
  {
    /** A decoded bitmap always has at least one pixel and one row per unit of height. */
    predicate WellFormed()
    {
      && 0 < width && 0 < height
      && |rows| == height
      && forall y :: 0 <= y < |rows| ==> |rows[y]| == width
    }

    /** The pixel in column x of row y. */
    function At(x: nat, y: nat): Color
      requires WellFormed() && x < width && y < height
    {
      rows[y][x]
    }
  }

  /** What decoding an image file yields. */
  type Bitmap = img: Image | img.WellFormed() witness Image(1, 1, [[Black]])

  /** The axis along which the images are stacked. */
  datatype Orientation = Portrait | Landscape

  /** A destination rectangle on the canvas: left column, top row and extent. */
  datatype Rect = Rect(left: nat, top: nat, width: nat, height: nat)
  {
    predicate Contains(x: int, y: int)
    {
      left <= x < left + width && top <= y < top + height
    }
  }

  /** The extent of a canvas: columns and rows. */
  datatype Size = Size(width: nat, height: nat)
}
