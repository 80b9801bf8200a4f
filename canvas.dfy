/**
 Drawing the combined image: a canvas cleared to black, then every image
 stamped, in input order, into its own rectangle.
 */
module Canvas {
  import opened Imaging
  import opened Layout

  /**
   The colour of cell (x, y) after clearing to black and stamping the images
   in order, each one over what was there before.
   */
  function Render(imgs: seq<Bitmap>, o: Orientation, x: int, y: int): Color
  {
    if imgs == [] then Black
    else
      var n := |imgs| - 1;
      var r := PlaceAt(imgs[n], o, Total(imgs[..n], o));
      if r.Contains(x, y) then imgs[n].At(x - r.left, y - r.top)
      else Render(imgs[..n], o, x, y)
  }

  /** The combined image, row by row, at the size the layout gives. */
  function Composite(imgs: seq<Bitmap>, o: Orientation): (rows: seq<seq<Color>>)
    ensures |rows| == CanvasSize(imgs, o).height
    ensures forall y :: 0 <= y < |rows| ==> |rows[y]| == CanvasSize(imgs, o).width
  {
    var s := CanvasSize(imgs, o);
    seq(s.height, y => seq(s.width, x => Render(imgs, o, x, y)))
  }

  /** The pixels of a canvas, row by row. */
  function Pixels(canvas: array2<Color>): (rows: seq<seq<Color>>)
    reads canvas
    ensures |rows| == canvas.Length0
    ensures forall y :: 0 <= y < |rows| ==> |rows[y]| == canvas.Length1
  {
    seq(canvas.Length0, y requires 0 <= y < canvas.Length0 reads canvas =>
      seq(canvas.Length1, x requires 0 <= x < canvas.Length1 reads canvas => canvas[y, x]))
  }

  // ---------------------------------------------------------------------------
  // What the combined image shows

  /** Stamping one more image changes exactly the cells of its rectangle. */
  lemma RenderStep(imgs: seq<Bitmap>, o: Orientation, i: nat, x: int, y: int)
    requires i < |imgs|
    ensures var r := Placement(imgs, o, i);
      Render(imgs[..i + 1], o, x, y)
        == if r.Contains(x, y) then imgs[i].At(x - r.left, y - r.top) else Render(imgs[..i], o, x, y)
  {
    assert imgs[..i + 1][..i] == imgs[..i];
  }

  /** A cell that no image's rectangle covers is still black. */
  lemma {:induction false} UncoveredStaysBlack(imgs: seq<Bitmap>, o: Orientation, x: int, y: int)
    requires forall i :: 0 <= i < |imgs| ==> !Placement(imgs, o, i).Contains(x, y)
    ensures Render(imgs, o, x, y) == Black
  {
    if imgs != [] {
      var n := |imgs| - 1;
      assert !Placement(imgs, o, n).Contains(x, y);
      forall i | 0 <= i < n ensures !Placement(imgs[..n], o, i).Contains(x, y) {
        PlacementOfPrefix(imgs, o, n, i);
      }
      UncoveredStaysBlack(imgs[..n], o, x, y);
    }
  }

  /**
   A cell inside image i's rectangle shows image i's own pixel, and no other
   image's rectangle covers it: every covered cell is written by exactly one image.
   */
  lemma {:induction false} CoveredShowsOwnImage(imgs: seq<Bitmap>, o: Orientation, i: nat, x: int, y: int)
    requires i < |imgs| && Placement(imgs, o, i).Contains(x, y)
    ensures var r := Placement(imgs, o, i);
      Render(imgs, o, x, y) == imgs[i].At(x - r.left, y - r.top)
    ensures forall j :: 0 <= j < |imgs| && j != i ==> !Placement(imgs, o, j).Contains(x, y)
  {
    forall j | 0 <= j < |imgs| && j != i ensures !Placement(imgs, o, j).Contains(x, y) {
      PlacementsDisjoint(imgs, o, i, j, x, y);
    }
    var n := |imgs| - 1;
    if i < n {
      assert !Placement(imgs, o, n).Contains(x, y);
      PlacementOfPrefix(imgs, o, n, i);
      CoveredShowsOwnImage(imgs[..n], o, i, x, y);
    }
  }

  /** Every cell of the combined image is black or the pixel of the one image covering it. */
  lemma CompositeCell(imgs: seq<Bitmap>, o: Orientation, x: nat, y: nat)
    requires y < CanvasSize(imgs, o).height && x < CanvasSize(imgs, o).width
    ensures var c := Composite(imgs, o)[y][x];
      || (c == Black && forall i :: 0 <= i < |imgs| ==> !Placement(imgs, o, i).Contains(x, y))
      || exists i :: 0 <= i < |imgs| && Placement(imgs, o, i).Contains(x, y)
           && c == imgs[i].At(x - Placement(imgs, o, i).left, y - Placement(imgs, o, i).top)
  {
    if i :| 0 <= i < |imgs| && Placement(imgs, o, i).Contains(x, y) {
      CoveredShowsOwnImage(imgs, o, i, x, y);
    } else {
      UncoveredStaysBlack(imgs, o, x, y);
    }
  }

  // ---------------------------------------------------------------------------
  // Drawing on a mutable canvas

  /** Fill the whole canvas with one colour. */
  method Clear(canvas: array2<Color>, color: Color)
    modifies canvas
    ensures forall y, x :: 0 <= y < canvas.Length0 && 0 <= x < canvas.Length1 ==> canvas[y, x] == color
  {
    forall y, x | 0 <= y < canvas.Length0 && 0 <= x < canvas.Length1 {
      canvas[y, x] := color;
    }
  }

  /**
   Copy img, unscaled and opaque, into the rectangle whose top-left corner is
   (left, top); whatever falls outside the canvas is clipped.
   */
  method Stamp(canvas: array2<Color>, img: Bitmap, left: nat, top: nat)
    modifies canvas
    ensures forall y, x :: 0 <= y < canvas.Length0 && 0 <= x < canvas.Length1 ==>
      canvas[y, x] == if Rect(left, top, img.width, img.height).Contains(x, y)
                      then img.At(x - left, y - top) else old(canvas[y, x])
  {
    forall y, x | 0 <= y < canvas.Length0 && 0 <= x < canvas.Length1
                  && left <= x < left + img.width && top <= y < top + img.height {
      canvas[y, x] := img.At(x - left, y - top);
    }
  }

  /**
   Allocate a width-by-height canvas, clear it to black and stamp each image at
   the running offset, advancing the offset by the image's extent along the axis.
   */
  method Draw(images: seq<Bitmap>, o: Orientation, width: nat, height: nat) returns (canvas: array2<Color>)
    ensures fresh(canvas)
    ensures canvas.Length0 == height && canvas.Length1 == width
    ensures forall y, x :: 0 <= y < height && 0 <= x < width ==> canvas[y, x] == Render(images, o, x, y)
  {
    canvas := new Color[height, width];
    Clear(canvas, Black);
    var offset := 0;
    var i := 0;
    while i < |images|
      invariant i <= |images|
      invariant offset == Offset(images, o, i)
      invariant forall y, x :: 0 <= y < height && 0 <= x < width ==> canvas[y, x] == Render(images[..i], o, x, y)
    {
      var image := images[i];
      if o == Portrait {
        Stamp(canvas, image, 0, offset);
        offset := offset + image.height;
      } else {
        Stamp(canvas, image, offset, 0);
        offset := offset + image.width;
      }
      forall y, x | 0 <= y < height && 0 <= x < width
        ensures canvas[y, x] == Render(images[..i + 1], o, x, y)
      {
        RenderStep(images, o, i, x, y);
      }
      OffsetSteps(images, o);
      i := i + 1;
    }
    assert images[..i] == images;
  }
}
