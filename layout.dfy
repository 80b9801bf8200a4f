/**
 Where each image goes: the canvas size that fits all images stacked along
 one axis, and the running offset at which each image is placed.
 */
module Layout {
  import opened Imaging

  /** The image's extent along the stacking axis. */
  function Along(img: Image, o: Orientation): nat
  {
    if o == Portrait then img.height else img.width
  }

  /** The image's extent across the stacking axis. */
  function Across(img: Image, o: Orientation): nat
  {
    if o == Portrait then img.width else img.height
  }

  /** Sum of the stacking-axis extents, accumulated in input order. */
  function Total(imgs: seq<Bitmap>, o: Orientation): nat
  {
    if imgs == [] then 0
    else Total(imgs[..|imgs| - 1], o) + Along(imgs[|imgs| - 1], o)
  }

  /** Running maximum of the cross-axis extents, starting from 0. */
  function Widest(imgs: seq<Bitmap>, o: Orientation): nat
  {
    if imgs == [] then 0
    else
      var w := Widest(imgs[..|imgs| - 1], o);
      var a := Across(imgs[|imgs| - 1], o);
      if a > w then a else w
  }

  /** The canvas: stacking axis as long as all extents together, the other as wide as the widest image. */
  function CanvasSize(imgs: seq<Bitmap>, o: Orientation): Size
  {
    if o == Portrait then Size(Widest(imgs, o), Total(imgs, o))
    else Size(Total(imgs, o), Widest(imgs, o))
  }

  /** The offset of image i: the extents of the images before it. */
  function Offset(imgs: seq<Bitmap>, o: Orientation, i: nat): nat
    requires i <= |imgs|
  {
    Total(imgs[..i], o)
  }

  /** The rectangle an image gets when placed at offset along the stacking axis. */
  function PlaceAt(img: Bitmap, o: Orientation, offset: nat): (r: Rect)
    ensures r.width == img.width && r.height == img.height
  {
    if o == Portrait then Rect(0, offset, img.width, img.height)
    else Rect(offset, 0, img.width, img.height)
  }

  /** The destination rectangle of image i. */
  function Placement(imgs: seq<Bitmap>, o: Orientation, i: nat): Rect
    requires i < |imgs|
  {
    PlaceAt(imgs[i], o, Offset(imgs, o, i))
  }

  // ---------------------------------------------------------------------------
  // Canvas size

  /** Widest is the maximum: no image is wider across, and some image attains it. */
  lemma {:induction false} WidestIsMaximum(imgs: seq<Bitmap>, o: Orientation)
    ensures forall i :: 0 <= i < |imgs| ==> Across(imgs[i], o) <= Widest(imgs, o)
    ensures imgs == [] ==> Widest(imgs, o) == 0
    ensures imgs != [] ==> exists i :: 0 <= i < |imgs| && Across(imgs[i], o) == Widest(imgs, o)
  {
    if imgs != [] {
      var n := |imgs| - 1;
      var front := imgs[..n];
      WidestIsMaximum(front, o);
      forall i | 0 <= i < n ensures Across(imgs[i], o) <= Widest(imgs, o) {
        assert imgs[i] == front[i];
      }
      if front != [] && Across(imgs[n], o) <= Widest(front, o) {
        var k :| 0 <= k < n && Across(front[k], o) == Widest(front, o);
        assert imgs[k] == front[k];
      }
    }
  }

  /** Portrait: as wide as the widest image, as tall as all heights together; landscape the other way round. */
  lemma CanvasSizeByOrientation(imgs: seq<Bitmap>)
    ensures var s := CanvasSize(imgs, Portrait);
      && s.height == Total(imgs, Portrait)
      && (forall i :: 0 <= i < |imgs| ==> imgs[i].width <= s.width)
      && (imgs != [] ==> exists i :: 0 <= i < |imgs| && imgs[i].width == s.width)
    ensures var s := CanvasSize(imgs, Landscape);
      && s.width == Total(imgs, Landscape)
      && (forall i :: 0 <= i < |imgs| ==> imgs[i].height <= s.height)
      && (imgs != [] ==> exists i :: 0 <= i < |imgs| && imgs[i].height == s.height)
  {
    WidestIsMaximum(imgs, Portrait);
    WidestIsMaximum(imgs, Landscape);
  }

  /** Decoded bitmaps are never empty, so neither is a canvas for at least one of them. */
  lemma {:induction false} CanvasNotEmpty(imgs: seq<Bitmap>, o: Orientation)
    requires imgs != []
    ensures CanvasSize(imgs, o).width > 0 && CanvasSize(imgs, o).height > 0
  {
    var n := |imgs| - 1;
    assert Total(imgs, o) >= Along(imgs[n], o) > 0;
    WidestIsMaximum(imgs, o);
    assert Widest(imgs, o) >= Across(imgs[n], o) > 0;
  }

  // ---------------------------------------------------------------------------
  // Offsets

  /** The first image sits at 0, each later one right after its predecessor, and the last ends at the total. */
  lemma OffsetSteps(imgs: seq<Bitmap>, o: Orientation)
    ensures Offset(imgs, o, 0) == 0
    ensures Offset(imgs, o, |imgs|) == Total(imgs, o)
    ensures forall i :: 0 <= i < |imgs| ==> Offset(imgs, o, i + 1) == Offset(imgs, o, i) + Along(imgs[i], o)
  {
    assert imgs[..|imgs|] == imgs;
    forall i | 0 <= i < |imgs|
      ensures Offset(imgs, o, i + 1) == Offset(imgs, o, i) + Along(imgs[i], o)
    {
      assert imgs[..i + 1][..i] == imgs[..i];
    }
  }

  /** Image i ends no later than image j starts, for every later j: offsets never decrease. */
  lemma {:induction false} OffsetOrdered(imgs: seq<Bitmap>, o: Orientation, i: nat, j: nat)
    requires i < j <= |imgs|
    ensures Offset(imgs, o, i) + Along(imgs[i], o) <= Offset(imgs, o, j)
    decreases j
  {
    OffsetSteps(imgs, o);
    if j > i + 1 {
      OffsetOrdered(imgs, o, i, j - 1);
    }
  }

  /** Offsets computed over a prefix agree with those over the whole list. */
  lemma OffsetOfPrefix(imgs: seq<Bitmap>, o: Orientation, k: nat, i: nat)
    requires i <= k <= |imgs|
    ensures Offset(imgs[..k], o, i) == Offset(imgs, o, i)
  {
    assert imgs[..k][..i] == imgs[..i];
  }

  /** Placements computed over a prefix agree with those over the whole list. */
  lemma PlacementOfPrefix(imgs: seq<Bitmap>, o: Orientation, k: nat, i: nat)
    requires i < k <= |imgs|
    ensures Placement(imgs[..k], o, i) == Placement(imgs, o, i)
  {
    OffsetOfPrefix(imgs, o, k, i);
  }

  // ---------------------------------------------------------------------------
  // Placements

  /** Every image is drawn at its own size, wholly inside the canvas. */
  lemma PlacementInsideCanvas(imgs: seq<Bitmap>, o: Orientation, i: nat)
    requires i < |imgs|
    ensures var r, s := Placement(imgs, o, i), CanvasSize(imgs, o);
      && r.width == imgs[i].width && r.height == imgs[i].height
      && r.left + r.width <= s.width && r.top + r.height <= s.height
  {
    OffsetOrdered(imgs, o, i, |imgs|);
    OffsetSteps(imgs, o);
    WidestIsMaximum(imgs, o);
  }

  /** Two different images never share a canvas cell. */
  lemma PlacementsDisjoint(imgs: seq<Bitmap>, o: Orientation, i: nat, j: nat, x: int, y: int)
    requires i < |imgs| && j < |imgs| && i != j
    ensures !(Placement(imgs, o, i).Contains(x, y) && Placement(imgs, o, j).Contains(x, y))
  {
    if i < j {
      OffsetOrdered(imgs, o, i, j);
    } else {
      OffsetOrdered(imgs, o, j, i);
    }
  }

  /** No gaps: every position on the stacking axis below the total lies in some image's span. */
  lemma {:induction false} StackingAxisCovered(imgs: seq<Bitmap>, o: Orientation, t: nat)
    requires t < Total(imgs, o)
    ensures exists i :: 0 <= i < |imgs| && Offset(imgs, o, i) <= t < Offset(imgs, o, i) + Along(imgs[i], o)
  {
    var n := |imgs| - 1;
    OffsetSteps(imgs, o);
    assert imgs[..n + 1] == imgs;
    if t < Offset(imgs, o, n) {
      var front := imgs[..n];
      StackingAxisCovered(front, o, t);
      var i :| 0 <= i < |front| && Offset(front, o, i) <= t < Offset(front, o, i) + Along(front[i], o);
      OffsetOfPrefix(imgs, o, n, i);
      assert front[i] == imgs[i];
    }
  }
}
