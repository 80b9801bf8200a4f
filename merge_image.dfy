/**
 The two operations of MergeImage: CombineBitmap, which decodes the files,
 sizes the canvas and draws them, and MergeImageFiles, the public entry point
 that parses its arguments, combines, saves and reports "Success" or "Error".

 Decoding a file and saving a canvas are the graphics library's work; they
 are passed in as functions that may fail.
 */
module MergeImage {
  import opened Imaging
  import opened Layout
  import opened Canvas

  /** The separator between file names in the list argument. */
  const Separator: char := ';'

  // ---------------------------------------------------------------------------
  // Splitting the file list

  /** The segments between separators, empty ones included. */
  function Split(s: string): (parts: seq<string>)
    ensures |parts| >= 1
    decreases |s|
  {
    if s == [] then [""]
    else
      var rest := Split(s[1..]);
      if s[0] == Separator then [""] + rest
      else [[s[0]] + rest[0]] + rest[1..]
  }

  /** The segments joined back together with a separator between neighbours. */
  function Join(parts: seq<string>): string
    requires |parts| >= 1
  {
    if |parts| == 1 then parts[0] else parts[0] + [Separator] + Join(parts[1..])
  }

  /** How many times c occurs in s. */
  function Occurrences(s: string, c: char): nat
  {
    if s == [] then 0 else (if s[0] == c then 1 else 0) + Occurrences(s[1..], c)
  }

  /** One segment more than there are separators. */
  lemma {:induction false} SplitCount(s: string)
    ensures |Split(s)| == Occurrences(s, Separator) + 1
    decreases |s|
  {
    if s != [] {
      SplitCount(s[1..]);
    }
  }

  /** No segment contains a separator. */
  lemma {:induction false} SplitSegmentsHaveNoSeparator(s: string)
    ensures forall k :: 0 <= k < |Split(s)| ==> Separator !in Split(s)[k]
    decreases |s|
  {
    if s != [] {
      SplitSegmentsHaveNoSeparator(s[1..]);
    }
  }

  /** Prepending a character commutes with appending a suffix (a solver hint for JoinExtendsFirst). */
  lemma PrependAssociates(c: char, p: string, q: string)
    ensures ([c] + p) + q == [c] + (p + q)
  {
  }

  /** Putting a character in front of the first segment puts it in front of the joined list. */
  lemma JoinExtendsFirst(c: char, parts: seq<string>, extended: seq<string>)
    requires |parts| >= 1 && |extended| == |parts|
    requires extended[0] == [c] + parts[0] && extended[1..] == parts[1..]
    ensures Join(extended) == [c] + Join(parts)
  {
    if |parts| > 1 {
      var rest := [Separator] + Join(parts[1..]);
      assert Join(extended) == extended[0] + rest;
      assert Join(parts) == parts[0] + rest;
      PrependAssociates(c, parts[0], rest);
    }
  }

  /** Joining the segments gives back the original list. */
  lemma {:induction false} JoinSplit(s: string)
    ensures Join(Split(s)) == s
    decreases |s|
  {
    if s != [] {
      var rest := Split(s[1..]);
      JoinSplit(s[1..]);
      assert s == [s[0]] + s[1..];
      if s[0] == Separator {
        var parts := [""] + rest;
        assert parts[1..] == rest;
        assert Join(parts) == "" + [Separator] + Join(rest);
      } else {
        var parts := Split(s);
        assert parts[0] == [s[0]] + rest[0] && parts[1..] == rest[1..];
        JoinExtendsFirst(s[0], rest, parts);
      }
    }
  }

  /** Splitting a segment without separators followed by more text extends the first segment. */
  lemma {:induction false} SplitAfterPlainPrefix(a: string, b: string)
    requires Separator !in a
    ensures Split(a + b) == [a + Split(b)[0]] + Split(b)[1..]
    decreases |a|
  {
    if a != [] {
      assert (a + b)[0] == a[0] && a[0] in a;
      assert (a + b)[1..] == a[1..] + b;
      SplitAfterPlainPrefix(a[1..], b);
      var r := Split(a[1..] + b);
      assert r[0] == a[1..] + Split(b)[0] && r[1..] == Split(b)[1..];
      assert Split(a + b) == [[a[0]] + r[0]] + r[1..];
      assert [a[0]] + (a[1..] + Split(b)[0]) == a + Split(b)[0];
    } else {
      assert a + b == b && a + Split(b)[0] == Split(b)[0];
      assert Split(b) == [Split(b)[0]] + Split(b)[1..];
    }
  }

  /** Splitting the joined segments gives the segments back, when none holds a separator. */
  lemma {:induction false} SplitJoin(parts: seq<string>)
    requires |parts| >= 1
    requires forall k :: 0 <= k < |parts| ==> Separator !in parts[k]
    ensures Split(Join(parts)) == parts
  {
    if |parts| == 1 {
      SplitAfterPlainPrefix(parts[0], "");
      assert parts[0] + "" == parts[0];
    } else {
      var tail := [Separator] + Join(parts[1..]);
      SplitJoin(parts[1..]);
      assert tail[1..] == Join(parts[1..]);
      assert Split(tail) == [""] + parts[1..];
      assert Join(parts) == parts[0] + tail;
      SplitAfterPlainPrefix(parts[0], tail);
      assert parts[0] + "" == parts[0];
    }
  }

  // ---------------------------------------------------------------------------
  // Decoding and measuring

  /** Every file decoded in order, or None as soon as one cannot be. */
  function DecodeAll(files: seq<string>, decode: string -> Option<Bitmap>): (r: Option<seq<Bitmap>>)
    ensures r.Some? <==> forall k :: 0 <= k < |files| ==> decode(files[k]).Some?
    ensures r.Some? ==>
      |r.value| == |files| && forall k :: 0 <= k < |files| ==> decode(files[k]) == Some(r.value[k])
  {
    if files == [] then Some([])
    else
      match decode(files[0])
      case None => None
      case Some(first) =>
        match DecodeAll(files[1..], decode)
        case None => None
        case Some(rest) => Some([first] + rest)
  }

  /**
   Decode the files in order, collecting the bitmaps and accumulating the
   canvas size; stop at the first file that cannot be decoded.
   */
  method LoadImages(files: seq<string>, o: Orientation, decode: string -> Option<Bitmap>)
    returns (loaded: Option<seq<Bitmap>>, width: nat, height: nat)
    ensures loaded == DecodeAll(files, decode)
    ensures loaded.Some? ==> Size(width, height) == CanvasSize(loaded.value, o)
  {
    width, height := 0, 0;
    var images: seq<Bitmap> := [];
    for i := 0 to |files|
      invariant |images| == i
      invariant forall k :: 0 <= k < i ==> decode(files[k]) == Some(images[k])
      invariant Size(width, height) == CanvasSize(images, o)
    {
      var decoded := decode(files[i]);
      if decoded.None? {
        return None, width, height;
      }
      var bitmap := decoded.value;
      if o == Portrait {
        width := if bitmap.width > width then bitmap.width else width;
        height := height + bitmap.height;
      } else {
        width := width + bitmap.width;
        height := if bitmap.height > height then bitmap.height else height;
      }
      assert (images + [bitmap])[..i] == images;
      images := images + [bitmap];
    }
    loaded := Some(images);
    assert loaded.value == DecodeAll(files, decode).value;
  }

  /**
   Decode the files and draw them, stacked in input order, on a black canvas
   just large enough for all of them. None when a file cannot be decoded, or
   when there are no files: a bitmap with a zero extent cannot be allocated.
   */
  method CombineBitmap(files: seq<string>, o: Orientation, decode: string -> Option<Bitmap>)
    returns (result: Option<array2<Color>>)
    ensures result.Some? <==> files != [] && DecodeAll(files, decode).Some?
    ensures result.Some? ==>
      fresh(result.value) && Pixels(result.value) == Composite(DecodeAll(files, decode).value, o)
  {
    var loaded, width, height := LoadImages(files, o, decode);
    if loaded.None? {
      return None;
    }
    if files != [] {
      CanvasNotEmpty(loaded.value, o);
    }
    if width == 0 || height == 0 {
      return None;
    }
    var canvas := Draw(loaded.value, o, width, height);
    forall y | 0 <= y < height ensures Pixels(canvas)[y] == Composite(loaded.value, o)[y] {
    }
    return Some(canvas);
  }

  // ---------------------------------------------------------------------------
  // The entry point

  /** The flag 0 selects landscape; every other value portrait. */
  function OrientationOf(isPortraitMode: int): (o: Orientation)
    ensures o == Landscape <==> isPortraitMode == 0
  {
    if isPortraitMode == 0 then Landscape else Portrait
  }

  /**
   Split the list on ';', combine the files in the orientation the flag selects
   and save the result; "Success" when every step succeeded, "Error" otherwise.
   */
  method MergeImageFiles(listFiles: string, isPortraitMode: int, resultFilePath: string,
                         decode: string -> Option<Bitmap>, save: (seq<seq<Color>>, string) -> bool)
    returns (status: string)
    ensures status == "Success" || status == "Error"
    ensures var images := DecodeAll(Split(listFiles), decode);
      (status == "Success") <==>
        images.Some? && save(Composite(images.value, OrientationOf(isPortraitMode)), resultFilePath)
  {
    var files := Split(listFiles);
    var isPortrait := true;
    if isPortraitMode == 0 {
      isPortrait := false;
    }
    var result := CombineBitmap(files, if isPortrait then Portrait else Landscape, decode);
    if result.None? {
      return "Error";
    }
    var saved := save(Pixels(result.value), resultFilePath);
    status := if saved then "Success" else "Error";
  }
}
