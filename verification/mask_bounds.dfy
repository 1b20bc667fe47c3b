/** The mask bounding-box scan that decides where the dashed border around the selected
    object is drawn (the nested loop over `getImageData` in app/page.jsx). */
module MaskBounds {
  import opened Base

  /** Offset of pixel (x, y)'s red byte in a row-major RGBA buffer. */
  function PixelIndex(width: nat, x: nat, y: nat): nat {
    (y * width + x) * 4
  }

  lemma PixelInRange(width: nat, height: nat, x: nat, y: nat)
    requires x < width && y < height
    ensures PixelIndex(width, x, y) + 3 < width * height * 4
  {
    assert y * width + x < (y + 1) * width;
    assert (y + 1) * width <= height * width by {
      MulLeft(y + 1, height, width);
    }
  }

  lemma MulLeft(a: nat, b: nat, c: nat)
    requires a <= b
    ensures a * c <= b * c
  {
  }

  /** Pixel (x, y) lies on the canvas and its alpha byte is positive. */
  predicate Visible(data: seq<byte>, width: nat, height: nat, x: int, y: int) {
    && 0 <= x < width
    && 0 <= y < height
    && PixelIndex(width, x, y) + 3 < |data|
    && data[PixelIndex(width, x, y) + 3] > 0
  }

  /** `[left, right] x [top, bottom]` is the smallest rectangle holding every visible pixel:
      it contains them all and each of its sides touches one. */
  ghost predicate IsBoundingBox(data: seq<byte>, width: nat, height: nat, left: int, right: int, top: int, bottom: int) {
    && 0 <= left <= right < width
    && 0 <= top <= bottom < height
    && (forall x, y :: Visible(data, width, height, x, y) ==> left <= x <= right && top <= y <= bottom)
    && (exists y :: Visible(data, width, height, left, y))
    && (exists y :: Visible(data, width, height, right, y))
    && (exists x :: Visible(data, width, height, x, top))
    && (exists x :: Visible(data, width, height, x, bottom))
  }

  /** Pixel (x, y) precedes the scan position (row, col) in row-major order. */
  predicate Scanned(row: int, col: int, x: int, y: int) {
    y < row || (y == row && x < col)
  }

  /** The four running bounds of the scan and whether any visible pixel was met. */
  datatype Bounds = Bounds(hasMask: bool, left: int, right: int, top: int, bottom: int)

  /** Coordinates of pixels that attain the left, right, top and bottom bounds. */
  datatype Witnesses = Witnesses(ly: int, ry: int, tx: int, bx: int)

  /** What is known after visiting every pixel before (row, col): without a visible pixel the
      bounds are the initial ones; with one they hold every visible pixel seen so far and the
      witnesses name seen visible pixels that attain them. */
  ghost predicate Inv(data: seq<byte>, width: nat, height: nat, row: int, col: int, b: Bounds, w: Witnesses) {
    && (!b.hasMask ==>
          && b == Initial(width, height)
          && forall x, y :: Visible(data, width, height, x, y) ==> !Scanned(row, col, x, y))
    && (b.hasMask ==>
          && Visible(data, width, height, b.left, w.ly) && Scanned(row, col, b.left, w.ly)
          && Visible(data, width, height, b.right, w.ry) && Scanned(row, col, b.right, w.ry)
          && Visible(data, width, height, w.tx, b.top) && Scanned(row, col, w.tx, b.top)
          && Visible(data, width, height, w.bx, b.bottom) && Scanned(row, col, w.bx, b.bottom)
          && forall x, y :: Visible(data, width, height, x, y) && Scanned(row, col, x, y) ==>
               b.left <= x <= b.right && b.top <= y <= b.bottom)
  }

  /** The bounds before the first pixel: `left = width`, `right = 0`, `top = height`, `bottom = 0`. */
  function Initial(width: nat, height: nat): Bounds {
    Bounds(false, width, 0, height, 0)
  }

  function Min(a: int, b: int): int { if a <= b then a else b }
  function Max(a: int, b: int): int { if a >= b then a else b }

  /** One visible pixel (x, y) widens the bounds with `Math.min` / `Math.max`. */
  function Widen(b: Bounds, x: int, y: int): Bounds {
    Bounds(true, Min(b.left, x), Max(b.right, x), Min(b.top, y), Max(b.bottom, y))
  }

  /** The scan's work at pixel (x, y): widen the bounds when the pixel is visible. */
  function VisitPixel(data: seq<byte>, width: nat, height: nat, b: Bounds, x: int, y: int): Bounds {
    if Visible(data, width, height, x, y) then Widen(b, x, y) else b
  }

  /** The bounds after visiting, in row-major order, every pixel before (row, col). */
  function ScanTo(data: seq<byte>, width: nat, height: nat, row: nat, col: nat): Bounds
    requires col <= width
    decreases row, col
  {
    if col > 0 then VisitPixel(data, width, height, ScanTo(data, width, height, row, col - 1), col - 1, row)
    else if row > 0 then ScanTo(data, width, height, row - 1, width)
    else Initial(width, height)
  }

  /** Visiting pixel (row, col) keeps the invariant, one position further on. */
  lemma Visit(data: seq<byte>, width: nat, height: nat, row: int, col: int, b: Bounds, w: Witnesses)
    returns (w': Witnesses)
    requires 0 <= row < height && 0 <= col < width
    requires Inv(data, width, height, row, col, b, w)
    ensures Inv(data, width, height, row, col + 1, VisitPixel(data, width, height, b, col, row), w')
  {
    if Visible(data, width, height, col, row) {
      w' := Witnesses(
        if col <= b.left then row else w.ly,
        if col >= b.right then row else w.ry,
        if row <= b.top then col else w.tx,
        if row >= b.bottom then col else w.bx);
    } else {
      w' := w;
    }
  }

  /** Finishing a row is the same as standing at the start of the next one. */
  lemma NextRow(data: seq<byte>, width: nat, height: nat, row: int, b: Bounds, w: Witnesses)
    requires Inv(data, width, height, row, width, b, w)
    ensures Inv(data, width, height, row + 1, 0, b, w)
  {
  }

  /** The scanned prefix satisfies the invariant, with some pixels attaining the bounds. */
  lemma {:induction false} ScanToInv(data: seq<byte>, width: nat, height: nat, row: nat, col: nat)
    returns (w: Witnesses)
    requires col <= width && (row < height || (row == height && col == 0))
    ensures Inv(data, width, height, row, col, ScanTo(data, width, height, row, col), w)
    decreases row, col
  {
    if col > 0 {
      var b := ScanTo(data, width, height, row, col - 1);
      var w0 := ScanToInv(data, width, height, row, col - 1);
      w := Visit(data, width, height, row, col - 1, b, w0);
      assert ScanTo(data, width, height, row, col) == VisitPixel(data, width, height, b, col - 1, row);
    } else if row > 0 {
      var b := ScanTo(data, width, height, row - 1, width);
      w := ScanToInv(data, width, height, row - 1, width);
      NextRow(data, width, height, row - 1, b, w);
      assert ScanTo(data, width, height, row, col) == b;
    } else {
      w := Witnesses(0, 0, 0, 0);
    }
  }

  /** After the last row the invariant is the scan's contract: the fold over the whole canvas
      finds a visible pixel iff there is one, and then yields the tight bounding box. */
  lemma ScanAllCorrect(data: seq<byte>, width: nat, height: nat)
    requires |data| == width * height * 4
    ensures var b := ScanTo(data, width, height, height, 0);
      && (b.hasMask <==> exists x, y :: Visible(data, width, height, x, y))
      && (b.hasMask ==> IsBoundingBox(data, width, height, b.left, b.right, b.top, b.bottom))
      && (!b.hasMask ==> b == Initial(width, height))
  {
    var b := ScanTo(data, width, height, height, 0);
    var w := ScanToInv(data, width, height, height, 0);
    if b.hasMask {
      assert Visible(data, width, height, b.left, w.ly);
    }
  }

  /** The scan: `hasMask` tells whether any pixel is visible, and when it is the four bounds are
      the tight bounding box; otherwise they keep their initial values. */
  method Scan(data: seq<byte>, width: nat, height: nat)
    returns (hasMask: bool, left: int, right: int, top: int, bottom: int)
    requires |data| == width * height * 4
    ensures hasMask <==> exists x, y :: Visible(data, width, height, x, y)
    ensures hasMask ==> IsBoundingBox(data, width, height, left, right, top, bottom)
    ensures !hasMask ==> left == width && right == 0 && top == height && bottom == 0
  {
    var b := Initial(width, height);
    var y := 0;
    while y < height
      invariant 0 <= y <= height
      invariant b == ScanTo(data, width, height, y, 0)
    {
      var x := 0;
      while x < width
        invariant 0 <= x <= width
        invariant b == ScanTo(data, width, height, y, x)
      {
        PixelInRange(width, height, x, y);
        var idx := PixelIndex(width, x, y);
        if data[idx + 3] > 0 {
          b := Widen(b, x, y);
        }
        x := x + 1;
      }
      y := y + 1;
    }
    ScanAllCorrect(data, width, height);
    hasMask, left, right, top, bottom := b.hasMask, b.left, b.right, b.top, b.bottom;
  }

  /** Any visible pixel has a non-zero byte, so the `some(x => x > 0)` pre-check never hides one. */
  lemma VisibleHasNonZeroByte(data: seq<byte>, width: nat, height: nat, x: int, y: int)
    requires Visible(data, width, height, x, y)
    ensures exists i :: 0 <= i < |data| && data[i] > 0
  {
    var i := PixelIndex(width, x, y) + 3;
    assert data[i] > 0;
  }

  /** A rectangle in mask pixels, corners inclusive. */
  datatype Box = Box(left: int, top: int, right: int, bottom: int)

  /** The border drawn around the mask: only when borders are shown, some byte of the mask
      buffer is non-zero, and the scan found a visible pixel. */
  method MaskBorder(mask: Canvas, showBorder: bool) returns (border: Option<Box>)
    requires WellFormed(mask)
    ensures border.Some? <==> showBorder && exists x, y :: Visible(mask.rgba, mask.width, mask.height, x, y)
    ensures border.Some? ==>
      IsBoundingBox(mask.rgba, mask.width, mask.height, border.value.left, border.value.right, border.value.top, border.value.bottom)
  {
    border := None;
    if showBorder && exists i :: 0 <= i < |mask.rgba| && mask.rgba[i] > 0 {
      var hasMask, left, right, top, bottom := Scan(mask.rgba, mask.width, mask.height);
      if hasMask {
        border := Some(Box(left, top, right, bottom));
      }
    } else {
      forall x, y | Visible(mask.rgba, mask.width, mask.height, x, y)
        ensures !showBorder
      {
        VisibleHasNonZeroByte(mask.rgba, mask.width, mask.height, x, y);
      }
    }
  }
}
