/** Pointer-to-model-space conversion (`convertCoordinates` in app/page.jsx). */
module Geometry {
  import opened Base

  /** The canvas element's on-screen rectangle, as `getBoundingClientRect` reports it. */
  datatype ClientRect = ClientRect(left: real, top: real, width: real, height: real)

  /** What the conversion reads from the canvas: its drawing-buffer size and its on-screen rectangle. */
  datatype View = View(canvasWidth: real, canvasHeight: real, rect: ClientRect)

  /** Every size the conversion divides by is positive (a displayed canvas). */
  predicate NonDegenerate(v: View) {
    v.canvasWidth > 0.0 && v.canvasHeight > 0.0 && v.rect.width > 0.0 && v.rect.height > 0.0
  }

  /** Pointer position in client pixels to the target space of size `target`: first into
      canvas-buffer pixels, then rescaled from the buffer size to the target size. */
  function ConvertCoordinates(clientX: real, clientY: real, v: View, target: Dims): (p: Point)
    requires NonDegenerate(v)
    ensures p.x * v.rect.width == (clientX - v.rect.left) * target.w as real
    ensures p.y * v.rect.height == (clientY - v.rect.top) * target.h as real
  {
    var scaleX := v.canvasWidth / v.rect.width;
    var scaleY := v.canvasHeight / v.rect.height;
    var x := (clientX - v.rect.left) * scaleX;
    var y := (clientY - v.rect.top) * scaleY;
    Point(x / v.canvasWidth * target.w as real, y / v.canvasHeight * target.h as real)
  }

  /** The inverse map: a point of the target space back to the client pixel it came from. */
  function ClientFromTarget(p: Point, v: View, target: Dims): (c: Point)
    requires NonDegenerate(v) && target.w > 0 && target.h > 0
    ensures (c.x - v.rect.left) * target.w as real == p.x * v.rect.width
    ensures (c.y - v.rect.top) * target.h as real == p.y * v.rect.height
  {
    Point(v.rect.left + p.x * v.rect.width / target.w as real,
          v.rect.top + p.y * v.rect.height / target.h as real)
  }

  /** The result does not depend on the canvas-buffer size: the two scalings cancel. */
  lemma ConversionIgnoresBufferSize(clientX: real, clientY: real, v: View, w: View, target: Dims)
    requires NonDegenerate(v) && NonDegenerate(w) && v.rect == w.rect
    ensures ConvertCoordinates(clientX, clientY, v, target) == ConvertCoordinates(clientX, clientY, w, target)
  {
  }

  /** Client -> target -> client recovers the pointer position. */
  lemma RoundTripFromClient(clientX: real, clientY: real, v: View, target: Dims)
    requires NonDegenerate(v) && target.w > 0 && target.h > 0
    ensures ClientFromTarget(ConvertCoordinates(clientX, clientY, v, target), v, target) == Point(clientX, clientY)
  {
  }

  /** Target -> client -> target recovers the point. */
  lemma RoundTripFromTarget(p: Point, v: View, target: Dims)
    requires NonDegenerate(v) && target.w > 0 && target.h > 0
    ensures var c := ClientFromTarget(p, v, target); ConvertCoordinates(c.x, c.y, v, target) == p
  {
  }

  /** A pointer inside the canvas rectangle lands inside the target square `[0,w] x [0,h]`. */
  lemma InsideRectLandsInTarget(clientX: real, clientY: real, v: View, target: Dims)
    requires NonDegenerate(v)
    requires v.rect.left <= clientX <= v.rect.left + v.rect.width
    requires v.rect.top <= clientY <= v.rect.top + v.rect.height
    ensures var p := ConvertCoordinates(clientX, clientY, v, target);
      0.0 <= p.x <= target.w as real && 0.0 <= p.y <= target.h as real
  {
    var p := ConvertCoordinates(clientX, clientY, v, target);
    ScaledBetween(p.x, clientX - v.rect.left, v.rect.width, target.w as real);
    ScaledBetween(p.y, clientY - v.rect.top, v.rect.height, target.h as real);
  }

  /** `r * span == off * size` with `0 <= off <= span` puts `r` between 0 and `size`. */
  lemma ScaledBetween(r: real, off: real, span: real, size: real)
    requires span > 0.0 && size >= 0.0 && 0.0 <= off <= span && r * span == off * size
    ensures 0.0 <= r <= size
  {
    assert off * size <= span * size;
    assert r * span >= 0.0;
  }
}
