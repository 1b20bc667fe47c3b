/** Types shared by every part of the segmentation client model. */
module Base {

  /** A JavaScript value that may be `null`: the image, the mask, the selection and the like. */
  datatype Option<+T> = None | Some(value: T)

  /** One 8-bit channel value of an RGBA pixel buffer. */
  newtype byte = x: int | 0 <= x < 256

  /** A width/height pair in pixels, as in `{ w: 1024, h: 1024 }`. */
  datatype Dims = Dims(w: nat, h: nat)

  /** A point in one of the coordinate spaces (client, canvas or model input space). */
  datatype Point = Point(x: real, y: real)

  /** A canvas reduced to what the core reads from it: its size and its RGBA bytes, row by row. */
  datatype Canvas = Canvas(width: nat, height: nat, rgba: seq<byte>)

  /** The RGBA buffer holds exactly four bytes per pixel, as `getImageData` returns it. */
  predicate WellFormed(c: Canvas) {
    |c.rgba| == c.width * c.height * 4
  }
}
