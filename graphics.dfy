/**
 * An `android.graphics.Canvas` reduced to its size and the circles drawn on
 * it, in drawing order.
 */
module Graphics {
  import opened Numerics

  /** One `drawCircle(x, y, radius, paint)` call: centre, radius and the paint's ARGB colour. */
  datatype Disc = Disc(x: real, y: real, radius: real, color: Bits32)

  class Canvas {
    const width: int
    const height: int
    var log: seq<Disc>

    constructor (width: int, height: int)
      ensures this.width == width && this.height == height && log == []
    {
      this.width := width;
      this.height := height;
      log := [];
    }

    /** `drawColor(0, PorterDuff.Mode.CLEAR)`: everything drawn so far is erased. */
    method Clear()
      modifies this
      ensures log == []
    {
      log := [];
    }

    method DrawCircle(x: real, y: real, radius: real, color: Bits32)
      modifies this
      ensures log == old(log) + [Disc(x, y, radius, color)]
    {
      log := log + [Disc(x, y, radius, color)];
    }
  }
}
