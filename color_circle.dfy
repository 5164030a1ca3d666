/**
 * `ColorCircle`: one sample of the colour wheel, with its position, its
 * own three-float HSV array, the colour computed from it and a lazily
 * created scratch array for `getHsvWithLightness`.
 */
module ColorCircles {
  import opened Numerics
  import opened Android

  /** What a circle holds: position, HSV and the colour `HSVToColor` gave for that HSV. */
  datatype Sample = Sample(x: real, y: real, hsv: Hsv, color: Bits32)

  /** The sample `set(x, y, hsv)` stores. */
  function MakeSample(p: Platform, x: real, y: real, hsv: Hsv): (s: Sample)
    ensures s.x == x && s.y == y && s.hsv == hsv
    ensures AlphaOf(s.color) == 255 && RgbOf(s.color) == p.hsvToRgb(hsv)
  {
    Sample(x, y, hsv, HsvToColor(p, hsv))
  }

  /** The HSV triple held by the first three entries of a float array. */
  function HsvAt(a: array<real>): Hsv
    requires a.Length >= 3
    reads a
  {
    Hsv(a[0], a[1], a[2])
  }

  /** `(x1 - x2)^2 + (y1 - y2)^2`. */
  function SquaredDistance(x1: real, y1: real, x2: real, y2: real): (d: real)
    ensures d >= 0.0
    ensures x1 == x2 && y1 == y2 ==> d == 0.0
  {
    SquareNonNegative(x1 - x2);
    SquareNonNegative(y1 - y2);
    (x1 - x2) * (x1 - x2) + (y1 - y2) * (y1 - y2)
  }

  lemma SquareNonNegative(d: real)
    ensures d * d >= 0.0
  {
    if d < 0.0 {
      assert d * d == (-d) * (-d);
    }
  }

  class ColorCircle {
    var x: real
    var y: real
    const hsv: array<real>
    var hsvClone: array?<real>
    var color: Bits32

    ghost predicate Valid()
      reads this
    {
      hsv.Length == 3 && hsvClone != hsv && (hsvClone != null ==> hsvClone.Length == 3)
    }

    /** The sample this circle currently holds. */
    function View(): Sample
      reads this, hsv
      requires Valid()
    {
      Sample(x, y, HsvAt(hsv), color)
    }

    /** `ColorCircle(x, y, hsv)`: a fresh HSV array initialised through `set`. */
    constructor (p: Platform, x: real, y: real, src: array<real>)
      requires src.Length >= 3
      ensures Valid() && fresh(hsv) && hsvClone == null
      ensures View() == MakeSample(p, x, y, HsvAt(src))
    {
      this.x := 0.0;
      this.y := 0.0;
      hsv := new real[3];
      hsvClone := null;
      color := 0;
      new;
      Set(p, x, y, src);
    }

    /** `set(x, y, hsv)`: copies the three floats into the circle's own array and recomputes the colour. */
    method Set(p: Platform, x: real, y: real, src: array<real>)
      requires Valid() && src.Length >= 3
      modifies this, hsv
      ensures Valid() && hsvClone == old(hsvClone)
      ensures View() == MakeSample(p, x, y, old(HsvAt(src)))
      ensures src[..] == old(src[..])
    {
      this.x := x;
      this.y := y;
      hsv[0] := src[0];
      hsv[1] := src[1];
      hsv[2] := src[2];
      color := HsvToColor(p, HsvAt(hsv));
    }

    /** `sqDist(x, y)`: squared distance from the circle's centre to (x, y). */
    function SqDist(px: real, py: real): (d: real)
      reads this
      ensures d >= 0.0
      ensures x == px && y == py ==> d == 0.0
    {
      SquaredDistance(x, y, px, py)
    }

    /**
     * `getHsvWithLightness(l)`: [hue, saturation, l] in a scratch array that is
     * created on the first call and reused by every later one.
     */
    method GetHsvWithLightness(lightness: real) returns (r: array<real>)
      requires Valid()
      modifies this`hsvClone, hsvClone
      ensures Valid() && r == hsvClone
      ensures r[..] == [hsv[0], hsv[1], lightness]
      ensures old(hsvClone) != null ==> r == old(hsvClone)
      ensures old(hsvClone) == null ==> fresh(r)
      ensures View() == old(View())
    {
      var clone: array<real>;
      if hsvClone != null {
        clone := hsvClone;
      } else {
        clone := new real[3];
        clone[0], clone[1], clone[2] := hsv[0], hsv[1], hsv[2];
      }
      clone[0] := hsv[0];
      clone[1] := hsv[1];
      clone[2] := lightness;
      hsvClone := clone;
      r := clone;
    }
  }

  /** A second `getHsvWithLightness` overwrites the array the first one returned. */
  method ScratchArrayIsShared(c: ColorCircle, l1: real, l2: real) returns (first: array<real>, second: array<real>)
    requires c.Valid()
    modifies c, c.hsvClone
    ensures first == second
    ensures first[..] == [c.hsv[0], c.hsv[1], l2]
  {
    first := c.GetHsvWithLightness(l1);
    second := c.GetHsvWithLightness(l2);
  }
}
