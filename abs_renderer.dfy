/**
 * `AbsColorWheelRenderer`: the state both colour-wheel renderers share (the
 * render option and the list of `ColorCircle`s kept for hit testing), the
 * alpha byte they paint with, and `updateOrAddCircle`, which reuses the list
 * in place. The inner loop that places one ring of samples, identical in
 * both renderers, is `DrawRing`.
 *
 * `Samples` is the list's abstract value: the sample each circle holds, in
 * list order.
 */
module Renderers {
  import opened Numerics
  import opened Android
  import opened Graphics
  import opened ColorCircles
  import opened RenderOptions
  import opened WheelLayout
  import ComposeColors

  class ColorWheelRenderer {
    /** Which concrete renderer this is. */
    const style: Style
    var renderOption: RenderOption
    var circleList: seq<ColorCircle>
    /** The renderer's reused `hsvBuffer`. */
    const hsvBuffer: array<real>

    ghost var Samples: seq<Sample>
    ghost var Repr: set<object>

    /** Each listed circle is distinct, owns a distinct HSV array, and holds the matching sample. */
    ghost predicate Valid()
      reads this, Repr
      ensures Valid() ==> this in Repr
    {
      this in Repr && hsvBuffer in Repr && hsvBuffer.Length == 3 &&
      (forall o :: o in Repr ==> !(o is Canvas)) &&
      |circleList| == |Samples| &&
      (forall i :: 0 <= i < |circleList| ==>
        circleList[i] in Repr && circleList[i].hsv in Repr && circleList[i].hsv != hsvBuffer &&
        circleList[i].Valid() && circleList[i].View() == Samples[i]) &&
      (forall i, j :: 0 <= i < j < |circleList| ==>
        circleList[i] != circleList[j] && circleList[i].hsv != circleList[j].hsv)
    }

    constructor (style: Style)
      ensures Valid() && fresh(Repr)
      ensures this.style == style && renderOption == DefaultRenderOption() && Samples == []
    {
      this.style := style;
      renderOption := DefaultRenderOption();
      circleList := [];
      hsvBuffer := new real[3];
      Samples := [];
      new;
      Repr := {this, hsvBuffer};
    }

    /** Assigning the `renderOption` property. */
    method SetRenderOption(o: RenderOption)
      requires Valid()
      modifies this`renderOption
      ensures Valid() && renderOption == o
    {
      renderOption := o;
    }

    /** `alphaValueAsInt`: the option's alpha as a byte, round(alpha * 255) clamped to [0, 255]. */
    function AlphaValueAsInt(): (n: int)
      reads this`renderOption
      ensures 0 <= n <= 255
      ensures 0.0 <= renderOption.alpha <= 1.0 ==> n as real - 0.5 <= renderOption.alpha * 255.0 < n as real + 0.5
      ensures renderOption.alpha <= 0.0 ==> n == 0
      ensures renderOption.alpha >= 1.0 ==> n == 255
    {
      ComposeColors.ToAlphaInt(renderOption.alpha)
    }

    /**
     * `updateOrAddCircle(index, x, y, hsv)`: at an index past the end, append a new circle
     * built from a copy of `hsv` (at position `size`, whatever `index` is); otherwise
     * overwrite the circle at `index` in place.
     */
    method UpdateOrAddCircle(p: Platform, index: nat, x: real, y: real, hsv: array<real>)
      requires Valid() && hsv.Length == 3
      modifies Repr
      ensures Valid() && fresh(Repr - old(Repr))
      ensures Samples == if index < old(|Samples|)
        then old(Samples)[index := MakeSample(p, x, y, old(HsvAt(hsv)))]
        else old(Samples) + [MakeSample(p, x, y, old(HsvAt(hsv)))]
      ensures |Samples| >= old(|Samples|)
      ensures hsv[..] == old(hsv[..])
      ensures renderOption == old(renderOption)
      ensures index >= old(|circleList|) ==>
        circleList[..old(|circleList|)] == old(circleList) && fresh(circleList[old(|circleList|)].hsv)
      ensures index < old(|circleList|) ==> circleList == old(circleList)
    {
      if index >= |circleList| {
        AddCircle(p, x, y, hsv);
      } else {
        var c := circleList[index];
        c.Set(p, x, y, hsv);
        Samples := Samples[index := c.View()];
      }
    }

    /** The append branch of `updateOrAddCircle`: a new circle over a copy of `hsv`, at the end of the list. */
    method AddCircle(p: Platform, x: real, y: real, hsv: array<real>)
      requires Valid() && hsv.Length == 3
      modifies this
      ensures Valid() && fresh(Repr - old(Repr))
      ensures Samples == old(Samples) + [MakeSample(p, x, y, old(HsvAt(hsv)))]
      ensures hsv[..] == old(hsv[..]) && renderOption == old(renderOption)
      ensures circleList[..old(|circleList|)] == old(circleList) && fresh(circleList[old(|circleList|)].hsv)
    {
      var copy := new real[3];
      copy[0], copy[1], copy[2] := hsv[0], hsv[1], hsv[2];
      var c := new ColorCircle(p, x, y, copy);
      circleList := circleList + [c];
      Samples := Samples + [c.View()];
      Repr := Repr + {c, c.hsv};
    }

    /**
     * `draw()` of `SimpleColorWheelRenderer` (style `Simple`) and of
     * `FlowerColorWheelRenderer` (style `Flower`): without a target canvas nothing
     * happens; otherwise every ring `0 until density` is placed in turn, each
     * position painted and written into the circle list at the running index.
     */
    method Draw(p: Platform)
      requires Valid()
      modifies Repr, renderOption.targetCanvas
      ensures Valid() && fresh(Repr - old(Repr))
      ensures renderOption == old(renderOption)
      ensures renderOption.targetCanvas == null ==> Samples == old(Samples)
      ensures renderOption.targetCanvas != null ==>
        var o, c := renderOption, renderOption.targetCanvas;
        Samples == Overlay(old(Samples), WheelSamples(p, style, o, CenterX(o, c), CenterY(o, c), RingCount(o))) &&
        c.log == old(c.log) + WheelDiscs(p, style, o, CenterX(o, c), CenterY(o, c), AlphaValueAsInt(), RingCount(o))
    {
      var canvas := renderOption.targetCanvas;
      if canvas == null {
        return;
      }
      var centerX := renderOption.centerX.GetOr(canvas.width as real / 2.0);
      var centerY := renderOption.centerY.GetOr(canvas.height as real / 2.0);
      DrawRings(p, canvas, centerX, centerY, AlphaValueAsInt());
    }

    /** The ring loop of `draw`, on a canvas outside the renderer's state. */
    method DrawRings(p: Platform, canvas: Canvas, centerX: real, centerY: real, alphaByte: int)
      requires Valid() && 0 <= alphaByte < 256
      modifies Repr, canvas
      ensures Valid() && fresh(Repr - old(Repr))
      ensures renderOption == old(renderOption)
      ensures Samples == Overlay(old(Samples), WheelSamples(p, style, renderOption, centerX, centerY, RingCount(renderOption)))
      ensures canvas.log == old(canvas.log) + WheelDiscs(p, style, renderOption, centerX, centerY, alphaByte, RingCount(renderOption))
    {
      var o := renderOption;
      ghost var prev, log := Samples, canvas.log;
      ghost var samples: seq<Sample>, discs: seq<Disc> := [], [];
      var circleIndex := 0;
      var ring := 0;
      while ring < o.density
        invariant 0 <= ring <= RingCount(o)
        invariant Valid() && fresh(Repr - old(Repr))
        invariant renderOption == o
        invariant samples == WheelSamples(p, style, o, centerX, centerY, ring)
        invariant discs == WheelDiscs(p, style, o, centerX, centerY, alphaByte, ring)
        invariant circleIndex == |samples|
        invariant Samples == Overlay(prev, samples)
        invariant canvas.log == log + discs
      {
        var r := RingParameters(o, ring);
        ghost var ringDiscs := RingDiscs(p, centerX, centerY, r, o.lightness, alphaByte);
        circleIndex := DrawRing(p, canvas, centerX, centerY, r, o.lightness, alphaByte, circleIndex, prev, samples);
        AppendAssociative(log, discs, ringDiscs);
        WheelSamplesStep(p, style, o, centerX, centerY, ring);
        WheelDiscsStep(p, style, o, centerX, centerY, alphaByte, ring);
        samples := samples + RingSamples(p, centerX, centerY, r, o.lightness);
        discs := discs + ringDiscs;
        ring := ring + 1;
      }
      assert ring == RingCount(o);
    }

    /**
     * The per-ring values of `draw`: saturation ratio, radius, circle size (varied
     * and floored for the flower) and the number of circles, capped at `2 * density`
     * for the flower.
     */
    method RingParameters(o: RenderOption, ring: nat) returns (r: Ring)
      requires ring < o.density
      ensures r == RingOf(style, o, ring)
      ensures r.index == ring && r.count >= 1 && (style == Flower ==> r.count <= 2 * o.density)
      ensures 0.0 <= r.ratio <= 1.0 && r.radius == o.maxRadius * r.ratio
      ensures ring == 0 ==> r.ratio == 0.0 && r.radius == 0.0
      ensures ring == o.density - 1 > 0 ==> r.ratio == 1.0 && r.radius == o.maxRadius
    {
      RingRatioInRange(o.density, ring);
      var radiusRatio := RingRatio(o.density, ring);
      var radius := o.maxRadius * radiusRatio;
      var circleSize := CircleSize(style, o, ring);
      var circlesInRing := CalcTotalCount(radius, circleSize);
      if style == Flower {
        circlesInRing := MinInt(circlesInRing, o.density * 2);
      }
      ghost var expected := RingOf(style, o, ring);
      assert expected.ratio == radiusRatio && expected.radius == radius;
      assert expected.discRadius == circleSize - o.strokeWidth;
      assert expected.count == circlesInRing;
      r := Ring(ring, radiusRatio, radius, circlesInRing, circleSize - o.strokeWidth);
    }

    /**
     * One ring of either renderer's `draw`: place each position in turn, recording
     * it at the running index `start + position`.
     */
    method DrawRing(p: Platform, canvas: Canvas, cx: real, cy: real, ring: Ring, lightness: real,
                    alphaByte: int, start: nat, ghost prev: seq<Sample>, ghost written: seq<Sample>)
      returns (next: nat)
      requires Valid() && ring.count >= 1 && 0 <= alphaByte < 256
      requires start == |written| && Samples == Overlay(prev, written)
      modifies Repr, canvas
      ensures Valid() && fresh(Repr - old(Repr))
      ensures next == start + ring.count
      ensures Samples == Overlay(prev, written + RingSamples(p, cx, cy, ring, lightness))
      ensures canvas.log == old(canvas.log) + RingDiscs(p, cx, cy, ring, lightness, alphaByte)
      ensures renderOption == old(renderOption)
    {
      ghost var samples := RingSamples(p, cx, cy, ring, lightness);
      ghost var discs := RingDiscs(p, cx, cy, ring, lightness, alphaByte);
      ghost var log := canvas.log;
      var position := 0;
      while position < ring.count
        invariant 0 <= position <= ring.count
        invariant Valid() && fresh(Repr - old(Repr))
        invariant Samples == Overlay(prev, written + samples[..position])
        invariant canvas.log == log + discs[..position]
        invariant renderOption == old(renderOption)
      {
        PlaceSample(p, canvas, cx, cy, ring, lightness, alphaByte, position, start + position,
                    prev, written + samples[..position]);
        assert samples[..position + 1] == samples[..position] + [samples[position]];
        assert discs[..position + 1] == discs[..position] + [discs[position]];
        AppendAssociative(written, samples[..position], [samples[position]]);
        AppendAssociative(log, discs[..position], [discs[position]]);
        position := position + 1;
      }
      assert samples[..position] == samples && discs[..position] == discs;
      next := start + ring.count;
    }

    /**
     * The body of the inner loop: compute the angle, the point on the ring and the HSV
     * in `hsvBuffer`, paint the disc, and record the sample at `index`.
     */
    method PlaceSample(p: Platform, canvas: Canvas, cx: real, cy: real, ring: Ring, lightness: real,
                       alphaByte: int, position: nat, index: nat, ghost prev: seq<Sample>, ghost w: seq<Sample>)
      requires Valid() && ring.count >= 1 && 0 <= alphaByte < 256
      requires index == |w| && Samples == Overlay(prev, w)
      modifies Repr, canvas
      ensures Valid() && fresh(Repr - old(Repr))
      ensures Samples == Overlay(prev, w + [RingSample(p, cx, cy, ring, lightness, position)])
      ensures canvas.log == old(canvas.log) + [RingDisc(p, cx, cy, ring, lightness, alphaByte, position)]
      ensures renderOption == old(renderOption)
    {
      var x, y, hsv := SamplePoint(p, cx, cy, ring, lightness, position);
      FillBuffer(hsv.h, hsv.s, hsv.v);
      RingSampleAt(p, cx, cy, ring, lightness, position, x, y, hsv);
      ghost var s := RingSample(p, cx, cy, ring, lightness, position);
      var paintColor := MakeArgb(alphaByte, RgbOf(HsvToColor(p, HsvAt(hsvBuffer))));
      canvas.DrawCircle(x, y, ring.discRadius, paintColor);
      OverlayStep(prev, w, s);
      UpdateOrAddCircle(p, index, x, y, hsvBuffer);
    }

    /** The sample `set` stores for a point and HSV computed as `SamplePoint` computes them. */
    static lemma RingSampleAt(p: Platform, cx: real, cy: real, ring: Ring, lightness: real, position: nat,
                              x: real, y: real, hsv: Hsv)
      requires ring.count >= 1
      requires var angle := SampleAngle(ring.index, ring.count, position);
        x == cx + ring.radius * p.cos(angle) && y == cy + ring.radius * p.sin(angle)
      requires hsv == SampleHsv(ring, lightness, position)
      ensures RingSample(p, cx, cy, ring, lightness, position) == MakeSample(p, x, y, hsv)
    {
    }

    /** Writes hue, saturation and value into `hsvBuffer`, which no listed circle shares. */
    method FillBuffer(h: real, sat: real, v: real)
      requires Valid()
      modifies hsvBuffer
      ensures Valid() && HsvAt(hsvBuffer) == Hsv(h, sat, v)
    {
      hsvBuffer[0] := h;
      hsvBuffer[1] := sat;
      hsvBuffer[2] := v;
    }

    /** The angle of a position, the point it gives on the ring, and the HSV it gives. */
    static method SamplePoint(p: Platform, cx: real, cy: real, ring: Ring, lightness: real, position: nat)
      returns (x: real, y: real, hsv: Hsv)
      requires ring.count >= 1
      ensures var angle := SampleAngle(ring.index, ring.count, position);
        x == cx + ring.radius * p.cos(angle) && y == cy + ring.radius * p.sin(angle)
      ensures hsv == SampleHsv(ring, lightness, position)
      ensures 0.0 <= hsv.h < 360.0 && hsv.s == ring.ratio && hsv.v == lightness
    {
      SampleHsvInRange(ring, lightness, position);
      var angle := SampleAngle(ring.index, ring.count, position);
      x := cx + ring.radius * p.cos(angle);
      y := cy + ring.radius * p.sin(angle);
      hsv := Hsv(HueOf(angle), ring.ratio, lightness);
    }
  }
}
