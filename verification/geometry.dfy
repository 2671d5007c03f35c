/**
 * What one display refresh draws, as a list of primitive records standing
 * for the calls into the graphics library: the radial layout of the arcs,
 * the arc sweep and needle angles, and the order of a whole frame.
 */
module Geometry {
  import opened Gauge

  /** Centre of the 240x240 canvas, on both axes. */
  const Center: int := 120
  /** Outer radius of the outermost arc. */
  const Radius: int := 120
  /** Radial space left between two drawn arcs. */
  const ArcGap: int := 2
  /** Every arc sweep begins at the top of the circle. */
  const ArcStartAngle: real := -90.0
  /** Radius of the dial circle. */
  const DialRadius: int := Radius - 40
  /** How far short of the dial circle the needle stops. */
  const NeedleInset: int := 10
  /** Vertical position of the temperature label. */
  const LabelY: int := 200

  /**
   * One call into the graphics library. `Needle` stands for the line from
   * the centre towards `angle` (degrees, 0 straight up, clockwise) with the
   * given length; its end point is left to the library's trigonometry.
   */
  datatype Primitive =
    | FillScreen(color: Color)
    | FillArc(x: int, y: int, r0: int, r1: int, angle0: real, angle1: real, color: Color)
    | DrawCircle(x: int, y: int, r: int, color: Color)
    | Needle(x: int, y: int, length: int, angle: real, color: Color)
    | DrawString(text: string, x: int, y: int, fg: Color, bg: Color)

  /** End angle of an arc's sweep: the value is the percentage of a full turn, from the top. */
  function ArcEndAngle(value: real): (angle: real)
    ensures (angle - ArcStartAngle) * 100.0 == value * 360.0
  {
    value * 3.6 - 90.0
  }

  /** Needle angle of the dial: 100 units cover 270 degrees, centred on straight up. */
  function NeedleAngle(value: real): (angle: real)
    ensures (angle + 135.0) * 100.0 == value * 270.0
  {
    value * 2.7 - 135.0
  }

  lemma ArcSweepLandmarks(v1: real, v2: real)
    ensures ArcEndAngle(0.0) == ArcStartAngle
    ensures ArcEndAngle(100.0) == ArcStartAngle + 360.0
    ensures v1 < v2 <==> ArcEndAngle(v1) < ArcEndAngle(v2)
  {
  }

  lemma NeedleLandmarks(v1: real, v2: real)
    ensures NeedleAngle(0.0) == -135.0
    ensures NeedleAngle(50.0) == 0.0
    ensures NeedleAngle(100.0) == 135.0
    ensures v1 < v2 <==> NeedleAngle(v1) < NeedleAngle(v2)
  {
  }

  /** The filled band an arc occupies when its outer edge is at radius `outer`. */
  function Band(a: Arc, outer: int): (b: Primitive)
    ensures b.FillArc? && b.x == Center && b.y == Center && b.color == a.color
    ensures b.r0 == outer && b.r0 - b.r1 == a.width
    ensures (b.angle1 - b.angle0) * 100.0 == a.value * 360.0 && b.angle0 == ArcStartAngle
  {
    FillArc(Center, Center, outer, outer - a.width, ArcStartAngle, ArcEndAngle(a.value), a.color)
  }

  /**
   * The bands drawn for `arcs`, outermost first, starting at radius `r`:
   * an arc with a non-positive width is skipped and takes no room, a drawn
   * arc occupies `[r - width, r]`, and the next one starts `ArcGap` inside it.
   */
  function LayoutFrom(arcs: seq<Arc>, r: int): (bands: seq<Primitive>)
    ensures |bands| <= |arcs|
    ensures forall k :: 0 <= k < |bands| ==> bands[k].FillArc? && bands[k].r1 < bands[k].r0 <= r
    decreases |arcs|
  {
    if arcs == [] then []
    else if arcs[0].width <= 0 then LayoutFrom(arcs[1..], r)
    else [Band(arcs[0], r)] + LayoutFrom(arcs[1..], r - arcs[0].width - ArcGap)
  }

  /** The bands of a whole refresh, starting at the canvas radius. */
  function Layout(arcs: seq<Arc>): (bands: seq<Primitive>)
    ensures |bands| <= |arcs|
    ensures forall k :: 0 <= k < |bands| ==> bands[k].FillArc? && bands[k].r1 < bands[k].r0 <= Radius
  {
    LayoutFrom(arcs, Radius)
  }

  /** The arcs that are drawn at all, in drawing order. */
  function Drawn(arcs: seq<Arc>): (d: seq<Arc>)
    ensures |d| <= |arcs|
    ensures forall k :: 0 <= k < |d| ==> d[k].width > 0
    decreases |arcs|
  {
    if arcs == [] then []
    else if arcs[0].width <= 0 then Drawn(arcs[1..])
    else [arcs[0]] + Drawn(arcs[1..])
  }

  /** Radial space taken by a run of drawn arcs, each with the gap after it. */
  function Consumed(d: seq<Arc>): int
    decreases |d|
  {
    if d == [] then 0 else d[0].width + ArcGap + Consumed(d[1..])
  }

  /** One step of the layout walk: a suppressed arc is passed over, a drawn one emits its band. */
  lemma LayoutStep(arcs: seq<Arc>, r: int)
    requires arcs != []
    ensures arcs[0].width <= 0 ==> LayoutFrom(arcs, r) == LayoutFrom(arcs[1..], r)
    ensures arcs[0].width > 0 ==>
      LayoutFrom(arcs, r) == [Band(arcs[0], r)] + LayoutFrom(arcs[1..], r - arcs[0].width - ArcGap)
  {
  }

  /** Suppressed arcs take no room: the layout is that of the drawn arcs alone. */
  lemma {:induction false} LayoutSkipsSuppressed(arcs: seq<Arc>, r: int)
    ensures LayoutFrom(arcs, r) == LayoutFrom(Drawn(arcs), r)
    decreases |arcs|
  {
    if arcs != [] {
      if arcs[0].width <= 0 {
        LayoutSkipsSuppressed(arcs[1..], r);
      } else {
        var d := Drawn(arcs);
        assert d[0] == arcs[0] && d[1..] == Drawn(arcs[1..]);
        LayoutSkipsSuppressed(arcs[1..], r - arcs[0].width - ArcGap);
      }
    }
  }

  /**
   * Closed form of the layout for arcs that are all drawn: the k-th band's
   * outer radius is `r` less the room the k arcs before it take.
   */
  lemma {:induction false} LayoutOfDrawn(d: seq<Arc>, r: int)
    requires forall k :: 0 <= k < |d| ==> d[k].width > 0
    ensures |LayoutFrom(d, r)| == |d|
    ensures forall k :: 0 <= k < |d| ==> LayoutFrom(d, r)[k] == Band(d[k], r - Consumed(d[..k]))
    decreases |d|
  {
    if d != [] {
      var r' := r - d[0].width - ArcGap;
      var rest := LayoutFrom(d[1..], r');
      LayoutOfDrawn(d[1..], r');
      var bands := LayoutFrom(d, r);
      assert bands == [Band(d[0], r)] + rest;
      assert d[..0] == [];
      forall k | 1 <= k < |d|
        ensures bands[k] == Band(d[k], r - Consumed(d[..k]))
      {
        ConsumedPrefix(d, k);
        assert bands[k] == rest[k - 1];
        assert d[1..][k - 1] == d[k];
      }
    }
  }

  /** Unfolds `Consumed` once on a non-empty prefix. */
  lemma ConsumedPrefix(d: seq<Arc>, k: int)
    requires 1 <= k <= |d|
    ensures Consumed(d[..k]) == d[0].width + ArcGap + Consumed(d[1..][..k - 1])
  {
    assert d[..k][1..] == d[1..][..k - 1];
  }

  /**
   * The layout, stated without recursion: one band per drawn arc, whose
   * outer radius is what the drawn arcs before it leave and whose inner
   * radius is the outer one less the arc's width.
   */
  lemma LayoutClosedForm(arcs: seq<Arc>, r: int)
    ensures |LayoutFrom(arcs, r)| == |Drawn(arcs)|
    ensures forall k :: 0 <= k < |Drawn(arcs)| ==>
      var outer := r - Consumed(Drawn(arcs)[..k]);
      LayoutFrom(arcs, r)[k] == Band(Drawn(arcs)[k], outer) &&
      LayoutFrom(arcs, r)[k].r1 == LayoutFrom(arcs, r)[k].r0 - Drawn(arcs)[k].width
  {
    LayoutSkipsSuppressed(arcs, r);
    LayoutOfDrawn(Drawn(arcs), r);
  }

  /** Drawn bands never overlap: each later band lies at least `ArcGap` inside every earlier one. */
  lemma {:induction false} BandsAreNested(arcs: seq<Arc>, r: int)
    ensures forall i, j :: 0 <= i < j < |LayoutFrom(arcs, r)| ==>
      LayoutFrom(arcs, r)[j].r0 <= LayoutFrom(arcs, r)[i].r1 - ArcGap &&
      LayoutFrom(arcs, r)[j].r0 < LayoutFrom(arcs, r)[i].r0
    decreases |arcs|
  {
    if arcs != [] {
      if arcs[0].width <= 0 {
        BandsAreNested(arcs[1..], r);
      } else {
        var r' := r - arcs[0].width - ArcGap;
        BandsAreNested(arcs[1..], r');
        var bands := LayoutFrom(arcs, r);
        var rest := LayoutFrom(arcs[1..], r');
        assert bands == [Band(arcs[0], r)] + rest;
        forall i, j | 0 <= i < j < |bands|
          ensures bands[j].r0 <= bands[i].r1 - ArcGap && bands[j].r0 < bands[i].r0
        {
          if i == 0 {
            assert bands[j] == rest[j - 1];
          } else {
            assert bands[i] == rest[i - 1] && bands[j] == rest[j - 1];
          }
        }
      }
    }
  }

  /**
   * Bands depend on the arcs' widths and colours, not on their values:
   * arcs that agree on width and colour are laid out on the same radii
   * with the same colours, and only the sweep angles can differ.
   */
  lemma {:induction false} BandsIgnoreValues(a1: seq<Arc>, a2: seq<Arc>, r: int)
    requires |a1| == |a2|
    requires forall k :: 0 <= k < |a1| ==> a1[k].width == a2[k].width && a1[k].color == a2[k].color
    ensures |LayoutFrom(a1, r)| == |LayoutFrom(a2, r)|
    ensures forall k :: 0 <= k < |LayoutFrom(a1, r)| ==>
      LayoutFrom(a1, r)[k] == LayoutFrom(a2, r)[k].(angle1 := LayoutFrom(a1, r)[k].angle1)
    decreases |a1|
  {
    if a1 != [] {
      var r' := r - a1[0].width - ArcGap;
      BandsIgnoreValues(a1[1..], a2[1..], if a1[0].width <= 0 then r else r');
    }
  }

  /** A message moves no band: after any message every band keeps its radii and colour. */
  lemma MessageKeepsBands(g: Gauges, topic: string, f: real)
    requires g.Valid()
    ensures |Layout(Apply(g, topic, f).arcs)| == |Layout(g.arcs)|
    ensures forall k :: 0 <= k < |Layout(g.arcs)| ==>
      Layout(g.arcs)[k] == Layout(Apply(g, topic, f).arcs)[k].(angle1 := Layout(g.arcs)[k].angle1)
  {
    BandsIgnoreValues(g.arcs, Apply(g, topic, f).arcs, Radius);
  }

  /** With three arcs of the default width the bands are 120/112, 110/102 and 100/92. */
  lemma DefaultBands(arcs: seq<Arc>)
    requires |arcs| == ArcCount
    requires forall k :: 0 <= k < ArcCount ==> arcs[k].width == DefaultWidth
    ensures |Layout(arcs)| == 3
    ensures Layout(arcs)[0].r0 == 120 && Layout(arcs)[0].r1 == 112
    ensures Layout(arcs)[1].r0 == 110 && Layout(arcs)[1].r1 == 102
    ensures Layout(arcs)[2].r0 == 100 && Layout(arcs)[2].r1 == 92
  {
    assert Drawn(arcs[2..]) == [arcs[2]] + Drawn(arcs[3..]);
    assert Drawn(arcs[1..]) == [arcs[1]] + Drawn(arcs[1..][1..]);
    assert arcs[1..][1..] == arcs[2..];
    assert Drawn(arcs) == arcs;
    LayoutOfDrawn(arcs, Radius);
    assert arcs[..1][1..] == [] && arcs[..2][1..] == [arcs[1]] && [arcs[1]][1..] == [];
    assert Consumed(arcs[..1]) == 10;
    assert Consumed(arcs[..2]) == 10 + Consumed([arcs[1]]) == 20;
  }

  /** However many messages arrive, the bands stay where they were at power-on. */
  lemma ReceivedKeepsDefaultBands(msgs: seq<Message>)
    ensures |Layout(ApplyAll(Initial, msgs).arcs)| == 3
    ensures Layout(ApplyAll(Initial, msgs).arcs)[0].r0 == 120 && Layout(ApplyAll(Initial, msgs).arcs)[0].r1 == 112
    ensures Layout(ApplyAll(Initial, msgs).arcs)[1].r0 == 110 && Layout(ApplyAll(Initial, msgs).arcs)[1].r1 == 102
    ensures Layout(ApplyAll(Initial, msgs).arcs)[2].r0 == 100 && Layout(ApplyAll(Initial, msgs).arcs)[2].r1 == 92
  {
    ReceivedKeepsStyle(Initial, msgs);
    DefaultBands(ApplyAll(Initial, msgs).arcs);
  }

  /** The dial: a white circle and a red needle from the centre. */
  function DialPrimitives(dial: real): (prims: seq<Primitive>)
    ensures |prims| == 2 && prims[0].DrawCircle? && prims[1].Needle?
    ensures prims[0].x == prims[1].x == Center && prims[0].y == prims[1].y == Center
    ensures prims[1].length == prims[0].r - NeedleInset && prims[1].angle == NeedleAngle(dial)
    ensures prims[0].color == White && prims[1].color == Red
  {
    [ DrawCircle(Center, Center, DialRadius, White),
      Needle(Center, Center, DialRadius - NeedleInset, NeedleAngle(dial), Red) ]
  }

  /** The dial circle has radius 80 and the needle is 70 long, pointing up at 50. */
  lemma DialGeometry(dial: real)
    ensures DialPrimitives(dial)[0].r == 80
    ensures DialPrimitives(dial)[1].length == 70
    ensures dial == 50.0 ==> DialPrimitives(dial)[1].angle == 0.0
  {
  }

  /** One refresh: clear to black, the arcs, the dial, then the temperature label. */
  function Frame(g: Gauges, text: string): (f: seq<Primitive>)
    ensures |f| == |Layout(g.arcs)| + 4
    ensures f[0] == FillScreen(Black)
    ensures f[1..|f| - 3] == Layout(g.arcs)
    ensures f[|f| - 3..|f| - 1] == DialPrimitives(g.dial)
    ensures f[|f| - 1] == DrawString(text, Center, LabelY, White, Black)
  {
    [FillScreen(Black)] + Layout(g.arcs) + DialPrimitives(g.dial)
      + [DrawString(text, Center, LabelY, White, Black)]
  }

  /**
   * A frame first clears the screen, then draws exactly one band per arc of
   * positive width (and nothing else fills an arc), and ends with the label.
   */
  lemma FrameShape(g: Gauges, text: string)
    ensures |Frame(g, text)| == |Drawn(g.arcs)| + 4
    ensures Frame(g, text)[0] == FillScreen(Black)
    ensures Frame(g, text)[|Frame(g, text)| - 1] == DrawString(text, Center, LabelY, White, Black)
    ensures forall k :: 0 <= k < |Frame(g, text)| ==>
      (Frame(g, text)[k].FillArc? <==> 1 <= k <= |Drawn(g.arcs)|)
  {
    LayoutClosedForm(g.arcs, Radius);
    var f := Frame(g, text);
    var n := |Drawn(g.arcs)|;
    forall k | 0 <= k < |f|
      ensures f[k].FillArc? <==> 1 <= k <= n
    {
      if 1 <= k <= n {
        assert f[k] == Layout(g.arcs)[k - 1];
      }
    }
  }
}
