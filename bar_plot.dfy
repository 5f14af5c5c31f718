/**
 * Drawing the bars of one trace: each calculated point becomes a pixel
 * rectangle, which is dropped when degenerate or non-numeric, snapped to
 * the pixel grid, and given its text node.  The axes' calc-to-pixel maps,
 * the marker opacity and the resolved marker line width are inputs.
 */
module BarPlot {
  import opened Wrappers
  import JsMath
  import opened BarTransform
  import opened BarTextNode

  /** An axis's clipped calc-to-pixel map; None stands for a non-numeric pixel. */
  type Axis = real -> Option<real>

  /**
   * A calculated bar: position `p`, base `b`, size `s` (None when the
   * calculation left it undefined), whether it is the outmost bar of its
   * stack, and the style inputs of the point.
   */
  datatype CalcPoint = CalcPoint(p: real, b: real, s: Option<real>, outmost: bool, opacity: real, lineWidth: real)

  /** The per-trace offset and width of the bars, each one number or one per point. */
  datatype TraceGeometry = TraceGeometry(poffset: Attr<real>, barwidth: Attr<real>, orientation: Orientation)

  /** Position extents p0..p1 and size extents s0..s1 in data coordinates. */
  datatype Extents = Extents(p0: real, p1: real, s0: real, s1: real)

  /** A bar in pixels: x0..x1 across, y0..y1 down, with its two ends as drawn. */
  datatype Rect = Rect(x0: real, x1: real, y0: real, y1: real)
  {
    function Transposed(): Rect
    {
      Rect(y0, y1, x0, x1)
    }
  }

  /** The layout gaps and whether the plot is static. */
  datatype PlotSettings = PlotSettings(bargap: real, bargroupgap: real, staticPlot: bool)

  /** A drawn bar: its snapped rectangle and its text node. */
  datatype Bar = Bar(rect: Rect, text: TextLabel)

  // ----------------------------------------------------------- rectangle

  /**
   * The extents of point `i`; None when an offset or width array has no
   * entry for it or the size is undefined, each of which makes an extent
   * NaN in the source.
   */
  function PointExtents(g: TraceGeometry, pt: CalcPoint, i: nat): (e: Option<Extents>)
    ensures e.Some? <==> At(g.poffset, i).Some? && At(g.barwidth, i).Some? && pt.s.Some?
    ensures e.Some? ==>
      && e.value.p0 == pt.p + At(g.poffset, i).value
      && e.value.p1 - e.value.p0 == At(g.barwidth, i).value
      && e.value.s0 == pt.b
      && e.value.s1 - e.value.s0 == pt.s.value
  {
    var offset := At(g.poffset, i);
    var width := At(g.barwidth, i);
    if offset.None? || width.None? || pt.s.None? then None
    else
      var p0 := pt.p + offset.value;
      Some(Extents(p0, p0 + width.value, pt.b, pt.b + pt.s.value))
  }

  /**
   * The extents in pixels: a horizontal bar has its position on the y axis
   * and its size on the x axis, any other bar the reverse.  None when any
   * of the four edges is non-numeric.
   */
  function PixelRect(xa: Axis, ya: Axis, orientation: Orientation, e: Extents): (r: Option<Rect>)
    ensures orientation == Vertical ==>
      (r.Some? <==> xa(e.p0).Some? && xa(e.p1).Some? && ya(e.s0).Some? && ya(e.s1).Some?)
    ensures orientation == Vertical && r.Some? ==>
      r.value == Rect(xa(e.p0).value, xa(e.p1).value, ya(e.s0).value, ya(e.s1).value)
    ensures orientation == Horizontal ==>
      (r.Some? <==> xa(e.s0).Some? && xa(e.s1).Some? && ya(e.p0).Some? && ya(e.p1).Some?)
    ensures orientation == Horizontal && r.Some? ==>
      r.value == Rect(xa(e.s0).value, xa(e.s1).value, ya(e.p0).value, ya(e.p1).value)
  {
    var ends := if orientation == Horizontal then (e.s0, e.s1, e.p0, e.p1) else (e.p0, e.p1, e.s0, e.s1);
    var x0, x1, y0, y1 := xa(ends.0), xa(ends.1), ya(ends.2), ya(ends.3);
    if x0.None? || x1.None? || y0.None? || y1.None? then None
    else Some(Rect(x0.value, x1.value, y0.value, y1.value))
  }

  /**
   * Orientation only swaps roles: a horizontal bar is the vertical bar on
   * the exchanged axes, transposed, and the pixel edges are the axis images
   * of the extents.
   */
  lemma PixelRectTranspose(xa: Axis, ya: Axis, e: Extents)
    ensures var h := PixelRect(xa, ya, Horizontal, e);
      var v := PixelRect(ya, xa, Vertical, e);
      && (h.Some? <==> v.Some?)
      && (h.Some? ==> h.value == v.value.Transposed())
      && (v.Some? ==> v.value == Rect(ya(e.p0).value, ya(e.p1).value, xa(e.s0).value, xa(e.s1).value))
      && (v.None? <==> ya(e.p0).None? || ya(e.p1).None? || xa(e.s0).None? || xa(e.s1).None?)
  {
  }

  /** A rectangle is drawn only when it has width and height. */
  predicate Drawable(r: Rect)
  {
    r.x0 != r.x1 && r.y0 != r.y1
  }

  // ------------------------------------------------------------ snapping

  /** Both gaps are zero, so edges are rounded to the line. */
  predicate Gapless(settings: PlotSettings)
  {
    settings.bargap == 0.0 && settings.bargroupgap == 0.0
  }

  /** The fractional part of half the line width, to two decimals. */
  function LineOffset(lineWidth: real): (offset: real)
    ensures lineWidth >= 0.0 ==> 0.0 <= offset <= 1.0
    ensures (offset * 100.0).Floor as real == offset * 100.0
  {
    var frac := JsMath.FracPart(lineWidth / 2.0);
    if lineWidth >= 0.0 then JsMath.Round2UnitBounds(frac); JsMath.Round2(frac)
    else JsMath.Round2(frac)
  }

  /**
   * Rounding an edge to the pixel grid shifted by the line offset, to two
   * decimals, when there are no gaps; otherwise the edge is kept.
   */
  function RoundWithLine(gapless: bool, offset: real, v: real): (r: real)
    ensures !gapless ==> r == v
    ensures gapless ==> (r * 100.0).Floor as real == r * 100.0
    ensures 0.0 <= offset <= 1.0 ==> v - 1.505 < r <= v + 0.505
  {
    if gapless then JsMath.Round2(JsMath.Round(v) as real - offset) else v
  }

  /** Rounding to the line keeps the order of edges. */
  lemma RoundWithLineMonotone(gapless: bool, offset: real, v: real, w: real)
    requires v <= w
    ensures RoundWithLine(gapless, offset, v) <= RoundWithLine(gapless, offset, w)
  {
    if gapless {
      JsMath.RoundMonotone(v, w);
      JsMath.Round2Monotone(JsMath.Round(v) as real - offset, JsMath.Round(w) as real - offset);
    }
  }

  /**
   * An edge far enough from its partner is rounded to the line; one within
   * 2 pixels is pushed outward to a whole pixel, away from the partner.
   */
  function ExpandToVisible(gapless: bool, offset: real, v: real, vc: real): (r: real)
    ensures JsMath.Abs(v - vc) >= 2.0 ==> r == RoundWithLine(gapless, offset, v)
    ensures JsMath.Abs(v - vc) < 2.0 ==> r.Floor as real == r
    ensures JsMath.Abs(v - vc) < 2.0 && v > vc ==> v <= r < v + 1.0
    ensures JsMath.Abs(v - vc) < 2.0 && v <= vc ==> v - 1.0 < r <= v
  {
    if JsMath.Abs(v - vc) >= 2.0 then RoundWithLine(gapless, offset, v)
    else if v > vc then JsMath.Ceil(v) as real
    else JsMath.Floor(v) as real
  }

  /** Rounding is used for a bar that is translucent or has a visible line. */
  predicate UsesRounding(opacity: real, lineWidth: real)
  {
    opacity < 1.0 || lineWidth > 0.01
  }

  /**
   * The snapping rule for one edge given its partner: rounding to the line
   * for a translucent or outlined bar, expanding to a visible pixel
   * otherwise.
   */
  function FixPixel(rounding: bool, gapless: bool, offset: real, v: real, vc: real): (r: real)
    ensures rounding ==> r == RoundWithLine(gapless, offset, v)
    ensures rounding && !gapless ==> r == v
    ensures !rounding && JsMath.Abs(v - vc) >= 2.0 ==> r == RoundWithLine(gapless, offset, v)
    ensures !rounding && JsMath.Abs(v - vc) < 2.0 ==> r.Floor as real == r
    ensures !rounding && JsMath.Abs(v - vc) < 2.0 ==> (if v > vc then v <= r < v + 1.0 else v - 1.0 < r <= v)
  {
    if rounding then RoundWithLine(gapless, offset, v) else ExpandToVisible(gapless, offset, v, vc)
  }

  /**
   * The snapped rectangle: unchanged on a static plot, otherwise each
   * first edge is snapped against the raw second edge and each second edge
   * against the snapped first one.
   */
  function SnappedRect(r: Rect, settings: PlotSettings, opacity: real, lineWidth: real): (q: Rect)
    ensures settings.staticPlot ==> q == r
    ensures UsesRounding(opacity, lineWidth) && !Gapless(settings) ==> q == r
    ensures !settings.staticPlot ==>
      var rounding, gapless, offset := UsesRounding(opacity, lineWidth), Gapless(settings), LineOffset(lineWidth);
      && q.x0 == FixPixel(rounding, gapless, offset, r.x0, r.x1)
      && q.x1 == FixPixel(rounding, gapless, offset, r.x1, q.x0)
      && q.y0 == FixPixel(rounding, gapless, offset, r.y0, r.y1)
      && q.y1 == FixPixel(rounding, gapless, offset, r.y1, q.y0)
  {
    if settings.staticPlot then r
    else
      var rounding := UsesRounding(opacity, lineWidth);
      var gapless := Gapless(settings);
      var offset := LineOffset(lineWidth);
      var x0 := FixPixel(rounding, gapless, offset, r.x0, r.x1);
      var y0 := FixPixel(rounding, gapless, offset, r.y0, r.y1);
      Rect(x0, FixPixel(rounding, gapless, offset, r.x1, x0), y0, FixPixel(rounding, gapless, offset, r.y1, y0))
  }

  /**
   * Expanding never makes a drawn edge pair collapse or cross: edges that
   * differ stay distinct and keep their order.
   */
  lemma ExpandKeepsEdgesApart(gapless: bool, offset: real, a: real, b: real)
    requires 0.0 <= offset <= 1.0
    requires a != b
    ensures var a' := ExpandToVisible(gapless, offset, a, b);
      var b' := ExpandToVisible(gapless, offset, b, a');
      (a < b ==> a' < b') && (b < a ==> b' < a')
  {
  }

  /**
   * In expand mode (opaque, no visible line, not static) a drawable bar
   * stays drawable after snapping, with each pair of edges in its order.
   */
  lemma SnappedBarStaysVisible(r: Rect, settings: PlotSettings, opacity: real, lineWidth: real)
    requires Drawable(r)
    requires !UsesRounding(opacity, lineWidth) && lineWidth >= 0.0
    ensures var q := SnappedRect(r, settings, opacity, lineWidth);
      && Drawable(q)
      && (r.x0 < r.x1 <==> q.x0 < q.x1)
      && (r.y0 < r.y1 <==> q.y0 < q.y1)
  {
    if !settings.staticPlot {
      var offset := LineOffset(lineWidth);
      ExpandKeepsEdgesApart(Gapless(settings), offset, r.x0, r.x1);
      ExpandKeepsEdgesApart(Gapless(settings), offset, r.y0, r.y1);
    }
  }

  /**
   * In rounding mode each edge moves by less than 1.505 pixels and not at
   * all when there are gaps, and edges keep their (weak) order; a very
   * thin bar may collapse.
   */
  lemma RoundedBarKeepsOrder(r: Rect, settings: PlotSettings, opacity: real, lineWidth: real)
    requires UsesRounding(opacity, lineWidth) && lineWidth >= 0.0
    ensures var q := SnappedRect(r, settings, opacity, lineWidth);
      && (r.x0 <= r.x1 ==> q.x0 <= q.x1) && (r.x1 <= r.x0 ==> q.x1 <= q.x0)
      && (r.y0 <= r.y1 ==> q.y0 <= q.y1) && (r.y1 <= r.y0 ==> q.y1 <= q.y0)
      && (!Gapless(settings) ==> q == r)
      && JsMath.Abs(q.x0 - r.x0) < 1.505 && JsMath.Abs(q.x1 - r.x1) < 1.505
      && JsMath.Abs(q.y0 - r.y0) < 1.505 && JsMath.Abs(q.y1 - r.y1) < 1.505
  {
    if !settings.staticPlot {
      var g, offset := Gapless(settings), LineOffset(lineWidth);
      if r.x0 <= r.x1 { RoundWithLineMonotone(g, offset, r.x0, r.x1); }
      if r.x1 <= r.x0 { RoundWithLineMonotone(g, offset, r.x1, r.x0); }
      if r.y0 <= r.y1 { RoundWithLineMonotone(g, offset, r.y0, r.y1); }
      if r.y1 <= r.y0 { RoundWithLineMonotone(g, offset, r.y1, r.y0); }
    }
  }

  // ------------------------------------------------------------ drawing

  /** Everything a trace's points share when drawn. */
  datatype TraceContext = TraceContext(
    geometry: TraceGeometry,
    attrs: TextAttrs,
    xa: Axis,
    ya: Axis,
    settings: PlotSettings,
    layoutFont: Font,
    mode: BarMode,
    measure: (string, Font) -> BBox)

  /** What point `i` draws: None when its bar is dropped. */
  function DrawnBar(ctx: TraceContext, pt: CalcPoint, i: nat): (r: Option<Bar>)
    ensures r.Some? ==>
      var e := PointExtents(ctx.geometry, pt, i);
      && e.Some?
      && PixelRect(ctx.xa, ctx.ya, ctx.geometry.orientation, e.value).Some?
      && Drawable(PixelRect(ctx.xa, ctx.ya, ctx.geometry.orientation, e.value).value)
      && r.value.rect == SnappedRect(PixelRect(ctx.xa, ctx.ya, ctx.geometry.orientation, e.value).value,
                                     ctx.settings, pt.opacity, pt.lineWidth)
    ensures r.Some? ==>
      var q := r.value.rect;
      r.value.text == BarText(ctx.attrs, ctx.layoutFont, ctx.mode, i, pt.outmost,
                              q.x0, q.x1, q.y0, q.y1, ctx.geometry.orientation, ctx.measure)
  {
    var e := PointExtents(ctx.geometry, pt, i);
    var raw := if e.None? then None else PixelRect(ctx.xa, ctx.ya, ctx.geometry.orientation, e.value);
    if raw.None? || !Drawable(raw.value) then None
    else
      var r := SnappedRect(raw.value, ctx.settings, pt.opacity, pt.lineWidth);
      Some(Bar(r, BarText(ctx.attrs, ctx.layoutFont, ctx.mode, i, pt.outmost,
                          r.x0, r.x1, r.y0, r.y1, ctx.geometry.orientation, ctx.measure)))
  }

  /**
   * A point is dropped exactly when it has no extents (an undefined size or
   * a missing offset or width entry), any edge is non-numeric, or the raw
   * rectangle has no width or no height.
   */
  lemma DropRule(ctx: TraceContext, pt: CalcPoint, i: nat)
    ensures pt.s.None? ==> DrawnBar(ctx, pt, i).None?
    ensures var e := PointExtents(ctx.geometry, pt, i);
      DrawnBar(ctx, pt, i).None? <==>
        || e.None?
        || PixelRect(ctx.xa, ctx.ya, ctx.geometry.orientation, e.value).None?
        || (var r := PixelRect(ctx.xa, ctx.ya, ctx.geometry.orientation, e.value).value; r.x0 == r.x1 || r.y0 == r.y1)
  {
  }

  /** A bar drawn in expand mode still has width and height after snapping. */
  lemma DrawnBarIsVisible(ctx: TraceContext, pt: CalcPoint, i: nat)
    requires !UsesRounding(pt.opacity, pt.lineWidth) && pt.lineWidth >= 0.0
    ensures DrawnBar(ctx, pt, i).Some? ==> Drawable(DrawnBar(ctx, pt, i).value.rect)
  {
    var e := PointExtents(ctx.geometry, pt, i);
    if DrawnBar(ctx, pt, i).Some? {
      var raw := PixelRect(ctx.xa, ctx.ya, ctx.geometry.orientation, e.value).value;
      SnappedBarStaysVisible(raw, ctx.settings, pt.opacity, pt.lineWidth);
    }
  }

  /**
   * Drawing point `i` step by step: extents, pixels, the drop test, the
   * edges snapped in place, then the text node.
   */
  method PlotPoint(ctx: TraceContext, pt: CalcPoint, i: nat) returns (bar: Option<Bar>)
    ensures bar == DrawnBar(ctx, pt, i)
  {
    var e := PointExtents(ctx.geometry, pt, i);
    if e.None? {
      return None;
    }
    var raw := PixelRect(ctx.xa, ctx.ya, ctx.geometry.orientation, e.value);
    if raw.None? {
      return None;
    }
    var x0, x1, y0, y1 := raw.value.x0, raw.value.x1, raw.value.y0, raw.value.y1;
    if x0 == x1 || y0 == y1 {
      return None;
    }

    var lw := pt.lineWidth;
    var offset := LineOffset(lw);
    if !ctx.settings.staticPlot {
      var rounding := pt.opacity < 1.0 || lw > 0.01;
      var gapless := ctx.settings.bargap == 0.0 && ctx.settings.bargroupgap == 0.0;
      x0 := FixPixel(rounding, gapless, offset, x0, x1);
      x1 := FixPixel(rounding, gapless, offset, x1, x0);
      y0 := FixPixel(rounding, gapless, offset, y0, y1);
      y1 := FixPixel(rounding, gapless, offset, y1, y0);
    }

    var text := AppendBarText(ctx.attrs, ctx.layoutFont, ctx.mode, i, pt.outmost,
                              x0, x1, y0, y1, ctx.geometry.orientation, ctx.measure);
    bar := Some(Bar(Rect(x0, x1, y0, y1), text));
  }

  /** Drawing every point of a trace, in order. */
  method PlotTrace(ctx: TraceContext, points: seq<CalcPoint>) returns (bars: seq<Option<Bar>>)
    ensures |bars| == |points|
    ensures forall j :: 0 <= j < |points| ==> bars[j] == DrawnBar(ctx, points[j], j)
  {
    bars := [];
    var i := 0;
    while i < |points|
      invariant 0 <= i <= |points|
      invariant |bars| == i
      invariant forall j :: 0 <= j < i ==> bars[j] == DrawnBar(ctx, points[j], j)
    {
      var bar := PlotPoint(ctx, points[i], i);
      bars := bars + [bar];
      i := i + 1;
    }
  }
}
