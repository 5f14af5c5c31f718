/**
 * Fitting text inside a bar or past its end: the rotation and scale chosen,
 * the target centre, and where the placed text ends up.
 */
module BarFit {
  import opened Wrappers
  import JsMath
  import opened BarTransform

  // ---------------------------------------------------------------- inside

  /** Whether the text box, scaled by `s`, fits the bar unturned or turned. */
  predicate FitsAt(s: real, barWidth: real, barHeight: real, textWidth: real, textHeight: real)
  {
    (s * textWidth <= barWidth && s * textHeight <= barHeight) ||
    (s * textHeight <= barWidth && s * textWidth <= barHeight)
  }

  /**
   * Rotation and scale for text inside a bar whose usable size is
   * barWidth x barHeight: as it is if it fits, turned if only that fits,
   * otherwise shrunk, turned when the text's aspect differs from the bar's.
   */
  function InsideFit(barWidth: real, barHeight: real, textWidth: real, textHeight: real): (f: Fit)
    requires barWidth >= 0.0 && barHeight >= 0.0
    requires textWidth > 0.0 && textHeight > 0.0
    ensures textWidth <= barWidth && textHeight <= barHeight ==> f == Fit(false, 1.0)
    ensures !(textWidth <= barWidth && textHeight <= barHeight) && textWidth <= barHeight && textHeight <= barWidth
            ==> f == Fit(true, 1.0)
    ensures 0.0 <= f.scale <= 1.0
    ensures f.scale == 1.0 <==> FitsAt(1.0, barWidth, barHeight, textWidth, textHeight)
  {
    JsMath.ScaleWithin(1.0, barWidth, textWidth);
    JsMath.ScaleWithin(1.0, barHeight, textHeight);
    JsMath.ScaleWithin(1.0, barHeight, textWidth);
    JsMath.ScaleWithin(1.0, barWidth, textHeight);
    JsMath.ScaleWithin(0.0, barWidth, textWidth);
    JsMath.ScaleWithin(0.0, barHeight, textHeight);
    JsMath.ScaleWithin(0.0, barHeight, textWidth);
    JsMath.ScaleWithin(0.0, barWidth, textHeight);
    if textWidth <= barWidth && textHeight <= barHeight then Fit(false, 1.0)
    else if textWidth <= barHeight && textHeight <= barWidth then Fit(true, 1.0)
    else if (textWidth < textHeight) == (barWidth < barHeight) then
      Fit(false, JsMath.Min(barWidth / textWidth, barHeight / textHeight))
    else
      Fit(true, JsMath.Min(barHeight / textWidth, barWidth / textHeight))
  }

  /** The text, once fitted, lies within barWidth x barHeight. */
  predicate SizeWithin(f: Fit, barWidth: real, barHeight: real, textWidth: real, textHeight: real)
  {
    var size := FittedSize(f, textWidth, textHeight);
    0.0 <= size.0 <= barWidth && 0.0 <= size.1 <= barHeight
  }

  /** The fitted text never exceeds the usable bar size. */
  lemma InsideFitFits(barWidth: real, barHeight: real, textWidth: real, textHeight: real)
    requires barWidth >= 0.0 && barHeight >= 0.0
    requires textWidth > 0.0 && textHeight > 0.0
    ensures SizeWithin(InsideFit(barWidth, barHeight, textWidth, textHeight), barWidth, barHeight, textWidth, textHeight)
  {
    if !(textWidth <= barWidth && textHeight <= barHeight) && !(textWidth <= barHeight && textHeight <= barWidth) {
      if (textWidth < textHeight) == (barWidth < barHeight) {
        ShrunkUnturnedFits(barWidth, barHeight, textWidth, textHeight);
      } else {
        ShrunkTurnedFits(barWidth, barHeight, textWidth, textHeight);
      }
    }
  }

  /** Text that fits the bar in neither orientation, with the bar's aspect, is shrunk to within it. */
  lemma ShrunkUnturnedFits(barWidth: real, barHeight: real, textWidth: real, textHeight: real)
    requires barWidth >= 0.0 && barHeight >= 0.0
    requires textWidth > 0.0 && textHeight > 0.0
    requires !(textWidth <= barWidth && textHeight <= barHeight) && !(textWidth <= barHeight && textHeight <= barWidth)
    requires (textWidth < textHeight) == (barWidth < barHeight)
    ensures SizeWithin(InsideFit(barWidth, barHeight, textWidth, textHeight), barWidth, barHeight, textWidth, textHeight)
  {
    assert InsideFit(barWidth, barHeight, textWidth, textHeight)
      == Fit(false, JsMath.Min(barWidth / textWidth, barHeight / textHeight));
    ShrunkFits(barWidth, barHeight, textWidth, textHeight);
  }

  /** Text that fits the bar in neither orientation, against the bar's aspect, is shrunk to within it. */
  lemma ShrunkTurnedFits(barWidth: real, barHeight: real, textWidth: real, textHeight: real)
    requires barWidth >= 0.0 && barHeight >= 0.0
    requires textWidth > 0.0 && textHeight > 0.0
    requires !(textWidth <= barWidth && textHeight <= barHeight) && !(textWidth <= barHeight && textHeight <= barWidth)
    requires (textWidth < textHeight) != (barWidth < barHeight)
    ensures SizeWithin(InsideFit(barWidth, barHeight, textWidth, textHeight), barWidth, barHeight, textWidth, textHeight)
  {
    assert InsideFit(barWidth, barHeight, textWidth, textHeight)
      == Fit(true, JsMath.Min(barHeight / textWidth, barWidth / textHeight));
    ShrunkFits(barHeight, barWidth, textWidth, textHeight);
  }

  /**
   * Text that does not fit a bar unshrunk, shrunk by the smaller of the
   * two side ratios: a scale in [0, 1) that brings both sides within the bar.
   */
  lemma ShrunkFits(width: real, height: real, textWidth: real, textHeight: real)
    requires width >= 0.0 && height >= 0.0 && textWidth > 0.0 && textHeight > 0.0
    requires !(textWidth <= width && textHeight <= height)
    ensures var s := JsMath.Min(width / textWidth, height / textHeight);
      && 0.0 <= s < 1.0
      && 0.0 <= s * textWidth <= width && 0.0 <= s * textHeight <= height
  {
    var s := JsMath.Min(width / textWidth, height / textHeight);
    JsMath.ScaleWithin(s, width, textWidth);
    JsMath.ScaleWithin(s, height, textHeight);
    JsMath.ScaleWithin(1.0, width, textWidth);
    JsMath.ScaleWithin(1.0, height, textHeight);
    JsMath.ScaleWithin(0.0, width, textWidth);
    JsMath.ScaleWithin(0.0, height, textHeight);
  }

  /**
   * The scale chosen is the largest, up to 1, at which the text fits the
   * bar in either orientation: shrinking is never more than needed.
   */
  lemma InsideFitIsLargest(barWidth: real, barHeight: real, textWidth: real, textHeight: real, s: real)
    requires barWidth >= 0.0 && barHeight >= 0.0
    requires textWidth > 0.0 && textHeight > 0.0
    requires 0.0 <= s <= 1.0
    requires FitsAt(s, barWidth, barHeight, textWidth, textHeight)
    ensures s <= InsideFit(barWidth, barHeight, textWidth, textHeight).scale
  {
    var f := InsideFit(barWidth, barHeight, textWidth, textHeight);
    if f.scale < 1.0 {
      if (textWidth < textHeight) == (barWidth < barHeight) {
        LargestSameAspect(barWidth, barHeight, textWidth, textHeight, s);
      } else {
        LargestSameAspect(barWidth, barHeight, textHeight, textWidth, s);
      }
    }
  }

  /**
   * When text and bar have the same aspect, text that fits at scale `s`
   * in some orientation fits at `s` unturned.
   */
  lemma LargestSameAspect(barWidth: real, barHeight: real, textWidth: real, textHeight: real, s: real)
    requires barWidth >= 0.0 && barHeight >= 0.0
    requires textWidth > 0.0 && textHeight > 0.0
    requires 0.0 <= s
    requires textWidth < textHeight ==> barWidth <= barHeight
    requires textHeight < textWidth ==> barHeight <= barWidth
    requires FitsAt(s, barWidth, barHeight, textWidth, textHeight)
    ensures s <= JsMath.Min(barWidth / textWidth, barHeight / textHeight)
  {
    if textWidth < textHeight {
      JsMath.MulMonotone(s, textWidth, textHeight);
    } else {
      JsMath.MulMonotone(s, textHeight, textWidth);
    }
    assert s * textWidth <= barWidth && s * textHeight <= barHeight;
    JsMath.ScaleWithin(s, barWidth, textWidth);
    JsMath.ScaleWithin(s, barHeight, textHeight);
  }

  /** The padding inside a bar: TEXTPAD when both sides exceed twice it, none otherwise. */
  function InsidePad(x0: real, x1: real, y0: real, y1: real): (pad: real)
    ensures pad == 0.0 || pad == TextPad
    ensures pad == TextPad <==> JsMath.Abs(x1 - x0) > 2.0 * TextPad && JsMath.Abs(y1 - y0) > 2.0 * TextPad
    ensures JsMath.Abs(x1 - x0) - 2.0 * pad >= 0.0 && JsMath.Abs(y1 - y0) - 2.0 * pad >= 0.0
  {
    if JsMath.Abs(x1 - x0) > 2.0 * TextPad && JsMath.Abs(y1 - y0) > 2.0 * TextPad then TextPad else 0.0
  }

  /** The bar rectangle shrunk by `pad` on every side. */
  function PaddedBar(x0: real, x1: real, y0: real, y1: real, pad: real): Box
  {
    Box(JsMath.Min(x0, x1) + pad, JsMath.Max(x0, x1) - pad, JsMath.Min(y0, y1) + pad, JsMath.Max(y0, y1) - pad)
  }

  /** Rotation and scale for text inside the bar, after padding. */
  function InsideBarFit(x0: real, x1: real, y0: real, y1: real, bb: BBox): (f: Fit)
    requires bb.width > 0.0 && bb.height > 0.0
    ensures 0.0 <= f.scale <= 1.0
    ensures var pad := InsidePad(x0, x1, y0, y1);
      bb.width <= JsMath.Abs(x1 - x0) - 2.0 * pad && bb.height <= JsMath.Abs(y1 - y0) - 2.0 * pad ==> f == Fit(false, 1.0)
  {
    var pad := InsidePad(x0, x1, y0, y1);
    InsideFit(JsMath.Abs(x1 - x0) - 2.0 * pad, JsMath.Abs(y1 - y0) - 2.0 * pad, bb.width, bb.height)
  }

  /**
   * Where the centre of inside text goes: against the bar's end (inset by
   * the padding), centred across the bar.
   */
  function InsideTarget(x0: real, x1: real, y0: real, y1: real, bb: BBox, orientation: Orientation): (c: (real, real))
    requires bb.width > 0.0 && bb.height > 0.0
    ensures var pad := InsidePad(x0, x1, y0, y1);
      var size := FittedSize(InsideBarFit(x0, x1, y0, y1, bb), bb.width, bb.height);
      && (orientation == Vertical ==> c.0 == (x0 + x1) / 2.0)
      && (orientation == Vertical && y1 > y0 ==> c.1 + size.1 / 2.0 == y1 - pad)
      && (orientation == Vertical && y1 <= y0 ==> c.1 - size.1 / 2.0 == y1 + pad)
      && (orientation == Horizontal ==> c.1 == (y0 + y1) / 2.0)
      && (orientation == Horizontal && x1 < x0 ==> c.0 - size.0 / 2.0 == x1 + pad)
      && (orientation == Horizontal && x1 >= x0 ==> c.0 + size.0 / 2.0 == x1 - pad)
  {
    var pad := InsidePad(x0, x1, y0, y1);
    var size := FittedSize(InsideBarFit(x0, x1, y0, y1, bb), bb.width, bb.height);
    match orientation
    case Horizontal =>
      if x1 < x0 then (x1 + pad + size.0 / 2.0, (y0 + y1) / 2.0)
      else (x1 - pad - size.0 / 2.0, (y0 + y1) / 2.0)
    case Vertical =>
      if y1 > y0 then ((x0 + x1) / 2.0, y1 - pad - size.1 / 2.0)
      else ((x0 + x1) / 2.0, y1 + pad + size.1 / 2.0)
  }

  /** The transform that moves the text inside the bar. */
  function TransformToMoveInsideBar(x0: real, x1: real, y0: real, y1: real, bb: BBox,
                                    orientation: Orientation): (t: Transform)
    requires bb.width > 0.0 && bb.height > 0.0
    ensures t.ScaleFactor() == InsideBarFit(x0, x1, y0, y1, bb).scale
    ensures t.rotateAbout.Some? <==> InsideBarFit(x0, x1, y0, y1, bb).rotate
  {
    var fit := InsideBarFit(x0, x1, y0, y1, bb);
    var target := InsideTarget(x0, x1, y0, y1, bb, orientation);
    GetTransform(bb.Centre().0, bb.Centre().1, target.0, target.1, fit.scale, fit.rotate)
  }

  /**
   * Inside text, once transformed, lies within the padded bar, flush with
   * the padded end of the bar and centred across it.
   */
  lemma InsideTextFitsBar(x0: real, x1: real, y0: real, y1: real, bb: BBox, orientation: Orientation)
    requires bb.WellFormed() && bb.width > 0.0 && bb.height > 0.0
    ensures var ib := ImageBox(TransformToMoveInsideBar(x0, x1, y0, y1, bb, orientation), bb);
      var pad := InsidePad(x0, x1, y0, y1);
      && ib.Within(PaddedBar(x0, x1, y0, y1, pad))
      && (orientation == Vertical && y1 > y0 ==> ib.yhi == y1 - pad)
      && (orientation == Vertical && y1 <= y0 ==> ib.ylo == y1 + pad)
      && (orientation == Vertical ==> ib.xlo + ib.xhi == x0 + x1)
      && (orientation == Horizontal && x1 < x0 ==> ib.xlo == x1 + pad)
      && (orientation == Horizontal && x1 >= x0 ==> ib.xhi == x1 - pad)
      && (orientation == Horizontal ==> ib.ylo + ib.yhi == y0 + y1)
  {
    var pad := InsidePad(x0, x1, y0, y1);
    InsideFitFits(JsMath.Abs(x1 - x0) - 2.0 * pad, JsMath.Abs(y1 - y0) - 2.0 * pad, bb.width, bb.height);
    var fit := InsideBarFit(x0, x1, y0, y1, bb);
    var target := InsideTarget(x0, x1, y0, y1, bb, orientation);
    PlacedBox(bb, target.0, target.1, fit);
  }

  // --------------------------------------------------------------- outside

  /**
   * Rotation and scale for text outside a bar: `barWidth` is the usable
   * width across the bar's end, `textWidth` the text's extent in that
   * direction and `textHeight` its other extent.  Text whose length along
   * the bar's end is at least its height is never turned, so it is never
   * made perpendicular to the bar.
   */
  function OutsideFit(barWidth: real, textWidth: real, textHeight: real): (f: Fit)
    requires barWidth >= 0.0
    ensures textWidth <= barWidth ==> f == Fit(false, 1.0)
    ensures textHeight <= textWidth ==> !f.rotate
    ensures 0.0 <= f.scale <= 1.0
    ensures (if f.rotate then f.scale * textHeight else f.scale * textWidth) <= barWidth
    ensures f.rotate ==> f.scale < 1.0 && f.scale == barWidth / textHeight
  {
    if textWidth <= barWidth then Fit(false, 1.0)
    else if textHeight <= textWidth then
      JsMath.ScaleWithin(1.0, barWidth, textWidth);
      JsMath.ScaleWithin(0.0, barWidth, textWidth);
      Fit(false, barWidth / textWidth)
    else if textHeight <= barWidth then Fit(true, 1.0)
    else
      JsMath.ScaleWithin(1.0, barWidth, textHeight);
      JsMath.ScaleWithin(0.0, barWidth, textHeight);
      Fit(true, barWidth / textHeight)
  }

  /**
   * The branch that turns outside text without shrinking it is never
   * taken: it needs the text to be longer than the width along the end
   * and its height to exceed its length, so it would also be too tall.
   */
  lemma OutsideFitNeverOnlyTurns(barWidth: real, textWidth: real, textHeight: real)
    requires barWidth >= 0.0
    ensures OutsideFit(barWidth, textWidth, textHeight) != Fit(true, 1.0)
  {
  }

  /** The bar's extent across its end: its width when vertical, its height when horizontal. */
  function AlongBarWidth(x0: real, x1: real, y0: real, y1: real, orientation: Orientation): (w: real)
    ensures w >= 0.0
  {
    match orientation
    case Horizontal => JsMath.Abs(y1 - y0)
    case Vertical => JsMath.Abs(x1 - x0)
  }

  /**
   * Rotation and scale for text outside the bar; padding is applied only to
   * a bar wider than 6.  Text whose extent along the bar's end fits the
   * usable width is left as it is.
   */
  function OutsideBarFit(x0: real, x1: real, y0: real, y1: real, bb: BBox, orientation: Orientation): (f: Fit)
    ensures 0.0 <= f.scale <= 1.0
    ensures var w := AlongBarWidth(x0, x1, y0, y1, orientation);
      var usable := if w > 2.0 * TextPad then w - 2.0 * TextPad else w;
      (if orientation == Horizontal then bb.height else bb.width) <= usable ==> f == Fit(false, 1.0)
  {
    var w := AlongBarWidth(x0, x1, y0, y1, orientation);
    var usable := if w > 2.0 * TextPad then w - 2.0 * TextPad else w;
    match orientation
    case Horizontal => OutsideFit(usable, bb.height, bb.width)
    case Vertical => OutsideFit(usable, bb.width, bb.height)
  }

  /**
   * The transform that moves the text just past the bar's end.  The
   * padding is left undefined for a bar no wider than 6, which makes the
   * target coordinate past the bar's end NaN: there is then no placement.
   */
  function TransformToMoveOutsideBar(x0: real, x1: real, y0: real, y1: real, bb: BBox,
                                     orientation: Orientation): (t: Option<Transform>)
    ensures t.None? <==> AlongBarWidth(x0, x1, y0, y1, orientation) <= 2.0 * TextPad
    ensures t.Some? ==> t.value.ScaleFactor() == OutsideBarFit(x0, x1, y0, y1, bb, orientation).scale
    ensures t.Some? ==> (t.value.rotateAbout.Some? <==> OutsideBarFit(x0, x1, y0, y1, bb, orientation).rotate)
  {
    if AlongBarWidth(x0, x1, y0, y1, orientation) <= 2.0 * TextPad then None
    else
      var fit := OutsideBarFit(x0, x1, y0, y1, bb, orientation);
      var target := OutsideTarget(x0, x1, y0, y1, bb, orientation);
      Some(GetTransform(bb.Centre().0, bb.Centre().1, target.0, target.1, fit.scale, fit.rotate))
  }

  /** Where the centre of outside text goes: TEXTPAD past the bar's end, centred across the bar. */
  function OutsideTarget(x0: real, x1: real, y0: real, y1: real, bb: BBox, orientation: Orientation): (c: (real, real))
    ensures var size := FittedSize(OutsideBarFit(x0, x1, y0, y1, bb, orientation), bb.width, bb.height);
      && (orientation == Vertical ==> c.0 == (x0 + x1) / 2.0)
      && (orientation == Vertical && y1 > y0 ==> c.1 - size.1 / 2.0 == y1 + TextPad)
      && (orientation == Vertical && y1 <= y0 ==> c.1 + size.1 / 2.0 == y1 - TextPad)
      && (orientation == Horizontal ==> c.1 == (y0 + y1) / 2.0)
      && (orientation == Horizontal && x1 < x0 ==> c.0 + size.0 / 2.0 == x1 - TextPad)
      && (orientation == Horizontal && x1 >= x0 ==> c.0 - size.0 / 2.0 == x1 + TextPad)
  {
    var size := FittedSize(OutsideBarFit(x0, x1, y0, y1, bb, orientation), bb.width, bb.height);
    match orientation
    case Horizontal =>
      if x1 < x0 then (x1 - TextPad - size.0 / 2.0, (y0 + y1) / 2.0)
      else (x1 + TextPad + size.0 / 2.0, (y0 + y1) / 2.0)
    case Vertical =>
      if y1 > y0 then ((x0 + x1) / 2.0, y1 + TextPad + size.1 / 2.0)
      else ((x0 + x1) / 2.0, y1 - TextPad - size.1 / 2.0)
  }

  /**
   * Outside text lies entirely past the bar's end, with TEXTPAD between:
   * below a bar whose end is at the bottom, above one whose end is at the
   * top, left of a bar ending on the left, right of one ending on the
   * right; across the bar it stays within the padded width.
   */
  lemma OutsideTextBeyondBarEnd(x0: real, x1: real, y0: real, y1: real, bb: BBox, orientation: Orientation)
    requires bb.WellFormed() && bb.width > 0.0 && bb.height > 0.0
    requires AlongBarWidth(x0, x1, y0, y1, orientation) > 2.0 * TextPad
    ensures var ib := ImageBox(TransformToMoveOutsideBar(x0, x1, y0, y1, bb, orientation).value, bb);
      var bar := PaddedBar(x0, x1, y0, y1, TextPad);
      && (orientation == Vertical && y1 > y0 ==> ib.ylo == y1 + TextPad)
      && (orientation == Vertical && y1 <= y0 ==> ib.yhi == y1 - TextPad)
      && (orientation == Vertical ==> bar.xlo <= ib.xlo && ib.xhi <= bar.xhi)
      && (orientation == Horizontal && x1 < x0 ==> ib.xhi == x1 - TextPad)
      && (orientation == Horizontal && x1 >= x0 ==> ib.xlo == x1 + TextPad)
      && (orientation == Horizontal ==> bar.ylo <= ib.ylo && ib.yhi <= bar.yhi)
  {
    if orientation == Horizontal {
      OutsideAcrossHorizontal(x0, x1, y0, y1, bb);
    } else {
      OutsideAcrossVertical(x0, x1, y0, y1, bb);
    }
    OutsidePlacement(x0, x1, y0, y1, bb, orientation);
  }

  /** Across a horizontal bar, outside text keeps within the padded bar. */
  lemma OutsideAcrossHorizontal(x0: real, x1: real, y0: real, y1: real, bb: BBox)
    requires bb.WellFormed() && bb.width > 0.0 && bb.height > 0.0
    requires AlongBarWidth(x0, x1, y0, y1, Horizontal) > 2.0 * TextPad
    ensures var ib := ImageBox(TransformToMoveOutsideBar(x0, x1, y0, y1, bb, Horizontal).value, bb);
      var bar := PaddedBar(x0, x1, y0, y1, TextPad);
      bar.ylo <= ib.ylo && ib.yhi <= bar.yhi
  {
    OutsidePlacement(x0, x1, y0, y1, bb, Horizontal);
    var size := FittedSize(OutsideBarFit(x0, x1, y0, y1, bb, Horizontal), bb.width, bb.height);
    assert size.1 <= JsMath.Abs(y1 - y0) - 2.0 * TextPad;
  }

  /** Across a vertical bar, outside text keeps within the padded bar. */
  lemma OutsideAcrossVertical(x0: real, x1: real, y0: real, y1: real, bb: BBox)
    requires bb.WellFormed() && bb.width > 0.0 && bb.height > 0.0
    requires AlongBarWidth(x0, x1, y0, y1, Vertical) > 2.0 * TextPad
    ensures var ib := ImageBox(TransformToMoveOutsideBar(x0, x1, y0, y1, bb, Vertical).value, bb);
      var bar := PaddedBar(x0, x1, y0, y1, TextPad);
      bar.xlo <= ib.xlo && ib.xhi <= bar.xhi
  {
    OutsidePlacement(x0, x1, y0, y1, bb, Vertical);
    var size := FittedSize(OutsideBarFit(x0, x1, y0, y1, bb, Vertical), bb.width, bb.height);
    assert size.0 <= JsMath.Abs(x1 - x0) - 2.0 * TextPad;
  }

  /** The outside text box in terms of its target and fitted size. */
  lemma OutsidePlacement(x0: real, x1: real, y0: real, y1: real, bb: BBox, orientation: Orientation)
    requires bb.WellFormed() && bb.width > 0.0 && bb.height > 0.0
    requires AlongBarWidth(x0, x1, y0, y1, orientation) > 2.0 * TextPad
    ensures var ib := ImageBox(TransformToMoveOutsideBar(x0, x1, y0, y1, bb, orientation).value, bb);
      var target := OutsideTarget(x0, x1, y0, y1, bb, orientation);
      var size := FittedSize(OutsideBarFit(x0, x1, y0, y1, bb, orientation), bb.width, bb.height);
      && ib.xlo == target.0 - size.0 / 2.0 && ib.xhi == target.0 + size.0 / 2.0
      && ib.ylo == target.1 - size.1 / 2.0 && ib.yhi == target.1 + size.1 / 2.0
      && 0.0 <= size.0 && 0.0 <= size.1
  {
    var fit := OutsideBarFit(x0, x1, y0, y1, bb, orientation);
    var target := OutsideTarget(x0, x1, y0, y1, bb, orientation);
    var t := GetTransform(bb.Centre().0, bb.Centre().1, target.0, target.1, fit.scale, fit.rotate);
    assert TransformToMoveOutsideBar(x0, x1, y0, y1, bb, orientation) == Some(t);
    assert 0.0 <= fit.scale <= 1.0;
    ScaledBox(bb, target.0, target.1, fit, t);
  }

  lemma ScaledBox(bb: BBox, targetX: real, targetY: real, fit: Fit, t: Transform)
    requires bb.WellFormed() && 0.0 <= fit.scale <= 1.0
    requires t == GetTransform(bb.Centre().0, bb.Centre().1, targetX, targetY, fit.scale, fit.rotate)
    ensures var size := FittedSize(fit, bb.width, bb.height);
      && ImageBox(t, bb) == Box(targetX - size.0 / 2.0, targetX + size.0 / 2.0, targetY - size.1 / 2.0, targetY + size.1 / 2.0)
      && 0.0 <= size.0 && 0.0 <= size.1
  {
    JsMath.ScaleDown(fit.scale, bb.width);
    JsMath.ScaleDown(fit.scale, bb.height);
    PlacedBox(bb, targetX, targetY, fit);
  }
}
