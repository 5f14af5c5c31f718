/**
 * Choosing a bar's text node: which text, which position (inside, outside,
 * or decided automatically), which font, and the transform that places it.
 * Text measurement is a parameter: a deterministic function from a string
 * and a font to the measured bounding box.
 */
module BarTextNode {
  import opened Wrappers
  import JsMath
  import opened BarTransform
  import opened BarFit

  /** The layout's `barmode`. */
  datatype BarMode = Stack | Group | Overlay | Relative

  /** The `textposition` values: `'inside' | 'outside' | 'auto' | 'none'`. */
  datatype TextPosition = Inside | Outside | Auto | NoText

  /** A trace attribute given once for the whole trace or as one entry per point. */
  datatype Attr<T> = Scalar(value: T) | PerPoint(values: seq<T>)

  datatype Font = Font(family: string, size: real, color: string)

  /**
   * The text attributes of a bar trace.  `text` is None when unset; an
   * empty string is falsy.  A font entry of None is an unset font.
   */
  datatype TextAttrs = TextAttrs(
    text: Option<Attr<string>>,
    textposition: Attr<TextPosition>,
    textfont: Attr<Option<Font>>,
    insidetextfont: Attr<Option<Font>>,
    outsidetextfont: Attr<Option<Font>>)

  /** The text node appended to a bar, or none. */
  datatype TextLabel =
    | NoLabel
    | TextLabel(text: string, font: Font, inside: bool, transform: Option<Transform>)

  datatype Fonts = Fonts(inside: Font, outside: Font)

  /** The entry of an attribute for point `i`: None past the end of a per-point array. */
  function At<T>(a: Attr<T>, i: nat): (r: Option<T>)
    ensures a.Scalar? ==> r == Some(a.value)
    ensures a.PerPoint? ==> (r.Some? <==> i < |a.values|)
    ensures a.PerPoint? && i < |a.values| ==> r == Some(a.values[i])
  {
    match a
    case Scalar(v) => Some(v)
    case PerPoint(vs) => if i < |vs| then Some(vs[i]) else None
  }

  /** The text for point `i`, or None when there is none to show. */
  function ResolveText(text: Option<Attr<string>>, i: nat): (r: Option<string>)
    ensures r.Some? ==> r.value != ""
    ensures r.Some? ==> text.Some? && At(text.value, i) == r
    ensures r.None? ==> text.None? || At(text.value, i).None? || At(text.value, i) == Some("")
  {
    if text.None? then None
    else
      var t := At(text.value, i);
      if t.None? || t.value == "" then None else t
  }

  /** A font attribute's entry for point `i`: None when unset or past the end of its array. */
  function FontAt(a: Attr<Option<Font>>, i: nat): (r: Option<Font>)
    ensures r.Some? <==> At(a, i).Some? && At(a, i).value.Some?
    ensures r.Some? ==> r == At(a, i).value
  {
    var f := At(a, i);
    if f.Some? then f.value else None
  }

  /** `font || fallback`. */
  function FontOr(font: Option<Font>, fallback: Font): (r: Font)
    ensures font.Some? ==> r == font.value
    ensures font.None? ==> r == fallback
  {
    if font.Some? then font.value else fallback
  }

  /**
   * The inside and outside fonts for point `i`: each is its own attribute's
   * entry if set, else the text font's entry if set, else the layout font.
   */
  function ResolveFonts(attrs: TextAttrs, layoutFont: Font, i: nat): (r: Fonts)
    ensures FontAt(attrs.insidetextfont, i).Some? ==> r.inside == FontAt(attrs.insidetextfont, i).value
    ensures FontAt(attrs.outsidetextfont, i).Some? ==> r.outside == FontAt(attrs.outsidetextfont, i).value
    ensures FontAt(attrs.insidetextfont, i).None? && FontAt(attrs.textfont, i).Some? ==> r.inside == FontAt(attrs.textfont, i).value
    ensures FontAt(attrs.outsidetextfont, i).None? && FontAt(attrs.textfont, i).Some? ==> r.outside == FontAt(attrs.textfont, i).value
    ensures FontAt(attrs.insidetextfont, i).None? && FontAt(attrs.textfont, i).None? ==> r.inside == layoutFont
    ensures FontAt(attrs.outsidetextfont, i).None? && FontAt(attrs.textfont, i).None? ==> r.outside == layoutFont
  {
    var textFont := FontOr(FontAt(attrs.textfont, i), layoutFont);
    Fonts(FontOr(FontAt(attrs.insidetextfont, i), textFont), FontOr(FontAt(attrs.outsidetextfont, i), textFont))
  }

  /** Outside stack and relative modes every bar counts as outmost. */
  predicate IsOutmost(mode: BarMode, outmost: bool)
    ensures mode == Group || mode == Overlay ==> IsOutmost(mode, outmost)
    ensures (mode == Stack || mode == Relative) ==> (IsOutmost(mode, outmost) <==> outmost)
  {
    !(mode == Stack || mode == Relative) || outmost
  }

  predicate HasSize(bb: BBox)
  {
    bb.width > 0.0 && bb.height > 0.0
  }

  /**
   * The test for `'auto'`: the text has a size and fits the bar, less
   * TEXTPAD on every side, turned or not.
   */
  predicate AutoFits(bb: BBox, x0: real, x1: real, y0: real, y1: real)
    ensures AutoFits(bb, x0, x1, y0, y1) <==>
      HasSize(bb) && FitsAt(1.0, JsMath.Abs(x1 - x0) - 2.0 * TextPad, JsMath.Abs(y1 - y0) - 2.0 * TextPad, bb.width, bb.height)
  {
    var barWidth := JsMath.Abs(x1 - x0) - 2.0 * TextPad;
    var barHeight := JsMath.Abs(y1 - y0) - 2.0 * TextPad;
    HasSize(bb) &&
    ((bb.width <= barWidth && bb.height <= barHeight) || (bb.width <= barHeight && bb.height <= barWidth))
  }

  /** Whether the text goes inside the bar, given the requested position. */
  predicate PlacedInside(position: TextPosition, outmost: bool, fits: bool)
  {
    match position
    case Outside => !outmost
    case Auto => !outmost || fits
    case _ => true
  }

  /**
   * The text node of point `i`, as a declarative outcome: a node shows the
   * point's non-empty text at a position other than `'none'`, in one of the
   * two resolved fonts, and measures with an area in that font.
   */
  function BarText(attrs: TextAttrs, layoutFont: Font, mode: BarMode, i: nat, outmost: bool,
                   x0: real, x1: real, y0: real, y1: real, orientation: Orientation,
                   measure: (string, Font) -> BBox): (node: TextLabel)
    ensures node.TextLabel? ==>
      && ResolveText(attrs.text, i) == Some(node.text)
      && At(attrs.textposition, i).Some? && At(attrs.textposition, i) != Some(NoText)
      && (var fonts := ResolveFonts(attrs, layoutFont, i); node.font == fonts.inside || node.font == fonts.outside)
      && HasSize(measure(node.text, node.font))
    ensures ResolveText(attrs.text, i).None? || At(attrs.textposition, i).None? || At(attrs.textposition, i) == Some(NoText)
            ==> node.NoLabel?
  {
    var text := ResolveText(attrs.text, i);
    var position := At(attrs.textposition, i);
    if text.None? || position.None? || position.value == NoText then NoLabel
    else PlacedLabel(text.value, position.value, IsOutmost(mode, outmost), ResolveFonts(attrs, layoutFont, i),
                     x0, x1, y0, y1, orientation, measure)
  }

  /**
   * The node for text that is to be shown at a requested position other
   * than `'none'`: the place follows PlacedInside with the automatic test
   * made in the inside font, the font follows the place, there is no node
   * when the text has no area in that font, and text inside always has a
   * transform.
   */
  function PlacedLabel(text: string, position: TextPosition, outmost: bool, fonts: Fonts,
                       x0: real, x1: real, y0: real, y1: real, orientation: Orientation,
                       measure: (string, Font) -> BBox): (node: TextLabel)
    ensures var inside := PlacedInside(position, outmost, AutoFits(measure(text, fonts.inside), x0, x1, y0, y1));
      var font := if inside then fonts.inside else fonts.outside;
      && (node.NoLabel? <==> !HasSize(measure(text, font)))
      && (node.TextLabel? ==> node.text == text && node.inside == inside && node.font == font)
      && (node.TextLabel? && node.inside ==> node.transform.Some?)
  {
    var inside := PlacedInside(position, outmost, AutoFits(measure(text, fonts.inside), x0, x1, y0, y1));
    var font := if inside then fonts.inside else fonts.outside;
    var bb := measure(text, font);
    if !HasSize(bb) then NoLabel
    else
      TextLabel(text, font, inside,
                if inside then Some(TransformToMoveInsideBar(x0, x1, y0, y1, bb, orientation))
                else TransformToMoveOutsideBar(x0, x1, y0, y1, bb, orientation))
  }

  /**
   * The text node appended for point `i`, decided step by step: the text,
   * the position, the fonts, then the automatic choice, which measures the
   * text in the inside font and keeps that measurement when it fits.
   */
  method AppendBarText(attrs: TextAttrs, layoutFont: Font, mode: BarMode, i: nat, outmost: bool,
                       x0: real, x1: real, y0: real, y1: real, orientation: Orientation,
                       measure: (string, Font) -> BBox)
    returns (node: TextLabel)
    ensures node == BarText(attrs, layoutFont, mode, i, outmost, x0, x1, y0, y1, orientation, measure)
  {
    if attrs.text.None? || attrs.text.value == Scalar("") {
      return NoLabel;
    }
    var traceText := attrs.text.value;
    var text: string;
    if traceText.PerPoint? {
      if i >= |traceText.values| {
        return NoLabel;
      }
      text := traceText.values[i];
    } else {
      text := traceText.value;
    }
    if text == "" {
      return NoLabel;
    }
    assert ResolveText(attrs.text, i) == Some(text);

    var textPosition: TextPosition;
    if attrs.textposition.PerPoint? {
      if i >= |attrs.textposition.values| {
        return NoLabel;
      }
      textPosition := attrs.textposition.values[i];
    } else {
      textPosition := attrs.textposition.value;
    }
    if textPosition == NoText {
      return NoLabel;
    }
    assert At(attrs.textposition, i) == Some(textPosition);

    var textFont := FontOr(FontAt(attrs.textfont, i), layoutFont);
    var outsideTextFont := FontOr(FontAt(attrs.outsidetextfont, i), textFont);
    var insideTextFont := FontOr(FontAt(attrs.insidetextfont, i), textFont);

    var isOutmostBar := !(mode == Stack || mode == Relative) || outmost;
    node := PlaceText(text, textPosition, isOutmostBar, Fonts(insideTextFont, outsideTextFont),
                      x0, x1, y0, y1, orientation, measure);
  }

  /**
   * Deciding the position, measuring the text in the font for it unless the
   * automatic choice already did, and moving it into place.
   */
  method PlaceText(text: string, requested: TextPosition, isOutmostBar: bool, fonts: Fonts,
                   x0: real, x1: real, y0: real, y1: real, orientation: Orientation,
                   measure: (string, Font) -> BBox)
    returns (node: TextLabel)
    requires requested != NoText
    ensures node == PlacedLabel(text, requested, isOutmostBar, fonts, x0, x1, y0, y1, orientation, measure)
  {
    var textPosition, textBB := DecidePosition(text, requested, isOutmostBar, fonts.inside,
                                               x0, x1, y0, y1, measure);
    var font := if textPosition == Outside then fonts.outside else fonts.inside;
    if textBB.None? {
      var bb := measure(text, font);
      if bb.width <= 0.0 || bb.height <= 0.0 {
        return NoLabel;
      }
      textBB := Some(bb);
    }

    var bb := textBB.value;
    var transform;
    if textPosition == Outside {
      transform := TransformToMoveOutsideBar(x0, x1, y0, y1, bb, orientation);
    } else {
      transform := Some(TransformToMoveInsideBar(x0, x1, y0, y1, bb, orientation));
    }
    node := TextLabel(text, font, textPosition != Outside, transform);
  }

  /**
   * The position decision: `'outside'` on a bar that is not outmost becomes
   * `'inside'`; `'auto'` becomes `'inside'` on such a bar, and on an outmost
   * bar measures the text in the inside font and goes inside exactly when
   * it fits, keeping that measurement.
   */
  method DecidePosition(text: string, requested: TextPosition, isOutmostBar: bool, insideTextFont: Font,
                        x0: real, x1: real, y0: real, y1: real, measure: (string, Font) -> BBox)
    returns (textPosition: TextPosition, textBB: Option<BBox>)
    requires requested != NoText
    ensures textPosition == Inside || textPosition == Outside
    ensures (textPosition == Inside) ==
            PlacedInside(requested, isOutmostBar, AutoFits(measure(text, insideTextFont), x0, x1, y0, y1))
    ensures textBB.Some? ==>
              textPosition == Inside && textBB.value == measure(text, insideTextFont) && HasSize(textBB.value)
  {
    var barWidth := JsMath.Abs(x1 - x0) - 2.0 * TextPad;
    var barHeight := JsMath.Abs(y1 - y0) - 2.0 * TextPad;
    textPosition := requested;
    textBB := None;

    if textPosition == Outside && !isOutmostBar {
      textPosition := Inside;
    }
    if textPosition == Auto {
      if isOutmostBar {
        var bb := measure(text, insideTextFont);
        var textHasSize := bb.width > 0.0 && bb.height > 0.0;
        var fitsInside := bb.width <= barWidth && bb.height <= barHeight;
        var fitsInsideIfRotated := bb.width <= barHeight && bb.height <= barWidth;
        if textHasSize && (fitsInside || fitsInsideIfRotated) {
          textPosition := Inside;
          textBB := Some(bb);
        } else {
          textPosition := Outside;
        }
      } else {
        textPosition := Inside;
      }
    }
  }

  // ------------------------------------------------------------ properties

  /**
   * No text node is produced exactly when the text is unset, empty or past
   * the end of its array, the position is past the end of its array or
   * `'none'`, or the text measures with no area in the font it is given.
   */
  lemma NoLabelCases(attrs: TextAttrs, layoutFont: Font, mode: BarMode, i: nat, outmost: bool,
                     x0: real, x1: real, y0: real, y1: real, orientation: Orientation,
                     measure: (string, Font) -> BBox)
    ensures var node := BarText(attrs, layoutFont, mode, i, outmost, x0, x1, y0, y1, orientation, measure);
      var text := ResolveText(attrs.text, i);
      var position := At(attrs.textposition, i);
      node.NoLabel? <==>
        || attrs.text.None?
        || At(attrs.text.value, i).None?
        || At(attrs.text.value, i) == Some("")
        || position.None?
        || position == Some(NoText)
        || (var fonts := ResolveFonts(attrs, layoutFont, i);
            var fits := AutoFits(measure(text.value, fonts.inside), x0, x1, y0, y1);
            var inside := PlacedInside(position.value, IsOutmost(mode, outmost), fits);
            !HasSize(measure(text.value, if inside then fonts.inside else fonts.outside)))
  {
  }

  /** Text goes outside a bar only when it is the outmost bar and `'outside'` or `'auto'` was asked. */
  lemma OutsideOnlyForOutmost(attrs: TextAttrs, layoutFont: Font, mode: BarMode, i: nat, outmost: bool,
                              x0: real, x1: real, y0: real, y1: real, orientation: Orientation,
                              measure: (string, Font) -> BBox)
    ensures var node := BarText(attrs, layoutFont, mode, i, outmost, x0, x1, y0, y1, orientation, measure);
      node.TextLabel? && !node.inside ==>
        IsOutmost(mode, outmost) && At(attrs.textposition, i) in {Some(Outside), Some(Auto)}
  {
  }

  /**
   * How the requested position resolves: `'inside'` stays inside; on a bar
   * that is not outmost everything goes inside; `'outside'` on an outmost
   * bar stays outside; `'auto'` on an outmost bar goes inside exactly when
   * the text, measured in the inside font, fits.
   */
  lemma PositionResolution(attrs: TextAttrs, layoutFont: Font, mode: BarMode, i: nat, outmost: bool,
                           x0: real, x1: real, y0: real, y1: real, orientation: Orientation,
                           measure: (string, Font) -> BBox)
    ensures var node := BarText(attrs, layoutFont, mode, i, outmost, x0, x1, y0, y1, orientation, measure);
      var position := At(attrs.textposition, i);
      var fonts := ResolveFonts(attrs, layoutFont, i);
      node.TextLabel? ==>
        && (position == Some(Inside) ==> node.inside)
        && (!IsOutmost(mode, outmost) ==> node.inside)
        && (position == Some(Outside) && IsOutmost(mode, outmost) ==> !node.inside)
        && (position == Some(Auto) && IsOutmost(mode, outmost) ==>
              (node.inside <==> AutoFits(measure(node.text, fonts.inside), x0, x1, y0, y1)))
        && node.font == (if node.inside then fonts.inside else fonts.outside)
  {
  }

  /**
   * Text placed inside never grows, never has the scale term when it is
   * not shrunk, and lies within the bar less its padding, against the
   * padded end of the bar.
   */
  lemma InsideLabelFitsBar(attrs: TextAttrs, layoutFont: Font, mode: BarMode, i: nat, outmost: bool,
                           x0: real, x1: real, y0: real, y1: real, orientation: Orientation,
                           measure: (string, Font) -> BBox)
    requires forall s, f :: measure(s, f).WellFormed()
    ensures var node := BarText(attrs, layoutFont, mode, i, outmost, x0, x1, y0, y1, orientation, measure);
      node.TextLabel? && node.inside ==>
        var bb := measure(node.text, node.font);
        var pad := InsidePad(x0, x1, y0, y1);
        var ib := ImageBox(node.transform.value, bb);
        && node.transform.Some?
        && node.transform.value.ScaleFactor() <= 1.0
        && (node.transform.value.scale.Some? <==> node.transform.value.ScaleFactor() < 1.0)
        && ib.Within(PaddedBar(x0, x1, y0, y1, pad))
        && (orientation == Vertical ==> ib.yhi == y1 - pad || ib.ylo == y1 + pad)
        && (orientation == Horizontal ==> ib.xlo == x1 + pad || ib.xhi == x1 - pad)
  {
    var node := BarText(attrs, layoutFont, mode, i, outmost, x0, x1, y0, y1, orientation, measure);
    if node.TextLabel? && node.inside {
      var bb := measure(node.text, node.font);
      InsideTextFitsBar(x0, x1, y0, y1, bb, orientation);
    }
  }

  /**
   * Text placed outside never grows and, when the bar is wider than
   * 2 * TEXTPAD across its end, lies entirely past that end with TEXTPAD
   * between; a narrower bar leaves the placement undefined.
   */
  lemma OutsideLabelBeyondEnd(attrs: TextAttrs, layoutFont: Font, mode: BarMode, i: nat, outmost: bool,
                              x0: real, x1: real, y0: real, y1: real, orientation: Orientation,
                              measure: (string, Font) -> BBox)
    requires forall s, f :: measure(s, f).WellFormed()
    ensures var node := BarText(attrs, layoutFont, mode, i, outmost, x0, x1, y0, y1, orientation, measure);
      node.TextLabel? && !node.inside ==>
        && (node.transform.None? <==> AlongBarWidth(x0, x1, y0, y1, orientation) <= 2.0 * TextPad)
        && (node.transform.Some? ==>
              var ib := ImageBox(node.transform.value, measure(node.text, node.font));
              && node.transform.value.ScaleFactor() <= 1.0
              && (orientation == Vertical && y1 > y0 ==> y1 + TextPad == ib.ylo)
              && (orientation == Vertical && y1 <= y0 ==> ib.yhi == y1 - TextPad)
              && (orientation == Horizontal && x1 < x0 ==> ib.xhi == x1 - TextPad)
              && (orientation == Horizontal && x1 >= x0 ==> x1 + TextPad == ib.xlo))
  {
    var node := BarText(attrs, layoutFont, mode, i, outmost, x0, x1, y0, y1, orientation, measure);
    if node.TextLabel? && !node.inside && node.transform.Some? {
      var bb := measure(node.text, node.font);
      OutsideTextBeyondBarEnd(x0, x1, y0, y1, bb, orientation);
    }
  }
}
