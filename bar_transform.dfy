/**
 * Fitting a bar's text label and computing the SVG transform that moves it
 * inside the bar or just past its end: pure arithmetic over pixel
 * coordinates (y grows downward).
 */
module BarTransform {
  import opened Wrappers
  import JsMath

  /** Padding in pixels around text. */
  const TextPad: real := 3.0

  /** `'h'` is horizontal; the source treats any other orientation as vertical. */
  datatype Orientation = Vertical | Horizontal

  /** A measured text bounding box, as the text-measurement primitive returns it. */
  datatype BBox = BBox(left: real, right: real, top: real, bottom: real, width: real, height: real)
  {
    /** Sizes consistent with the edges. */
    predicate WellFormed()
    {
      width == right - left && height == bottom - top && width >= 0.0 && height >= 0.0
    }

    /** The middle of the box: halfway between its left and right and between its top and bottom. */
    function Centre(): (c: (real, real))
      ensures c.0 - left == right - c.0 && c.1 - top == bottom - c.1
      ensures WellFormed() ==> left <= c.0 <= right && top <= c.1 <= bottom
    {
      ((left + right) / 2.0, (top + bottom) / 2.0)
    }
  }

  /** An axis-aligned rectangle [xlo, xhi] x [ylo, yhi]. */
  datatype Box = Box(xlo: real, xhi: real, ylo: real, yhi: real)
  {
    predicate Contains(pt: (real, real))
    {
      xlo <= pt.0 <= xhi && ylo <= pt.1 <= yhi
    }

    predicate Within(outer: Box)
    {
      outer.xlo <= xlo && xhi <= outer.xhi && outer.ylo <= ylo && yhi <= outer.yhi
    }
  }

  /**
   * The transform `translate(tx ty) scale(s) rotate(-90 cx cy)`: the scale
   * term is present only for a factor below 1, the rotation only when the
   * text is turned.
   */
  datatype Transform = Transform(tx: real, ty: real, scale: Option<real>, rotateAbout: Option<(real, real)>)
  {
    function ScaleFactor(): real
    {
      scale.GetOr(1.0)
    }

    /**
     * Where the transform sends point `pt`: an SVG transform list applies
     * its rightmost term first.  Without a scale term it only turns (when
     * asked) and translates.
     */
    function Apply(pt: (real, real)): (q: (real, real))
      ensures scale.None? && rotateAbout.None? ==> q == (tx + pt.0, ty + pt.1)
      ensures scale.None? && rotateAbout.Some? ==>
                q == (tx + Turn(rotateAbout.value, pt).0, ty + Turn(rotateAbout.value, pt).1)
    {
      var s := ScaleFactor();
      var r := if rotateAbout.Some? then Turn(rotateAbout.value, pt) else pt;
      assert scale.None? ==> s == 1.0 && s * r.0 == r.0 && s * r.1 == r.1;
      (tx + s * r.0, ty + s * r.1)
    }
  }

  /**
   * rotate(-90) about `c`: with y growing downward, a quarter turn
   * counter-clockwise on screen, which sends c + (dx, dy) to c + (dy, -dx).
   */
  function Turn(c: (real, real), pt: (real, real)): (r: (real, real))
    ensures r.0 - c.0 == pt.1 - c.1 && r.1 - c.1 == -(pt.0 - c.0)
    ensures pt == c ==> r == c
  {
    (c.0 + (pt.1 - c.1), c.1 - (pt.0 - c.0))
  }

  /** Whether the text is turned a quarter turn, and its scale factor. */
  datatype Fit = Fit(rotate: bool, scale: real)

  /**
   * The width and height the text occupies once scaled and possibly turned:
   * a turn swaps the two sides, and a scale in [0, 1] never enlarges either.
   */
  function FittedSize(f: Fit, textWidth: real, textHeight: real): (size: (real, real))
    ensures textWidth >= 0.0 && textHeight >= 0.0 && 0.0 <= f.scale <= 1.0 && !f.rotate ==>
      0.0 <= size.0 <= textWidth && 0.0 <= size.1 <= textHeight
    ensures textWidth >= 0.0 && textHeight >= 0.0 && 0.0 <= f.scale <= 1.0 && f.rotate ==>
      0.0 <= size.0 <= textHeight && 0.0 <= size.1 <= textWidth
  {
    var w := if textWidth >= 0.0 && 0.0 <= f.scale <= 1.0 then ScaledSide(f.scale, textWidth) else f.scale * textWidth;
    var h := if textHeight >= 0.0 && 0.0 <= f.scale <= 1.0 then ScaledSide(f.scale, textHeight) else f.scale * textHeight;
    if f.rotate then (h, w) else (w, h)
  }

  /** A side scaled by a factor in [0, 1]: between 0 and the full side. */
  function ScaledSide(s: real, side: real): (r: real)
    requires 0.0 <= s <= 1.0 && side >= 0.0
    ensures r == s * side
    ensures 0.0 <= r <= side
  {
    JsMath.ScaleDown(s, side);
    s * side
  }

  /**
   * The transform that scales the text (never up), turns it about its centre
   * when asked, and brings its centre to the target.
   */
  function GetTransform(textX: real, textY: real, targetX: real, targetY: real,
                        scale: real, needsRotating: bool): (t: Transform)
    ensures t.scale.Some? <==> scale < 1.0
    ensures t.ScaleFactor() == JsMath.Min(scale, 1.0)
    ensures t.rotateAbout == (if needsRotating then Some((textX, textY)) else None)
    ensures t.Apply((textX, textY)).0 == targetX && t.Apply((textX, textY)).1 == targetY
  {
    var s := if scale < 1.0 then scale else 1.0;
    var t := Transform(targetX - s * textX, targetY - s * textY,
                       if scale < 1.0 then Some(scale) else None,
                       if needsRotating then Some((textX, textY)) else None);
    assert t.ScaleFactor() == s;
    assert t.Apply((textX, textY)).0 == t.tx + s * textX;
    assert t.Apply((textX, textY)).1 == t.ty + s * textY;
    t
  }

  /**
   * The image of a text box under a transform that turns it about its
   * centre: a box of the scaled (and, when turned, swapped) size around the
   * image of the centre.
   */
  function ImageBox(t: Transform, bb: BBox): (ib: Box)
    ensures (ib.xlo + ib.xhi) / 2.0 == t.Apply(bb.Centre()).0
    ensures (ib.ylo + ib.yhi) / 2.0 == t.Apply(bb.Centre()).1
    ensures ib.xhi - ib.xlo == 2.0 * HalfExtents(t, bb).0 && ib.yhi - ib.ylo == 2.0 * HalfExtents(t, bb).1
  {
    var c := t.Apply(bb.Centre());
    var h := HalfExtents(t, bb);
    Box(c.0 - h.0, c.0 + h.0, c.1 - h.1, c.1 + h.1)
  }

  /** How a transform that turns about `c` (or does not turn) moves a point offset from `c`. */
  lemma ApplyOffset(t: Transform, c: (real, real), q: (real, real), dx: real, dy: real)
    requires t.rotateAbout.Some? ==> t.rotateAbout.value == c
    requires q.0 == c.0 + dx && q.1 == c.1 + dy
    ensures t.rotateAbout.None? ==> t.Apply(q).0 == t.Apply(c).0 + t.ScaleFactor() * dx
    ensures t.rotateAbout.None? ==> t.Apply(q).1 == t.Apply(c).1 + t.ScaleFactor() * dy
    ensures t.rotateAbout.Some? ==> t.Apply(q).0 == t.Apply(c).0 + t.ScaleFactor() * dy
    ensures t.rotateAbout.Some? ==> t.Apply(q).1 == t.Apply(c).1 - t.ScaleFactor() * dx
  {
    var s := t.ScaleFactor();
    assert s * (c.0 + dx) == s * c.0 + s * dx && s * (c.1 + dy) == s * c.1 + s * dy;
    assert s * (c.0 + dy) == s * c.0 + s * dy && s * (c.1 - dx) == s * c.1 - s * dx;
  }

  /** Half the width and half the height of ImageBox. */
  function HalfExtents(t: Transform, bb: BBox): (real, real)
  {
    var s := t.ScaleFactor();
    if t.rotateAbout.Some? then (s * (bb.height / 2.0), s * (bb.width / 2.0))
    else (s * (bb.width / 2.0), s * (bb.height / 2.0))
  }

  /** Scaling a half-extent taken on either side of the centre. */
  lemma SignedScale(s: real, a: real)
    requires s >= 0.0 && a >= 0.0
    ensures s * -a == -(s * a)
    ensures s * a >= 0.0
  {
  }

  /** The top-left corner of the text box lands on a corner of ImageBox. */
  lemma TopLeftImage(t: Transform, bb: BBox)
    requires bb.WellFormed() && t.ScaleFactor() >= 0.0
    requires t.rotateAbout.Some? ==> t.rotateAbout.value == bb.Centre()
    ensures t.rotateAbout.None? ==> t.Apply((bb.left, bb.top)) == (ImageBox(t, bb).xlo, ImageBox(t, bb).ylo)
    ensures t.rotateAbout.Some? ==> t.Apply((bb.left, bb.top)) == (ImageBox(t, bb).xlo, ImageBox(t, bb).yhi)
  {
    var s, w2, h2 := t.ScaleFactor(), bb.width / 2.0, bb.height / 2.0;
    SignedScale(s, w2);
    SignedScale(s, h2);
    ApplyOffset(t, bb.Centre(), (bb.left, bb.top), -w2, -h2);
    var a, p, ib := t.Apply(bb.Centre()), t.Apply((bb.left, bb.top)), ImageBox(t, bb);
    if t.rotateAbout.None? {
      assert p.0 == a.0 - s * w2 && p.1 == a.1 - s * h2;
      assert ib.xlo == a.0 - s * w2 && ib.ylo == a.1 - s * h2;
    } else {
      assert p.0 == a.0 - s * h2 && p.1 == a.1 + s * w2;
      assert ib.xlo == a.0 - s * h2 && ib.yhi == a.1 + s * w2;
    }
  }

  /** The top-right corner of the text box lands on a corner of ImageBox. */
  lemma TopRightImage(t: Transform, bb: BBox)
    requires bb.WellFormed() && t.ScaleFactor() >= 0.0
    requires t.rotateAbout.Some? ==> t.rotateAbout.value == bb.Centre()
    ensures t.rotateAbout.None? ==> t.Apply((bb.right, bb.top)) == (ImageBox(t, bb).xhi, ImageBox(t, bb).ylo)
    ensures t.rotateAbout.Some? ==> t.Apply((bb.right, bb.top)) == (ImageBox(t, bb).xlo, ImageBox(t, bb).ylo)
  {
    var s, w2, h2 := t.ScaleFactor(), bb.width / 2.0, bb.height / 2.0;
    SignedScale(s, w2);
    SignedScale(s, h2);
    ApplyOffset(t, bb.Centre(), (bb.right, bb.top), w2, -h2);
    var a, p, ib := t.Apply(bb.Centre()), t.Apply((bb.right, bb.top)), ImageBox(t, bb);
    if t.rotateAbout.None? {
      assert p.0 == a.0 + s * w2 && p.1 == a.1 - s * h2;
      assert ib.xhi == a.0 + s * w2 && ib.ylo == a.1 - s * h2;
    } else {
      assert p.0 == a.0 - s * h2 && p.1 == a.1 - s * w2;
      assert ib.xlo == a.0 - s * h2 && ib.ylo == a.1 - s * w2;
    }
  }

  /** The bottom-left corner of the text box lands on a corner of ImageBox. */
  lemma BottomLeftImage(t: Transform, bb: BBox)
    requires bb.WellFormed() && t.ScaleFactor() >= 0.0
    requires t.rotateAbout.Some? ==> t.rotateAbout.value == bb.Centre()
    ensures t.rotateAbout.None? ==> t.Apply((bb.left, bb.bottom)) == (ImageBox(t, bb).xlo, ImageBox(t, bb).yhi)
    ensures t.rotateAbout.Some? ==> t.Apply((bb.left, bb.bottom)) == (ImageBox(t, bb).xhi, ImageBox(t, bb).yhi)
  {
    var s, w2, h2 := t.ScaleFactor(), bb.width / 2.0, bb.height / 2.0;
    SignedScale(s, w2);
    SignedScale(s, h2);
    ApplyOffset(t, bb.Centre(), (bb.left, bb.bottom), -w2, h2);
    var a, p, ib := t.Apply(bb.Centre()), t.Apply((bb.left, bb.bottom)), ImageBox(t, bb);
    if t.rotateAbout.None? {
      assert p.0 == a.0 - s * w2 && p.1 == a.1 + s * h2;
      assert ib.xlo == a.0 - s * w2 && ib.yhi == a.1 + s * h2;
    } else {
      assert p.0 == a.0 + s * h2 && p.1 == a.1 + s * w2;
      assert ib.xhi == a.0 + s * h2 && ib.yhi == a.1 + s * w2;
    }
  }

  /** The bottom-right corner of the text box lands on a corner of ImageBox. */
  lemma BottomRightImage(t: Transform, bb: BBox)
    requires bb.WellFormed() && t.ScaleFactor() >= 0.0
    requires t.rotateAbout.Some? ==> t.rotateAbout.value == bb.Centre()
    ensures t.rotateAbout.None? ==> t.Apply((bb.right, bb.bottom)) == (ImageBox(t, bb).xhi, ImageBox(t, bb).yhi)
    ensures t.rotateAbout.Some? ==> t.Apply((bb.right, bb.bottom)) == (ImageBox(t, bb).xhi, ImageBox(t, bb).ylo)
  {
    var s, w2, h2 := t.ScaleFactor(), bb.width / 2.0, bb.height / 2.0;
    SignedScale(s, w2);
    SignedScale(s, h2);
    ApplyOffset(t, bb.Centre(), (bb.right, bb.bottom), w2, h2);
    var a, p, ib := t.Apply(bb.Centre()), t.Apply((bb.right, bb.bottom)), ImageBox(t, bb);
    if t.rotateAbout.None? {
      assert p.0 == a.0 + s * w2 && p.1 == a.1 + s * h2;
      assert ib.xhi == a.0 + s * w2 && ib.yhi == a.1 + s * h2;
    } else {
      assert p.0 == a.0 + s * h2 && p.1 == a.1 - s * w2;
      assert ib.xhi == a.0 + s * h2 && ib.ylo == a.1 - s * w2;
    }
  }

  /**
   * ImageBox is the image of the text box: every corner lands in it, and the
   * top-left and bottom-right corners land on opposite corners of it.
   */
  lemma ImageBoxIsImage(t: Transform, bb: BBox)
    requires bb.WellFormed() && t.ScaleFactor() >= 0.0
    requires t.rotateAbout.Some? ==> t.rotateAbout.value == bb.Centre()
    ensures ImageBox(t, bb).Contains(t.Apply((bb.left, bb.top)))
    ensures ImageBox(t, bb).Contains(t.Apply((bb.right, bb.top)))
    ensures ImageBox(t, bb).Contains(t.Apply((bb.left, bb.bottom)))
    ensures ImageBox(t, bb).Contains(t.Apply((bb.right, bb.bottom)))
    ensures JsMath.Min(t.Apply((bb.left, bb.top)).0, t.Apply((bb.right, bb.bottom)).0) == ImageBox(t, bb).xlo
    ensures JsMath.Max(t.Apply((bb.left, bb.top)).0, t.Apply((bb.right, bb.bottom)).0) == ImageBox(t, bb).xhi
    ensures JsMath.Min(t.Apply((bb.left, bb.top)).1, t.Apply((bb.right, bb.bottom)).1) == ImageBox(t, bb).ylo
    ensures JsMath.Max(t.Apply((bb.left, bb.top)).1, t.Apply((bb.right, bb.bottom)).1) == ImageBox(t, bb).yhi
  {
    var ib := ImageBox(t, bb);
    SignedScale(t.ScaleFactor(), bb.width / 2.0);
    SignedScale(t.ScaleFactor(), bb.height / 2.0);
    assert ib.xlo <= ib.xhi && ib.ylo <= ib.yhi;
    TopLeftImage(t, bb);
    TopRightImage(t, bb);
    BottomLeftImage(t, bb);
    BottomRightImage(t, bb);
  }

  lemma HalfIsHalf(s: real, a: real)
    ensures s * (a / 2.0) == (s * a) / 2.0
  {
  }

  /**
   * The text box placed by GetTransform about its own centre occupies the
   * fitted size, centred on the target.
   */
  lemma PlacedBox(bb: BBox, targetX: real, targetY: real, fit: Fit)
    requires bb.WellFormed() && 0.0 <= fit.scale <= 1.0
    ensures var ib := ImageBox(GetTransform(bb.Centre().0, bb.Centre().1, targetX, targetY, fit.scale, fit.rotate), bb);
      var size := FittedSize(fit, bb.width, bb.height);
      && ib.xlo == targetX - size.0 / 2.0 && ib.xhi == targetX + size.0 / 2.0
      && ib.ylo == targetY - size.1 / 2.0 && ib.yhi == targetY + size.1 / 2.0
  {
    var t := GetTransform(bb.Centre().0, bb.Centre().1, targetX, targetY, fit.scale, fit.rotate);
    assert t.ScaleFactor() == fit.scale;
    HalfIsHalf(fit.scale, bb.width);
    HalfIsHalf(fit.scale, bb.height);
    assert bb.Centre() == (bb.Centre().0, bb.Centre().1);
  }
}
