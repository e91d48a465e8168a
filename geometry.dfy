/** The diagram's shared coordinate frame: extents of the selection, the
    padded view box centred on the optical axis, stroke and font sizes that
    scale with the largest extent, centred rectangles and staggered labels. */
module Geometry {
  import opened Catalog

  /** An axis-aligned rectangle given by its top-left corner and its size. */
  datatype Rect = Rect(x: real, y: real, width: real, height: real)

  /** The frame every shape of one diagram is drawn against. */
  datatype Frame = Frame(
    maxW: real, maxH: real, pad: real, viewBox: Rect,
    strokeW: real, highlightStrokeW: real, fontSize: real, smallFontSize: real,
    crosshairLen: real, crosshairStroke: real)

  const PAD_RATIO := 0.18
  const STROKE_RATIO := 0.003
  const HIGHLIGHT_STROKE_FACTOR := 2.5
  const FONT_RATIO := 0.022
  const SMALL_FONT_FACTOR := 0.75
  const CROSSHAIR_RATIO := 0.015
  const CROSSHAIR_STROKE_FACTOR := 0.5
  /** Vertical distance between staggered labels, in font sizes. */
  const LABEL_STEP := 1.4
  /** Distance from a name label down to its dimension label, in small font sizes. */
  const DIM_LABEL_STEP := 1.3

  /** r lies inside box. */
  predicate Contains(box: Rect, r: Rect) {
    && box.x <= r.x && r.x + r.width <= box.x + box.width
    && box.y <= r.y && r.y + r.height <= box.y + box.height
  }

  function Max(a: real, b: real): real {
    if a >= b then a else b
  }

  /** The largest width of the list, or 0 for an empty list. */
  function MaxWidth(s: seq<Format>): (m: real)
    ensures 0.0 <= m
    ensures forall i :: 0 <= i < |s| ==> s[i].width <= m
    ensures m == 0.0 || exists i :: 0 <= i < |s| && s[i].width == m
  {
    if s == [] then 0.0
    else
      var init := s[..|s| - 1];
      var m0 := MaxWidth(init);
      assert forall i :: 0 <= i < |init| ==> init[i] == s[i];
      if s[|s| - 1].width > m0 then s[|s| - 1].width else m0
  }

  /** The largest height of the list, or 0 for an empty list. */
  function MaxHeight(s: seq<Format>): (m: real)
    ensures 0.0 <= m
    ensures forall i :: 0 <= i < |s| ==> s[i].height <= m
    ensures m == 0.0 || exists i :: 0 <= i < |s| && s[i].height == m
  {
    if s == [] then 0.0
    else
      var init := s[..|s| - 1];
      var m0 := MaxHeight(init);
      assert forall i :: 0 <= i < |init| ==> init[i] == s[i];
      if s[|s| - 1].height > m0 then s[|s| - 1].height else m0
  }

  /** Scans the selection for its largest width and height, starting from 0. */
  method MaxExtents(sel: seq<Format>) returns (maxW: real, maxH: real)
    ensures maxW == MaxWidth(sel) && maxH == MaxHeight(sel)
  {
    maxW, maxH := 0.0, 0.0;
    for i := 0 to |sel|
      invariant maxW == MaxWidth(sel[..i]) && maxH == MaxHeight(sel[..i])
    {
      assert sel[..i + 1][..i] == sel[..i];
      if sel[i].width > maxW { maxW := sel[i].width; }
      if sel[i].height > maxH { maxH := sel[i].height; }
    }
    assert sel[..|sel|] == sel;
  }

  /** The frame for the given extents. */
  function FrameFor(maxW: real, maxH: real): (fr: Frame)
    ensures fr.maxW == maxW && fr.maxH == maxH
    // centred on the optical axis, with a margin of pad on every side of the extents
    ensures fr.viewBox.x == -fr.viewBox.width / 2.0 && fr.viewBox.y == -fr.viewBox.height / 2.0
    ensures fr.viewBox.width == maxW + 2.0 * fr.pad && fr.viewBox.height == maxH + 2.0 * fr.pad
    ensures 0.0 <= maxW && 0.0 <= maxH ==> 0.0 <= fr.pad
    // margin, stroke, font and crosshair all scale with the larger extent
    ensures fr.pad == PAD_RATIO * Max(maxW, maxH)
    ensures fr.strokeW == STROKE_RATIO * Max(maxW, maxH)
    ensures fr.fontSize == FONT_RATIO * Max(maxW, maxH)
    ensures fr.crosshairLen == CROSSHAIR_RATIO * Max(maxW, maxH)
    ensures fr.highlightStrokeW == HIGHLIGHT_STROKE_FACTOR * fr.strokeW
    ensures fr.smallFontSize == SMALL_FONT_FACTOR * fr.fontSize
    ensures fr.crosshairStroke == CROSSHAIR_STROKE_FACTOR * fr.strokeW
  {
    var extent := Max(maxW, maxH);
    var pad := extent * PAD_RATIO;
    var vbW := maxW + pad * 2.0;
    var vbH := maxH + pad * 2.0;
    var strokeW := extent * STROKE_RATIO;
    var fontSize := extent * FONT_RATIO;
    Frame(maxW, maxH, pad, Rect(-vbW / 2.0, -vbH / 2.0, vbW, vbH),
          strokeW, strokeW * HIGHLIGHT_STROKE_FACTOR, fontSize, fontSize * SMALL_FONT_FACTOR,
          extent * CROSSHAIR_RATIO, strokeW * CROSSHAIR_STROKE_FACTOR)
  }

  /** The outline of a w x h format, centred on the origin. */
  function RectOf(w: real, h: real): (r: Rect)
    ensures r.width == w && r.height == h
    ensures r.x + r.width / 2.0 == 0.0 && r.y + r.height / 2.0 == 0.0
  {
    Rect(-w / 2.0, -h / 2.0, w, h)
  }

  /** The frame of a list of formats contains each of their centred outlines. */
  lemma {:induction false} FrameContainsAll(s: seq<Format>, i: int)
    requires 0 <= i < |s|
    ensures Contains(FrameFor(MaxWidth(s), MaxHeight(s)).viewBox, RectOf(s[i].width, s[i].height))
  {
    var fr := FrameFor(MaxWidth(s), MaxHeight(s));
    assert s[i].width <= fr.maxW && s[i].height <= fr.maxH;
  }

  /** Where the index-th label of a shape of height h would sit without the
      reset: one font size below the top edge, 1.4 font sizes lower per index. */
  function StaggeredY(h: real, fontSize: real, index: nat): real {
    -h / 2.0 + fontSize + LABEL_STEP * fontSize * (index as real)
  }

  /** The baseline of the name label of the index-th shape in drawing order:
      the staggered position, put back one font size below the top edge when
      it would fall below the bottom edge. */
  function LabelY(h: real, fontSize: real, index: nat): (y: real)
    ensures y == -h / 2.0 + fontSize || (y == StaggeredY(h, fontSize, index) && y <= h / 2.0)
    ensures StaggeredY(h, fontSize, index) <= h / 2.0 ==> y == StaggeredY(h, fontSize, index)
    // the first label always sits one font size below the top edge
    ensures index == 0 ==> y == -h / 2.0 + fontSize
  {
    var labelYBase := -h / 2.0;
    var labelYOffset := fontSize * LABEL_STEP * (index as real);
    var labelY := labelYBase + fontSize + labelYOffset;
    if labelY > h / 2.0 then -h / 2.0 + fontSize else labelY
  }

  /** When the font fits in the shape, every label lies between one font
      size below the top edge and the bottom edge. */
  lemma LabelInsideShape(h: real, fontSize: real, index: nat)
    requires 0.0 <= fontSize <= h
    ensures -h / 2.0 + fontSize <= LabelY(h, fontSize, index) <= h / 2.0
  {
    assert 0.0 <= fontSize * (index as real);
  }

  /** Consecutive labels that both fit are 1.4 font sizes apart. */
  lemma LabelStagger(h: real, fontSize: real, index: nat)
    requires 0.0 <= fontSize
    requires StaggeredY(h, fontSize, index + 1) <= h / 2.0
    ensures LabelY(h, fontSize, index + 1) - LabelY(h, fontSize, index) == LABEL_STEP * fontSize
  {
    var here := StaggeredY(h, fontSize, index);
    var next := StaggeredY(h, fontSize, index + 1);
    assert next == here + LABEL_STEP * fontSize;
  }
}
