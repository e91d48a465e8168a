/** What the page shows for a given selection and highlight: the diagram of
    nested outlines (largest area at the back) and the details table
    (largest diagonal first), each row or shape styled plain, highlighted or
    dimmed. Both views are rebuilt from the state after every change. */
module Views {
  import opened Catalog
  import opened Ordering
  import opened Selection
  import opened Geometry

  /** How a row or shape is styled with respect to the hover highlight. */
  datatype Emphasis = Plain | Highlighted | Dimmed

  /** The styling of the row or shape of format id. */
  function EmphasisOf(id: string, highlighted: Option<string>): (e: Emphasis)
    ensures e == Highlighted <==> highlighted == Some(id)
    ensures e == Dimmed <==> highlighted.Some? && highlighted.value != id
    ensures e == Plain <==> highlighted == None
  {
    if highlighted.Some? && highlighted.value != id then Dimmed
    else if highlighted == Some(id) then Highlighted
    else Plain
  }

  const BOLD_WEIGHT := 700
  const NAME_WEIGHT := 500

  /** The drawing of one format: its outline, stroke, and the two labels at
      its right edge (name, then dimensions below it). */
  datatype Shape = Shape(
    id: string, emphasis: Emphasis, outline: Rect, color: string, strokeWidth: real,
    dash: string, labelX: real, labelY: real, dimLabelY: real, fontWeight: int)

  /** The dash attribute: the pattern "none" is written as an empty attribute. */
  function DashAttribute(dasharray: string): (d: string)
    ensures d == "" <==> dasharray == "none" || dasharray == ""
    ensures dasharray != "none" ==> d == dasharray
  {
    if dasharray == "none" then "" else dasharray
  }

  /** The shape of format f drawn index-th in the frame fr. */
  function ShapeOf(f: Format, index: nat, fr: Frame, highlighted: Option<string>): (sh: Shape)
    ensures sh.id == f.id && sh.emphasis == EmphasisOf(f.id, highlighted)
    ensures sh.outline == RectOf(f.width, f.height)
    ensures sh.color == f.color && sh.dash == DashAttribute(f.dasharray)
    // the highlighted shape, and only it, has the heavier stroke and the bold name
    ensures sh.emphasis == Highlighted ==> sh.strokeWidth == fr.highlightStrokeW
    ensures sh.emphasis != Highlighted ==> sh.strokeWidth == fr.strokeW
    ensures sh.fontWeight == BOLD_WEIGHT <==> sh.emphasis == Highlighted
    // the labels sit just right of the outline, the dimensions below the name
    ensures 0.0 <= fr.strokeW ==> sh.outline.x + sh.outline.width <= sh.labelX
    // two base strokes right of the outline, whatever the shape's own stroke
    ensures sh.labelX == sh.outline.x + sh.outline.width + 2.0 * fr.strokeW
    ensures sh.labelY == LabelY(f.height, fr.fontSize, index)
    ensures sh.dimLabelY - sh.labelY == DIM_LABEL_STEP * fr.smallFontSize
  {
    var isHighlighted := highlighted == Some(f.id);
    Shape(f.id, EmphasisOf(f.id, highlighted), RectOf(f.width, f.height), f.color,
          if isHighlighted then fr.highlightStrokeW else fr.strokeW,
          DashAttribute(f.dasharray),
          f.width / 2.0 + fr.strokeW * 2.0,
          LabelY(f.height, fr.fontSize, index),
          LabelY(f.height, fr.fontSize, index) + fr.smallFontSize * DIM_LABEL_STEP,
          if isHighlighted then BOLD_WEIGHT else NAME_WEIGHT)
  }

  /** The diagram: the empty-state message, or a frame with its shapes in
      drawing order (earlier shapes are behind later ones). */
  datatype Diagram = EmptyState | Drawn(frame: Frame, shapes: seq<Shape>)

  /** The area of a format's frame. */
  function FormatArea(f: Format): real {
    f.width * f.height
  }

  /** The area of an outline. */
  function RectArea(r: Rect): real {
    r.width * r.height
  }

  /** Rank of the diagram's sort: larger areas first. */
  function AreaRank(f: Format): real {
    -FormatArea(f)
  }

  /** Rank of the table's sort: larger diagonals first. */
  function DiagonalRank(f: Format): real {
    -f.diagonal
  }

  /** The selected formats in drawing order. */
  function DrawOrder(formats: seq<Format>, sel: set<string>): (r: seq<Format>)
    ensures multiset(r) == multiset(SelectedFormats(formats, sel))
    ensures forall i, j :: 0 <= i < j < |r| ==> FormatArea(r[i]) >= FormatArea(r[j])
  {
    var r := SortBy(SelectedFormats(formats, sel), AreaRank);
    assert forall i, j :: 0 <= i < j < |r| ==> AreaRank(r[i]) <= AreaRank(r[j]);
    r
  }

  /** The selected formats in table order. */
  function TableOrder(formats: seq<Format>, sel: set<string>): (r: seq<Format>)
    ensures multiset(r) == multiset(SelectedFormats(formats, sel))
    ensures forall i, j :: 0 <= i < j < |r| ==> r[i].diagonal >= r[j].diagonal
  {
    var r := SortBy(SelectedFormats(formats, sel), DiagonalRank);
    assert forall i, j :: 0 <= i < j < |r| ==> DiagonalRank(r[i]) <= DiagonalRank(r[j]);
    r
  }

  function ShapesOf(order: seq<Format>, fr: Frame, highlighted: Option<string>): (r: seq<Shape>)
    ensures |r| == |order|
    ensures forall i :: 0 <= i < |order| ==> r[i] == ShapeOf(order[i], i, fr, highlighted)
  {
    seq(|order|, i requires 0 <= i < |order| => ShapeOf(order[i], i, fr, highlighted))
  }

  /** The diagram for a selection and a highlight. */
  function DiagramOf(formats: seq<Format>, sel: set<string>, highlighted: Option<string>): (d: Diagram)
    ensures d.EmptyState? <==> forall i :: 0 <= i < |formats| ==> formats[i].id !in sel
  {
    if SelectedFormats(formats, sel) == [] then EmptyState
    else
      var order := DrawOrder(formats, sel);
      var fr := FrameFor(MaxWidth(order), MaxHeight(order));
      Drawn(fr, ShapesOf(order, fr, highlighted))
  }

  /** Redraws the diagram: collect the selection, show the empty state when
      there is none, otherwise sort it, fit the frame and draw each format. */
  method RenderDiagram(formats: seq<Format>, sel: set<string>, highlighted: Option<string>)
    returns (d: Diagram)
    ensures d == DiagramOf(formats, sel, highlighted)
  {
    var selected := CollectSelected(formats, sel);
    if |selected| == 0 {
      return EmptyState;
    }
    var order := SortBy(selected, AreaRank);
    var maxW, maxH := MaxExtents(order);
    var fr := FrameFor(maxW, maxH);
    var shapes := DrawShapes(order, fr, highlighted);
    d := Drawn(fr, shapes);
  }

  /** Draws each format of the drawing order in turn. */
  method DrawShapes(order: seq<Format>, fr: Frame, highlighted: Option<string>) returns (shapes: seq<Shape>)
    ensures shapes == ShapesOf(order, fr, highlighted)
  {
    shapes := [];
    for i := 0 to |order|
      invariant shapes == ShapesOf(order, fr, highlighted)[..i]
    {
      shapes := shapes + [ShapeOf(order[i], i, fr, highlighted)];
    }
  }

  /** Redraws both views from the store's state; they show the empty state
      and the hidden table together. */
  method Render(store: Store) returns (d: Diagram, t: Option<seq<Row>>)
    requires store.Valid()
    ensures d == DiagramOf(store.formats, store.selected, store.highlighted)
    ensures t == DetailsOf(store.formats, store.selected, store.highlighted)
    ensures d.EmptyState? <==> t.None?
    // the catalogue was merged landscape, so every drawn outline is too
    ensures d.Drawn? ==> forall k :: 0 <= k < |d.shapes| ==> d.shapes[k].outline.height <= d.shapes[k].outline.width
  {
    d := RenderDiagram(store.formats, store.selected, store.highlighted);
    t := RenderDetails(store.formats, store.selected, store.highlighted);
    DiagramLandscape(store.formats, store.selected, store.highlighted);
  }

  /** Placeholder shown in the medium column when a format has none. */
  const NO_MEDIUM := "\U{2014}"

  /** One row of the details table. */
  datatype Row = Row(
    id: string, emphasis: Emphasis, name: string, color: string,
    width: real, height: real, diagonal: real, medium: string, categoryLabel: string)

  /** The table row of format f. */
  function RowOf(f: Format, highlighted: Option<string>): (row: Row)
    ensures row.id == f.id && row.emphasis == EmphasisOf(f.id, highlighted)
    ensures row.width == f.width && row.height == f.height && row.diagonal == f.diagonal
    ensures row.name == f.name && row.color == f.color && row.categoryLabel == f.categoryLabel
    ensures row.medium != "" && (f.medium != "" ==> row.medium == f.medium)
    ensures f.medium == "" ==> row.medium == NO_MEDIUM
  {
    Row(f.id, EmphasisOf(f.id, highlighted), f.name, f.color, f.width, f.height, f.diagonal,
        if f.medium == "" then NO_MEDIUM else f.medium, f.categoryLabel)
  }

  function RowsOf(order: seq<Format>, highlighted: Option<string>): (r: seq<Row>)
    ensures |r| == |order|
    ensures forall i :: 0 <= i < |order| ==> r[i] == RowOf(order[i], highlighted)
  {
    seq(|order|, i requires 0 <= i < |order| => RowOf(order[i], highlighted))
  }

  /** The details table: None when the section is hidden, else its rows. */
  function DetailsOf(formats: seq<Format>, sel: set<string>, highlighted: Option<string>): (t: Option<seq<Row>>)
    ensures t.None? <==> forall i :: 0 <= i < |formats| ==> formats[i].id !in sel
  {
    if SelectedFormats(formats, sel) == [] then None
    else Some(RowsOf(TableOrder(formats, sel), highlighted))
  }

  /** Rebuilds the details table: hide it when nothing is selected,
      otherwise sort the selection by diagonal and emit one row each. */
  method RenderDetails(formats: seq<Format>, sel: set<string>, highlighted: Option<string>)
    returns (t: Option<seq<Row>>)
    ensures t == DetailsOf(formats, sel, highlighted)
  {
    var selected := CollectSelected(formats, sel);
    if |selected| == 0 {
      return None;
    }
    var order := SortBy(selected, DiagonalRank);
    var rows: seq<Row> := [];
    for i := 0 to |order|
      invariant |rows| == i
      invariant forall k :: 0 <= k < i ==> rows[k] == RowOf(order[k], highlighted)
    {
      rows := rows + [RowOf(order[i], highlighted)];
    }
    assert rows == RowsOf(order, highlighted);
    t := Some(rows);
  }

  /** Width over height, as the table and the tooltip show it. */
  function AspectRatio(w: real, h: real): (r: real)
    requires h > 0.0
    ensures r * h == w
    ensures 1.0 <= r <==> h <= w
  {
    w / h
  }

  /** Every merged format with a positive size has an aspect ratio of at least 1. */
  lemma MergedAspectAtLeastOne(raw: RawFormat, meta: map<string, CategoryMeta>)
    requires raw.width > 0.0 && raw.height > 0.0
    ensures Merge(raw, meta).height > 0.0
    ensures AspectRatio(Merge(raw, meta).width, Merge(raw, meta).height) >= 1.0
  {
  }

  // ----- Properties of the two views -----

  function ShapeIds(shapes: seq<Shape>): set<string> {
    set k | 0 <= k < |shapes| :: shapes[k].id
  }

  function RowIds(rows: seq<Row>): set<string> {
    set k | 0 <= k < |rows| :: rows[k].id
  }

  /** The selected formats are those of the catalogue whose id is selected. */
  lemma SelectedIds(formats: seq<Format>, sel: set<string>)
    ensures Ids(SelectedFormats(formats, sel)) == sel * Ids(formats)
  {
    var r := SelectedFormats(formats, sel);
    forall x | x in Ids(r) ensures x in sel * Ids(formats) {
      var k :| 0 <= k < |r| && r[k].id == x;
      assert r[k] in formats;
      var j :| 0 <= j < |formats| && formats[j] == r[k];
    }
    forall x | x in sel * Ids(formats) ensures x in Ids(r) {
      var j :| 0 <= j < |formats| && formats[j].id == x;
      assert formats[j] in r;
      var k :| 0 <= k < |r| && r[k] == formats[j];
    }
  }

  /** Two lists with the same elements have the same ids. */
  lemma PermutationIds(s: seq<Format>, t: seq<Format>)
    requires multiset(s) == multiset(t)
    ensures Ids(s) == Ids(t)
  {
    forall x | x in Ids(s) ensures x in Ids(t) {
      var k :| 0 <= k < |s| && s[k].id == x;
      assert s[k] in multiset(t);
      var j :| 0 <= j < |t| && t[j] == s[k];
    }
    forall x | x in Ids(t) ensures x in Ids(s) {
      var k :| 0 <= k < |t| && t[k].id == x;
      assert t[k] in multiset(s);
      var j :| 0 <= j < |s| && s[j] == t[k];
    }
  }

  /** The shapes of a draw order carry the ids of its formats. */
  lemma ShapesIds(order: seq<Format>, fr: Frame, highlighted: Option<string>)
    ensures ShapeIds(ShapesOf(order, fr, highlighted)) == Ids(order)
  {
    var shapes := ShapesOf(order, fr, highlighted);
    forall x | x in Ids(order) ensures x in ShapeIds(shapes) {
      var k :| 0 <= k < |order| && order[k].id == x;
      assert shapes[k].id == x;
    }
    forall x | x in ShapeIds(shapes) ensures x in Ids(order) {
      var k :| 0 <= k < |shapes| && shapes[k].id == x;
      assert order[k].id == x;
    }
  }

  /** The draw order holds the selected formats of the catalogue. */
  lemma DrawOrderIds(formats: seq<Format>, sel: set<string>)
    ensures |DrawOrder(formats, sel)| == |SelectedFormats(formats, sel)|
    ensures Ids(DrawOrder(formats, sel)) == sel * Ids(formats)
  {
    var order := DrawOrder(formats, sel);
    assert |order| == |multiset(order)| == |SelectedFormats(formats, sel)|;
    PermutationIds(order, SelectedFormats(formats, sel));
    SelectedIds(formats, sel);
  }

  /** The diagram draws one shape per selected format of the catalogue. */
  lemma {:induction false} DiagramShowsSelection(formats: seq<Format>, sel: set<string>, highlighted: Option<string>)
    ensures var d := DiagramOf(formats, sel, highlighted);
            d.Drawn? ==>
              && |d.shapes| == |SelectedFormats(formats, sel)|
              && ShapeIds(d.shapes) == sel * Ids(formats)
  {
    var d := DiagramOf(formats, sel, highlighted);
    if d.Drawn? {
      DrawOrderIds(formats, sel);
      ShapesIds(DrawOrder(formats, sel), d.frame, highlighted);
    }
  }

  /** Shapes drawn from a list sorted by decreasing area keep that order. */
  lemma ShapesBackToFront(order: seq<Format>, fr: Frame, highlighted: Option<string>)
    requires forall i, j :: 0 <= i < j < |order| ==> FormatArea(order[i]) >= FormatArea(order[j])
    ensures var shapes := ShapesOf(order, fr, highlighted);
            forall i, j :: 0 <= i < j < |shapes| ==> RectArea(shapes[i].outline) >= RectArea(shapes[j].outline)
  {
    var shapes := ShapesOf(order, fr, highlighted);
    forall k | 0 <= k < |shapes| ensures RectArea(shapes[k].outline) == FormatArea(order[k]) {
      assert shapes[k].outline == RectOf(order[k].width, order[k].height);
    }
  }

  /** The diagram draws the largest area at the back. */
  lemma {:induction false} DiagramBackToFront(formats: seq<Format>, sel: set<string>, highlighted: Option<string>)
    ensures var d := DiagramOf(formats, sel, highlighted);
            d.Drawn? ==>
              forall i, j :: 0 <= i < j < |d.shapes| ==> RectArea(d.shapes[i].outline) >= RectArea(d.shapes[j].outline)
  {
    var d := DiagramOf(formats, sel, highlighted);
    if d.Drawn? {
      ShapesBackToFront(DrawOrder(formats, sel), d.frame, highlighted);
    }
  }

  /** The frame fitted to a list contains the outline of each of its shapes. */
  lemma ShapesFit(order: seq<Format>, highlighted: Option<string>)
    ensures var fr := FrameFor(MaxWidth(order), MaxHeight(order));
            var shapes := ShapesOf(order, fr, highlighted);
            forall k :: 0 <= k < |shapes| ==> Contains(fr.viewBox, shapes[k].outline)
  {
    var fr := FrameFor(MaxWidth(order), MaxHeight(order));
    var shapes := ShapesOf(order, fr, highlighted);
    forall k | 0 <= k < |shapes| ensures Contains(fr.viewBox, shapes[k].outline) {
      FrameContainsAll(order, k);
    }
  }

  /** The shapes of landscape formats have landscape outlines. */
  lemma ShapesLandscape(order: seq<Format>, fr: Frame, highlighted: Option<string>)
    requires AllLandscape(order)
    ensures var shapes := ShapesOf(order, fr, highlighted);
            forall k :: 0 <= k < |shapes| ==> shapes[k].outline.height <= shapes[k].outline.width
  {
  }

  /** Every format of the drawing order comes from the catalogue, so a
      landscape catalogue gives a landscape drawing order. */
  lemma DrawOrderLandscape(formats: seq<Format>, sel: set<string>)
    requires AllLandscape(formats)
    ensures AllLandscape(DrawOrder(formats, sel))
  {
    var order := DrawOrder(formats, sel);
    forall k | 0 <= k < |order| ensures order[k].height <= order[k].width {
      var f := order[k];
      assert f in multiset(order);
      assert f in SelectedFormats(formats, sel);
      var i :| 0 <= i < |formats| && formats[i] == f;
    }
  }

  /** Drawn from a landscape catalogue, every outline is landscape. */
  lemma {:induction false} DiagramLandscape(formats: seq<Format>, sel: set<string>, highlighted: Option<string>)
    requires AllLandscape(formats)
    ensures var d := DiagramOf(formats, sel, highlighted);
            d.Drawn? ==> forall k :: 0 <= k < |d.shapes| ==> d.shapes[k].outline.height <= d.shapes[k].outline.width
  {
    var d := DiagramOf(formats, sel, highlighted);
    if d.Drawn? {
      DrawOrderLandscape(formats, sel);
      ShapesLandscape(DrawOrder(formats, sel), d.frame, highlighted);
    }
  }

  /** The view box of the diagram contains every outline. */
  lemma {:induction false} DiagramFits(formats: seq<Format>, sel: set<string>, highlighted: Option<string>)
    ensures var d := DiagramOf(formats, sel, highlighted);
            d.Drawn? ==> forall k :: 0 <= k < |d.shapes| ==> Contains(d.frame.viewBox, d.shapes[k].outline)
  {
    var d := DiagramOf(formats, sel, highlighted);
    if d.Drawn? {
      ShapesFit(DrawOrder(formats, sel), highlighted);
    }
  }

  /** The table lists each selected format of the catalogue once, the
      largest diagonal first. */
  lemma {:induction false} TableShowsSelection(formats: seq<Format>, sel: set<string>, highlighted: Option<string>)
    ensures var t := DetailsOf(formats, sel, highlighted);
            t.Some? ==>
              && |t.value| == |SelectedFormats(formats, sel)|
              && RowIds(t.value) == sel * Ids(formats)
              && (forall i, j :: 0 <= i < j < |t.value| ==> t.value[i].diagonal >= t.value[j].diagonal)
  {
    var t := DetailsOf(formats, sel, highlighted);
    if t.Some? {
      var order := TableOrder(formats, sel);
      assert |order| == |multiset(order)| == |SelectedFormats(formats, sel)|;
      PermutationIds(order, SelectedFormats(formats, sel));
      SelectedIds(formats, sel);
      assert RowIds(t.value) == Ids(order) by {
        forall x ensures x in RowIds(t.value) <==> x in Ids(order) {
          if x in Ids(order) {
            var k :| 0 <= k < |order| && order[k].id == x;
            assert t.value[k].id == x;
          }
        }
      }
    }
  }

  /** The diagram and the table agree: both show the empty state together,
      and otherwise show the same formats. */
  lemma ViewsAgree(formats: seq<Format>, sel: set<string>, highlighted: Option<string>)
    ensures DiagramOf(formats, sel, highlighted).EmptyState? <==> DetailsOf(formats, sel, highlighted).None?
    ensures DiagramOf(formats, sel, highlighted).Drawn? ==>
              ShapeIds(DiagramOf(formats, sel, highlighted).shapes) == RowIds(DetailsOf(formats, sel, highlighted).value)
  {
    DiagramShowsSelection(formats, sel, highlighted);
    TableShowsSelection(formats, sel, highlighted);
  }

  /** Sorting by a key keeps a catalogue's ids unique. */
  lemma {:induction false} UniqueIdsPermutation(s: seq<Format>, t: seq<Format>)
    requires UniqueIds(s) && multiset(s) == multiset(t)
    ensures UniqueIds(t)
  {
    assert Distinct(s) by {
      forall i, j | 0 <= i < j < |s| ensures s[i] != s[j] {
        assert s[i].id != s[j].id;
      }
    }
    DistinctPermutation(s, t);
    forall i, j | 0 <= i < j < |t| ensures t[i].id != t[j].id {
      assert t[i] in multiset(s) && t[j] in multiset(s);
      var p :| 0 <= p < |s| && s[p] == t[i];
      var q :| 0 <= q < |s| && s[q] == t[j];
      assert p != q;
    }
  }

  /** Picking the selected formats out of a catalogue keeps its ids unique. */
  lemma {:induction false} SelectedUnique(formats: seq<Format>, sel: set<string>)
    requires UniqueIds(formats)
    ensures UniqueIds(SelectedFormats(formats, sel))
  {
    if formats != [] {
      var init := formats[..|formats| - 1];
      var last := formats[|formats| - 1];
      assert UniqueIds(init) by {
        forall i, j | 0 <= i < j < |init| ensures init[i].id != init[j].id {
          assert init[i] == formats[i] && init[j] == formats[j];
        }
      }
      SelectedUnique(init, sel);
      var prev := SelectedFormats(init, sel);
      forall k | 0 <= k < |prev| ensures prev[k].id != last.id {
        assert prev[k] in init;
        var j :| 0 <= j < |init| && init[j] == prev[k];
        assert formats[j] == prev[k];
      }
      var r := SelectedFormats(formats, sel);
      assert r == prev + (if last.id in sel then [last] else []);
      forall i, j | 0 <= i < j < |r| ensures r[i].id != r[j].id {
        if j < |prev| {
          assert r[i] == prev[i] && r[j] == prev[j];
        } else {
          assert r[i] == prev[i] && r[j] == last;
        }
      }
    }
  }

  /** With unique ids, at most one shape of a list is highlighted, and
      the highlighted id's shape is when the list has it. */
  lemma ShapesHighlight(order: seq<Format>, fr: Frame, highlighted: Option<string>)
    requires UniqueIds(order)
    ensures var shapes := ShapesOf(order, fr, highlighted);
            && (forall i, j :: 0 <= i < j < |shapes| ==>
                  !(shapes[i].emphasis == Highlighted && shapes[j].emphasis == Highlighted))
            && (highlighted.Some? && highlighted.value in Ids(order) ==>
                  exists k :: 0 <= k < |shapes| && shapes[k].emphasis == Highlighted)
  {
    var shapes := ShapesOf(order, fr, highlighted);
    forall i, j | 0 <= i < j < |shapes|
      ensures !(shapes[i].emphasis == Highlighted && shapes[j].emphasis == Highlighted)
    {
      assert shapes[i].id == order[i].id && shapes[j].id == order[j].id;
    }
    if highlighted.Some? && highlighted.value in Ids(order) {
      var k :| 0 <= k < |order| && order[k].id == highlighted.value;
      assert shapes[k].emphasis == Highlighted;
    }
  }

  /** The same for the rows of a table. */
  lemma RowsHighlight(order: seq<Format>, highlighted: Option<string>)
    requires UniqueIds(order)
    ensures var rows := RowsOf(order, highlighted);
            && (forall i, j :: 0 <= i < j < |rows| ==>
                  !(rows[i].emphasis == Highlighted && rows[j].emphasis == Highlighted))
            && (highlighted.Some? && highlighted.value in Ids(order) ==>
                  exists k :: 0 <= k < |rows| && rows[k].emphasis == Highlighted)
  {
    var rows := RowsOf(order, highlighted);
    forall i, j | 0 <= i < j < |rows|
      ensures !(rows[i].emphasis == Highlighted && rows[j].emphasis == Highlighted)
    {
      assert rows[i].id == order[i].id && rows[j].id == order[j].id;
    }
    if highlighted.Some? && highlighted.value in Ids(order) {
      var k :| 0 <= k < |order| && order[k].id == highlighted.value;
      assert rows[k].emphasis == Highlighted;
    }
  }

  /** The table order holds the selected formats of the catalogue. */
  lemma TableOrderIds(formats: seq<Format>, sel: set<string>)
    ensures Ids(TableOrder(formats, sel)) == sel * Ids(formats)
  {
    PermutationIds(TableOrder(formats, sel), SelectedFormats(formats, sel));
    SelectedIds(formats, sel);
  }

  /** With unique catalogue ids, at most one shape is highlighted, and the
      highlighted format is highlighted when it is drawn. */
  lemma {:induction false} DiagramHighlight(formats: seq<Format>, sel: set<string>, highlighted: Option<string>)
    requires UniqueIds(formats)
    ensures var d := DiagramOf(formats, sel, highlighted);
            d.Drawn? ==>
              && (forall i, j :: 0 <= i < j < |d.shapes| ==>
                    !(d.shapes[i].emphasis == Highlighted && d.shapes[j].emphasis == Highlighted))
              && (highlighted.Some? && highlighted.value in sel && highlighted.value in Ids(formats) ==>
                    exists k :: 0 <= k < |d.shapes| && d.shapes[k].emphasis == Highlighted)
  {
    var d := DiagramOf(formats, sel, highlighted);
    if d.Drawn? {
      var order := DrawOrder(formats, sel);
      SelectedUnique(formats, sel);
      UniqueIdsPermutation(SelectedFormats(formats, sel), order);
      DrawOrderIds(formats, sel);
      ShapesHighlight(order, d.frame, highlighted);
    }
  }

  /** With unique catalogue ids, at most one row is highlighted, and the
      highlighted format is highlighted when it is listed. */
  lemma {:induction false} TableHighlight(formats: seq<Format>, sel: set<string>, highlighted: Option<string>)
    requires UniqueIds(formats)
    ensures var t := DetailsOf(formats, sel, highlighted);
            t.Some? ==>
              && (forall i, j :: 0 <= i < j < |t.value| ==>
                    !(t.value[i].emphasis == Highlighted && t.value[j].emphasis == Highlighted))
              && (highlighted.Some? && highlighted.value in sel && highlighted.value in Ids(formats) ==>
                    exists k :: 0 <= k < |t.value| && t.value[k].emphasis == Highlighted)
  {
    var t := DetailsOf(formats, sel, highlighted);
    if t.Some? {
      var order := TableOrder(formats, sel);
      SelectedUnique(formats, sel);
      UniqueIdsPermutation(SelectedFormats(formats, sel), order);
      TableOrderIds(formats, sel);
      RowsHighlight(order, highlighted);
    }
  }

  // ----- A concrete selection -----

  /** The two sample records after merging. */
  function SampleCatalog(): seq<Format> {
    [Merge(FullFrameRaw(), SampleMeta()), Merge(SixBySevenRaw(), SampleMeta())]
  }

  lemma SampleSelection()
    ensures SelectedFormats(SampleCatalog(), {"ff-35mm", "6x7"}) == SampleCatalog()
  {
    FullFrameMerged();
    SixBySevenMerged();
    var formats := SampleCatalog();
    assert formats[..1] == [formats[0]];
    assert formats[..1][..0] == [];
  }

  lemma SampleOrders()
    ensures DrawOrder(SampleCatalog(), {"ff-35mm", "6x7"}) == [SampleCatalog()[1], SampleCatalog()[0]]
    ensures TableOrder(SampleCatalog(), {"ff-35mm", "6x7"}) == [SampleCatalog()[1], SampleCatalog()[0]]
  {
    FullFrameMerged();
    SixBySevenMerged();
    SampleSelection();
    var ff, sx := SampleCatalog()[0], SampleCatalog()[1];
    assert [ff, sx][1..] == [sx];
    assert [sx][1..] == [];
    assert SortBy([sx], AreaRank) == [sx];
    assert SortBy([sx], DiagonalRank) == [sx];
    assert AreaRank(ff) > AreaRank(sx);
    assert DiagonalRank(ff) > DiagonalRank(sx);
  }

  /** Selecting full frame 35mm and 6x7: the larger 6x7 is drawn first (at
      the back) and listed first; the frame fits 70 x 56 with a 12.6 margin. */
  lemma FullFrameAndSixBySeven()
    ensures var d := DiagramOf(SampleCatalog(), {"ff-35mm", "6x7"}, None);
            && d.Drawn? && |d.shapes| == 2 && d.shapes[0].id == "6x7" && d.shapes[1].id == "ff-35mm"
            && d.frame.viewBox == Rect(-47.6, -40.6, 95.2, 81.2)
    ensures var t := DetailsOf(SampleCatalog(), {"ff-35mm", "6x7"}, None);
            && t.Some? && |t.value| == 2 && t.value[0].id == "6x7" && t.value[1].id == "ff-35mm"
  {
    FullFrameMerged();
    SixBySevenMerged();
    SampleSelection();
    SampleOrders();
    var ff, sx := SampleCatalog()[0], SampleCatalog()[1];
    assert [sx, ff][..1] == [sx];
    assert [sx, ff][..1][..0] == [];
    assert MaxWidth([sx, ff]) == 70.0 && MaxHeight([sx, ff]) == 56.0;
  }
}
