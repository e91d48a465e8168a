# Film and sensor format comparison: a Dafny model of the page logic

The page draws selected film and sensor formats as centred rectangles, one
inside the other, with the largest area at the back. It lists the same
formats in a details table, largest diagonal first. Users pick formats with
checkboxes grouped by category. Each category has a tri-state checkbox, and
there are "select all" and "deselect all" buttons. Clicking a shape flips
its selection. Hovering a row or shape highlights that format everywhere and
dims the rest.

This project models the logic under the DOM calls of `js/app.js`:

- `catalog.dfy` (module `Catalog`) covers start-up. Each raw record is copied and
  turned landscape, so the long edge becomes the width. The record then takes
  its colour, dash pattern, category label and category order from the category
  table. When the table has no entry, fixed fallbacks are used instead. The
  merged list and the id lookup table are built by a loop.
- `ordering.dfy` (module `Ordering`) models the stable platform sort as an
  insertion sort by a real rank. A descending comparator `(a, b) => key(b) - key(a)`
  becomes rank `-key`.
- `selection.dfy` (module `Selection`) holds the page state. It is a class
  `Store` with the catalogue, the set of selected ids and the optional
  highlighted id. Its methods are the page's mutations. Pure transition
  functions specify them.
- `controls.dfy` (module `Controls`) covers the control panel:
  - the counting loop behind each category's checked/indeterminate state;
  - the category header click;
  - grouping formats by category, with groups sorted by category order.
- `geometry.dfy` (module `Geometry`) covers the frame of the diagram:
  - the largest width and height of the selection;
  - the padded view box centred on the origin;
  - stroke and font sizes proportional to the largest extent;
  - centred outlines and the staggered label rule.
- `views.dfy` (module `Views`) covers the two views:
  - the plain, highlighted or dimmed styling;
  - the diagram (empty state, or frame plus shapes in drawing order);
  - the details table (hidden, or rows in diagonal order);
  - the aspect ratio;
  - lemmas that tie the two views to the selection and to each other.

Millimetre dimensions are exact `real`s. The selection dictionary
(`id -> true`) is a `set<string>`. The highlight (`id` or `null`) is an
`Option<string>`.

## Model

| member | source | states |
|---|---|---|
| Catalog.Merge | js/app.js:51-73 | The merged record keeps id, name, diagonal, category and medium. Its width is at least its height. Its two edges are the raw two edges. A record that is already landscape or square is not swapped. Styling, label and order come from the category table when the category and its per-id styling exist. Otherwise they are "#999", "none", the raw category key and 99. |
| Catalog.MergeRecord | js/app.js:51-73 | Copying one record, swapping width and height through a temporary, then styling it, yields exactly `Merge` of that record. |
| Catalog.MergeFormatMetadata | js/app.js:47-78 | The merged list has one record per raw record, in order, each equal to `Merge` of it, all landscape. The lookup table's keys are exactly the merged ids. Each id maps to the record of its last occurrence. Distinct raw ids give distinct merged ids. |
| Catalog.MergeKeepsIds | js/app.js:51-56 | Merging record by record keeps every id in place, so a raw table without repeated ids gives a catalogue without repeated ids. |
| Catalog.FullFrameMerged | js/formats.js:10 | The full-frame record (36 x 24) stays as it is and takes colour "#1A9E8F", solid line, label "35mm Still" and order 2. |
| Catalog.SixBySevenMerged | js/formats.js:18 | The portrait 6x7 record (56 x 70) becomes 70 x 56 with colour "#48B880", dash "10 4", label "Medium Format Still" and order 6. |
| Catalog.UnknownCategoryFallsBack | js/app.js:68-72 | A portrait record whose category has no entry is swapped and falls back to grey, solid, its raw category key as label and order 99. |
| Ordering.Insert | js/app.js:273-275 | Insertion adds exactly the one element to the list's multiset. |
| Ordering.InsertAbove | js/app.js:273-275 | Inserting an element of rank at least a bound into a list whose ranks are all at least that bound keeps every rank at least the bound. |
| Ordering.InsertSorted | js/app.js:273-275 | Inserting into a list sorted by rank keeps it sorted. |
| Ordering.SortBy | js/app.js:94 | The sorted list is a permutation of the input and is in non-decreasing rank order. |
| Ordering.SortByKeepsElements | js/app.js:431 | Sorting keeps the length and exactly the elements of the list. |
| Ordering.DistinctMultiplicity | js/app.js:94 | Helper for the sorted-header proof of `Controls.SortedHeaders`: a list has no repeated element iff every multiplicity is at most one. |
| Ordering.DistinctPermutation | js/app.js:94 | A permutation of a list without repetitions has none. |
| Selection.Toggled | js/app.js:187-192 | After setting a checkbox, id is selected iff checked, and every other id keeps its membership. |
| Selection.ToggleIdempotent | js/app.js:187-192 | Setting a checkbox twice to the same state equals setting it once. Setting it to the state it already has changes nothing. |
| Selection.Flipped | js/app.js:401-410 | A shape click flips exactly the clicked id's membership. |
| Selection.ClickTwiceRestores | js/app.js:401-410 | Two clicks on the same shape restore the selection. |
| Selection.CategorySet | js/app.js:211-221 | Every format of the category gets membership `checked`. An id outside the category's ids keeps its membership. |
| Selection.CategorySetLocal | js/app.js:211-221 | With unique ids, a format of another category keeps its membership. |
| Selection.CategorySetIdempotent | js/app.js:211-221 | Repeating the same category call changes nothing. |
| Selection.SelectedFormats | js/app.js:585-591 | The selected list holds exactly the catalogue formats whose id is selected. It is empty iff no catalogue id is selected, and it is no longer than the catalogue. |
| Selection.SelectedFormatsSnoc | js/app.js:585-591 | Appending one format to the catalogue appends it to the selected list iff its id is selected, and leaves the earlier part unchanged. |
| Selection.SelectedFormatsAppend | js/app.js:585-591 | Selecting from a concatenation is selecting from each part, concatenated. With `SelectedFormatsSingle` this fixes the selected list as the catalogue with the unselected formats removed, in catalogue order and with each record as often as the catalogue has it. |
| Selection.SelectedFormatsSingle | js/app.js:587-589 | A single format is kept iff its id is selected. |
| Selection.CollectSelected | js/app.js:585-591 | The collecting loop returns exactly `SelectedFormats`, in catalogue order. |
| Selection.Store.constructor | js/app.js:33-41 | Start-up merges the catalogue, selects exactly the default ids that the catalogue has, and highlights nothing. The store is valid: all landscape, lookup keys equal the catalogue ids. Distinct raw ids give a catalogue with unique ids. |
| Selection.Store.SelectDefaults | js/app.js:37-41 | Each default id is added iff the lookup table has it. |
| Selection.Store.ToggleFormat | js/app.js:187-195 | The new selection is `Toggled` of the old one. |
| Selection.Store.ClickShape | js/app.js:401-410 | The new selection is `Flipped` of the old one. |
| Selection.Store.SelectAll | js/app.js:197-203 | The new selection is the old one plus every catalogue id. |
| Selection.Store.DeselectAll | js/app.js:205-209 | The selection becomes empty. |
| Selection.Store.SelectCategory | js/app.js:211-223 | The new selection is `CategorySet` of the old one. |
| Selection.Store.Hover | js/app.js:517-520 | The hovered id becomes the highlight. |
| Selection.Store.Unhover | js/app.js:522-525 | The highlight is cleared. |
| Controls.CountFacts | js/app.js:237-243 | The selected count never exceeds the member count. The member count is positive iff the category has a member. The selected count is positive iff some member is selected. The two counts are equal iff every member is selected. |
| Controls.CategoryCheckState | js/app.js:235-246 | The box is checked iff the category has a member and all members are selected. It is indeterminate iff some but not all members are selected. It is never both. |
| Controls.SelectCategoryChecksBox | js/app.js:211-223 | After selecting a category all its members are selected. After deselecting it none is. |
| Controls.SelectAllChecksEveryBox | js/app.js:197-209 | After "select all" every member of every category is selected. After "deselect all" no member is. |
| Controls.ClickCategoryHeader | js/app.js:115-121 | A header click empties a checked category and fills an unchecked or indeterminate one. The new selection is `CategorySet` with the flipped box state. |
| Controls.Members | js/app.js:86-92 | A category's group holds exactly the formats of that category. It is empty when the category has none. |
| Controls.MembersSnoc | js/app.js:86-92 | Appending one format to the catalogue appends it to a category's group iff it has that category, and leaves the earlier part unchanged. |
| Controls.MembersAppend | js/app.js:86-92 | Grouping a concatenation is grouping each part, concatenated. With `MembersSingle` this fixes each group as the catalogue with the other categories' formats removed, in catalogue order and with each record as often as the catalogue has it. |
| Controls.MembersSingle | js/app.js:88-92 | A single format is in a category's group iff it has that category. |
| Controls.GroupByCategory | js/app.js:83-94 | The group keys are exactly the categories present, and each group is its category's formats in catalogue order. The headers are sorted by order and have distinct keys, one per group key. Each header is taken from its category's first format. |
| Controls.SortedHeaders | js/app.js:94 | Sorting the first-seen headers by order keeps every entry a header taken from its category's first format. It keeps the keys distinct and the same key set. |
| Controls.HeadersDistinctKeys | js/app.js:86-90 | Headers taken from first occurrences, without repeated entries, have distinct keys. |
| Controls.EveryFormatInOneGroup | js/app.js:86-92 | Every format is in its own category's group and in no other. |
| Geometry.MaxWidth | js/app.js:278-282 | The result is non-negative and bounds every width. It is either 0 or one of the widths. |
| Geometry.MaxHeight | js/app.js:278-282 | The result is non-negative and bounds every height. It is either 0 or one of the heights. |
| Geometry.MaxExtents | js/app.js:278-282 | The scanning loop, started at 0, returns `MaxWidth` and `MaxHeight` of the selection. |
| Geometry.FrameFor | js/app.js:283-300 | The view box is centred on the origin and is the extents plus a margin of pad on each side. The pad, the stroke, the font size and the crosshair half-length are 0.18, 0.003, 0.022 and 0.015 times the larger extent, so the pad is non-negative for non-negative extents. The highlight stroke is 2.5 times the stroke, the crosshair stroke 0.5 times it. The small font is 0.75 times the font. |
| Geometry.RectOf | js/app.js:339-345 | An outline has the format's size and is centred on the origin. |
| Geometry.FrameContainsAll | js/app.js:278-287 | The view box fitted to a list contains the centred outline of each of its formats. |
| Geometry.LabelY | js/app.js:350-361 | The label is at the staggered position when that does not pass the bottom edge. Otherwise it is one font size below the top edge. The first label in drawing order always sits one font size below the top edge. |
| Geometry.LabelInsideShape | js/app.js:350-361 | When the font fits in the shape, every label lies between one font size below the top edge and the bottom edge. |
| Geometry.LabelStagger | js/app.js:352-356 | Consecutive labels that both fit are 1.4 font sizes apart. |
| Views.EmphasisOf | js/app.js:329-335 | Highlighted iff the id is the highlight. Dimmed iff a highlight is set to another id. Plain iff nothing is highlighted. |
| Views.DashAttribute | js/app.js:347 | The dash attribute is empty iff the pattern is "none" or empty. Any other pattern is passed through unchanged. |
| Views.ShapeOf | js/app.js:323-388 | A shape has its format's id, its emphasis and its centred outline. It is stroked in the format's colour with `DashAttribute` of its pattern. The name label sits two base strokes right of the outline, even when the shape itself has the heavy stroke. Only the highlighted shape has the heavy stroke and the bold name. The name label's height is `LabelY`, and the dimension label sits 1.3 small font sizes lower. |
| Views.DrawOrder | js/app.js:273-275 | The drawing order is a permutation of the selected formats with non-increasing area. |
| Views.TableOrder | js/app.js:431 | The table order is a permutation of the selected formats with non-increasing diagonal. |
| Views.DiagramOf | js/app.js:266-270 | The diagram is the empty state iff no catalogue id is selected. |
| Views.DrawShapes | js/app.js:313-317 | Drawing each format of the drawing order in turn yields one shape per format, the k-th being `ShapeOf` the k-th format at index k. |
| Views.RenderDiagram | js/app.js:256-321 | Collecting, sorting, fitting the frame and drawing each format in a loop yields `DiagramOf`. |
| Views.Render | js/app.js:250-253 | Rendering a valid store yields `DiagramOf` and `DetailsOf` of its state. The empty state and the hidden table come together. Every drawn outline is landscape, because the catalogue was merged landscape. |
| Views.RowOf | js/app.js:433-461 | A row carries its format's id, emphasis, name, swatch colour, dimensions and category label. Its medium cell is never empty: it shows the medium when there is one and "—" otherwise. |
| Views.DetailsOf | js/app.js:424-427 | The table is hidden iff no catalogue id is selected. |
| Views.RenderDetails | js/app.js:416-471 | Collecting, sorting by diagonal and emitting one row per format in a loop yields `DetailsOf`. |
| Views.AspectRatio | js/app.js:479-481 | The ratio times the height is the width. It is at least 1 iff the format is landscape. |
| Views.MergedAspectAtLeastOne | js/app.js:54-60 | Every merged format with positive sides has an aspect ratio of at least 1. |
| Views.SelectedIds | js/app.js:585-591 | The ids of the selected list are the selected ids that the catalogue has. |
| Views.DiagramShowsSelection | js/app.js:258-275 | A drawn diagram has one shape per selected format. Its shape ids are exactly the selected catalogue ids. |
| Views.DiagramBackToFront | js/app.js:273-275 | Shapes are drawn in non-increasing outline area, so the largest is at the back. |
| Views.DrawOrderLandscape | js/app.js:273-275 | Every format of the drawing order comes from the catalogue, so a landscape catalogue gives a landscape drawing order. |
| Views.DiagramLandscape | js/app.js:54-60 | Drawn from a catalogue whose records are all landscape, every outline of the diagram is landscape. |
| Views.DiagramFits | js/app.js:278-287 | The view box contains every drawn outline. |
| Views.TableShowsSelection | js/app.js:416-431 | A visible table has one row per selected format. Its row ids are exactly the selected catalogue ids, in non-increasing diagonal order. |
| Views.ViewsAgree | js/app.js:250-253 | The diagram shows the empty state iff the table is hidden. Otherwise both show the same ids. |
| Views.UniqueIdsPermutation | js/app.js:273-275 | Reordering a list with unique ids keeps the ids unique. |
| Views.SelectedUnique | js/app.js:585-591 | The selected list of a catalogue with unique ids has unique ids. |
| Views.DiagramHighlight | js/app.js:329-335 | With unique catalogue ids at most one shape is highlighted. When the highlighted format is drawn, its shape is highlighted. |
| Views.TableHighlight | js/app.js:439-445 | With unique catalogue ids at most one row is highlighted. When the highlighted format is listed, its row is highlighted. |
| Views.FullFrameAndSixBySeven | js/app.js:273-287 | Selecting full frame and 6x7 draws and lists 6x7 first. The view box is (-47.6, -40.6, 95.2, 81.2). |

## Left out

- DOM construction, event wiring, `innerHTML`, class lists and the boot hook are browser I/O. The model keeps their decisions: which ids, which emphasis, which numbers.
- The individual format checkboxes are refreshed in `updateControlCheckboxes` (js/app.js:228-231). Each box is checked iff its id is selected, which is membership in the selected set and needs no member of its own.
- The restyle pass in `applyHighlightState` (js/app.js:527-583) is not modelled as its own operation. Its class changes give every control row, shape and table row the same classification as `Views.EmphasisOf`. Its stroke recomputation uses a floor of 10 for the largest extent (js/app.js:557-564), so below 10 mm it differs from the stroke `renderSVG` computes. The model does not claim the two agree.
- Tooltip content and positioning (`showTooltip`, `moveTooltip`, `hideTooltip`) depend on the window and mouse coordinates.
- `toFixed` formatting of the table cells, the tooltip and the aspect ratio, and the dimension label text, are float-to-string rendering and are left out. Numbers are exact reals, so floating-point rounding is not modelled.
- Views.AspectRatio: defined only for a positive height. For a zero height the page would print "Infinity:1" or "NaN:1".
- `escapeHTML` and `createSVGElement` are DOM helpers.
- Ordering.SortBy: the sort is a stable insertion sort, but stability itself (equal keys keep catalogue order) is not stated.
- Image circles, circle colours and coverage checks are defined in `js/formats.js` (js/formats.js:84-110), but `js/app.js` never reads them, so there is nothing to model.
- `js/formats.js` is a static data table. Only the records for `ff-35mm` and `6x7` and their category entries are transcribed, as concrete inputs.
- JavaScript plain objects used as dictionaries also answer inherited keys such as "constructor". The model treats them as plain sets and maps, assuming ids and category keys are ordinary strings. This covers the selection, the lookup table, the category table `meta[f.category]` (js/app.js:62) and the grouping table `catMap[f.category]` (js/app.js:88). Under that assumption, a category key "constructor" would make the page find an inherited function where the model finds no entry. The page's `catMeta.formats[f.id]` would then throw a TypeError, while `Catalog.Merge` falls back to the default styling. In the grouping table the inherited function would count as an existing group, so `catMap[f.category].push(f)` would throw a TypeError as well, while `Controls.GroupByCategory` builds the group.
- When nothing is selected, the details section is hidden but its old rows are not cleared (js/app.js:424-427). `Views.DetailsOf` models the hidden table as `None` and keeps no stale rows.
