/** The format catalogue: raw format records merged with their category styling
    and normalised to landscape, as the page does once at start-up. */
module Catalog {

  /** One record of the raw format table. Dimensions are millimetres. */
  datatype RawFormat = RawFormat(
    id: string, name: string, width: real, height: real, diagonal: real,
    category: string, medium: string)

  /** Stroke colour and dash pattern of one format. */
  datatype Styling = Styling(color: string, dasharray: string)

  /** Metadata of one category: its display label, its display order and the
      styling of each format id that belongs to it. */
  datatype CategoryMeta = CategoryMeta(labelText: string, order: int, formats: map<string, Styling>)

  /** A merged format record: the raw fields with the long edge as width,
      plus the styling and category fields looked up in the category table. */
  datatype Format = Format(
    id: string, name: string, width: real, height: real, diagonal: real,
    category: string, medium: string,
    color: string, dasharray: string, categoryLabel: string, categoryOrder: int)

  const FALLBACK_COLOR := "#999"
  const FALLBACK_DASH := "none"
  const FALLBACK_ORDER := 99

  /** The category table has an entry for the record's category, and that
      entry has styling for the record's id. */
  predicate HasStyling(raw: RawFormat, meta: map<string, CategoryMeta>) {
    raw.category in meta && raw.id in meta[raw.category].formats
  }

  /** The fields that merging copies unchanged. */
  predicate SameIdentity(raw: RawFormat, f: Format) {
    f.id == raw.id && f.name == raw.name && f.diagonal == raw.diagonal
    && f.category == raw.category && f.medium == raw.medium
  }

  /** The merged record of one raw record. */
  function Merge(raw: RawFormat, meta: map<string, CategoryMeta>): (f: Format)
    ensures SameIdentity(raw, f)
    // landscape: the long edge is the width, and the two edges are the raw ones
    ensures f.height <= f.width
    ensures (f.width, f.height) == (raw.width, raw.height) || (f.width, f.height) == (raw.height, raw.width)
    // a record that is already landscape (or square) is not swapped
    ensures raw.height <= raw.width ==> f.width == raw.width && f.height == raw.height
    ensures HasStyling(raw, meta) ==>
      && f.color == meta[raw.category].formats[raw.id].color
      && f.dasharray == meta[raw.category].formats[raw.id].dasharray
      && f.categoryLabel == meta[raw.category].labelText
      && f.categoryOrder == meta[raw.category].order
    ensures !HasStyling(raw, meta) ==>
      && f.color == FALLBACK_COLOR && f.dasharray == FALLBACK_DASH
      && f.categoryLabel == raw.category && f.categoryOrder == FALLBACK_ORDER
  {
    var swap := raw.height > raw.width;
    var w := if swap then raw.height else raw.width;
    var h := if swap then raw.width else raw.height;
    if HasStyling(raw, meta) then
      var cat := meta[raw.category];
      var style := cat.formats[raw.id];
      Format(raw.id, raw.name, w, h, raw.diagonal, raw.category, raw.medium,
             style.color, style.dasharray, cat.labelText, cat.order)
    else
      Format(raw.id, raw.name, w, h, raw.diagonal, raw.category, raw.medium,
             FALLBACK_COLOR, FALLBACK_DASH, raw.category, FALLBACK_ORDER)
  }

  /** No later record of data has the same id as data[i]: the lookup
      table keeps the record of the last occurrence of an id. */
  ghost predicate LastWithId(data: seq<RawFormat>, i: int)
    requires 0 <= i < |data|
  {
    LastWithIdBefore(data, i, |data|)
  }

  /** No record of data[i+1..n] has the same id as data[i]. */
  ghost predicate LastWithIdBefore(data: seq<RawFormat>, i: int, n: int)
    requires 0 <= i < n <= |data|
  {
    forall j :: i < j < n ==> data[j].id != data[i].id
  }

  /** The set of ids of a list of formats. */
  function Ids(formats: seq<Format>): set<string> {
    set i | 0 <= i < |formats| :: formats[i].id
  }

  /** The ids of the formats whose category is catKey. */
  function CategoryIds(formats: seq<Format>, catKey: string): set<string> {
    set i | 0 <= i < |formats| && formats[i].category == catKey :: formats[i].id
  }

  /** No two formats of the catalogue share an id. */
  ghost predicate UniqueIds(formats: seq<Format>) {
    forall i, j :: 0 <= i < j < |formats| ==> formats[i].id != formats[j].id
  }

  /** No two raw records share an id. */
  ghost predicate DistinctRawIds(data: seq<RawFormat>) {
    forall i, j :: 0 <= i < j < |data| ==> data[i].id != data[j].id
  }

  /** formats is data merged record by record, in the same order. */
  ghost predicate MergedFrom(formats: seq<Format>, data: seq<RawFormat>, meta: map<string, CategoryMeta>) {
    |formats| == |data| && forall i :: 0 <= i < |data| ==> formats[i] == Merge(data[i], meta)
  }

  /** Every merged record is landscape. */
  ghost predicate AllLandscape(formats: seq<Format>) {
    forall i :: 0 <= i < |formats| ==> formats[i].height <= formats[i].width
  }

  /** Builds the merged list and the id lookup table: each raw record is
      copied, swapped to landscape through a temporary, styled, appended to
      the list and stored under its id (a later duplicate id overwrites). */
  method MergeFormatMetadata(data: seq<RawFormat>, meta: map<string, CategoryMeta>)
    returns (formats: seq<Format>, byId: map<string, Format>)
    ensures MergedFrom(formats, data, meta)
    ensures AllLandscape(formats)
    ensures byId.Keys == Ids(formats)
    ensures forall i :: 0 <= i < |data| && LastWithId(data, i) ==>
              data[i].id in byId && byId[data[i].id] == formats[i]
    ensures DistinctRawIds(data) ==> UniqueIds(formats)
  {
    formats := [];
    byId := map[];
    var i := 0;
    while i < |data|
      invariant 0 <= i <= |data|
      invariant |formats| == i
      invariant forall j :: 0 <= j < i ==> formats[j] == Merge(data[j], meta)
      invariant byId.Keys == Ids(formats)
      invariant forall j :: 0 <= j < i && LastWithIdBefore(data, j, i) ==>
                  data[j].id in byId && byId[data[j].id] == formats[j]
    {
      var f := MergeRecord(data[i], meta);
      IdsAppend(formats, f);
      var next := formats + [f];
      forall j | 0 <= j <= i ensures next[j] == Merge(data[j], meta) {
        if j < i { assert next[j] == formats[j]; }
      }
      var nextById := byId[f.id := f];
      LookupStep(data, i, formats, byId, f);
      formats := next;
      byId := nextById;
      i := i + 1;
    }
    MergeKeepsIds(data, meta, formats);
  }

  /** Merging keeps every id in place, so distinct raw ids stay distinct. */
  lemma MergeKeepsIds(data: seq<RawFormat>, meta: map<string, CategoryMeta>, formats: seq<Format>)
    requires MergedFrom(formats, data, meta)
    ensures DistinctRawIds(data) ==> UniqueIds(formats)
  {
    assert forall j :: 0 <= j < |data| ==> formats[j].id == data[j].id;
  }

  /** One step of the merge loop: copy the raw record, swap width and height
      through a temporary when the record is portrait, then attach styling. */
  method MergeRecord(raw: RawFormat, meta: map<string, CategoryMeta>) returns (f: Format)
    ensures f == Merge(raw, meta)
  {
    var width, height := raw.width, raw.height;
    // normalise to landscape: the long edge is always the width
    if height > width {
      var tmp := width;
      width := height;
      height := tmp;
    }
    if raw.category in meta && raw.id in meta[raw.category].formats {
      var cat := meta[raw.category];
      f := Format(raw.id, raw.name, width, height, raw.diagonal, raw.category, raw.medium,
                  cat.formats[raw.id].color, cat.formats[raw.id].dasharray, cat.labelText, cat.order);
    } else {
      f := Format(raw.id, raw.name, width, height, raw.diagonal, raw.category, raw.medium,
                  FALLBACK_COLOR, FALLBACK_DASH, raw.category, FALLBACK_ORDER);
    }
  }

  /** Storing data[i]'s record keeps the lookup table right for every
      record that no later record of data[..i+1] overrides. */
  lemma LookupStep(data: seq<RawFormat>, i: int, formats: seq<Format>, byId: map<string, Format>, f: Format)
    requires 0 <= i < |data| && |formats| == i && f.id == data[i].id
    requires forall j :: 0 <= j < i && LastWithIdBefore(data, j, i) ==>
               data[j].id in byId && byId[data[j].id] == formats[j]
    ensures forall j :: 0 <= j <= i && LastWithIdBefore(data, j, i + 1) ==>
              data[j].id in byId[f.id := f] && byId[f.id := f][data[j].id] == (formats + [f])[j]
  {
    var next, nextById := formats + [f], byId[f.id := f];
    forall j | 0 <= j <= i && LastWithIdBefore(data, j, i + 1)
      ensures data[j].id in nextById && nextById[data[j].id] == next[j]
    {
      if j < i {
        assert LastWithIdBefore(data, j, i);
        assert data[i].id != data[j].id;
        assert next[j] == formats[j];
      } else {
        assert next[j] == f;
      }
    }
  }

  /** A non-empty b is its initial part followed by its last element, so
      a + b regroups as (a + initial part) + [last element]. A lemma over any
      element type, so that these sequence equalities are proved away from
      the formats' own facts. */
  lemma SnocRegroup<T>(a: seq<T>, b: seq<T>, tail: seq<T>, x: seq<T>, y: seq<T>)
    requires b != []
    ensures b == b[..|b| - 1] + [b[|b| - 1]]
    ensures a + b == (a + b[..|b| - 1]) + [b[|b| - 1]]
    ensures (x + y) + tail == x + (y + tail)
  {
  }

  /** The prefix of length i + 1 is the prefix of length i followed by s[i]. */
  lemma PrefixSnoc<T>(s: seq<T>, i: int)
    requires 0 <= i < |s|
    ensures s[..i + 1] == s[..i] + [s[i]]
  {
  }

  lemma IdsAppend(fs: seq<Format>, f: Format)
    ensures Ids(fs + [f]) == Ids(fs) + {f.id}
  {
    var gs := fs + [f];
    forall x | x in Ids(gs) ensures x in Ids(fs) + {f.id} {
      var j :| 0 <= j < |gs| && gs[j].id == x;
      if j < |fs| { assert fs[j].id == x; }
    }
    forall x | x in Ids(fs) + {f.id} ensures x in Ids(gs) {
      if x == f.id { assert gs[|fs|].id == x; }
      else { var j :| 0 <= j < |fs| && fs[j].id == x; assert gs[j].id == x; }
    }
  }

  // ----- Records of the shipped catalogue, used as concrete inputs -----

  function FullFrameRaw(): RawFormat {
    RawFormat("ff-35mm", "Full Frame 35mm Still", 36.0, 24.0, 43.27, "35mm-still", "Both")
  }

  function SixBySevenRaw(): RawFormat {
    RawFormat("6x7", "6x7 Medium Format", 56.0, 70.0, 89.65, "medium-format", "Analog")
  }

  /** The part of the category table that styles the two records above. */
  function SampleMeta(): map<string, CategoryMeta> {
    map[
      "35mm-still" := CategoryMeta("35mm Still", 2, map["ff-35mm" := Styling("#1A9E8F", "none")]),
      "medium-format" := CategoryMeta("Medium Format Still", 6, map[
        "645" := Styling("#3AAA55", "none"),
        "6x6" := Styling("#2E8B57", "6 3"),
        "6x7" := Styling("#48B880", "10 4"),
        "6x8" := Styling("#5CAA6E", "4 2 10 2")])
    ]
  }

  /** The landscape full-frame record keeps its size and takes its category's styling. */
  lemma FullFrameMerged()
    ensures Merge(FullFrameRaw(), SampleMeta()) ==
      Format("ff-35mm", "Full Frame 35mm Still", 36.0, 24.0, 43.27, "35mm-still", "Both",
             "#1A9E8F", "none", "35mm Still", 2)
  {
    assert HasStyling(FullFrameRaw(), SampleMeta());
  }

  /** The portrait 6x7 record becomes 70 x 56 and takes its category's styling. */
  lemma SixBySevenMerged()
    ensures Merge(SixBySevenRaw(), SampleMeta()) ==
      Format("6x7", "6x7 Medium Format", 70.0, 56.0, 89.65, "medium-format", "Analog",
             "#48B880", "10 4", "Medium Format Still", 6)
  {
    assert HasStyling(SixBySevenRaw(), SampleMeta());
  }

  /** A record whose category has no entry falls back to grey, solid, its
      raw category key as label, and order 99. */
  lemma UnknownCategoryFallsBack()
    ensures Merge(RawFormat("x", "X", 10.0, 20.0, 22.36, "other", ""), SampleMeta()) ==
      Format("x", "X", 20.0, 10.0, 22.36, "other", "", "#999", "none", "other", 99)
  {
    assert !HasStyling(RawFormat("x", "X", 10.0, 20.0, 22.36, "other", ""), SampleMeta());
  }
}
