/** The selection state: the set of selected format ids and the one
    highlighted id, with the operations the page's controls, diagram and
    table call to change them. */
module Selection {
  import opened Catalog

  datatype Option<T> = None | Some(value: T)

  /** The formats selected at start-up, when the catalogue has them. */
  const DEFAULT_SELECTION: seq<string> := ["ff-35mm", "4perf-s35", "gfx-eterna-og", "imax", "6x7"]

  /** The selection after one format's checkbox is set to checked. */
  function Toggled(sel: set<string>, id: string, checked: bool): (r: set<string>)
    ensures id in r <==> checked
    ensures forall x :: x != id ==> (x in r <==> x in sel)
  {
    if checked then sel + {id} else sel - {id}
  }

  /** The selection after a click on a format's shape. */
  function Flipped(sel: set<string>, id: string): (r: set<string>)
    ensures id in r <==> id !in sel
    ensures forall x :: x != id ==> (x in r <==> x in sel)
  {
    if id in sel then sel - {id} else sel + {id}
  }

  /** The selection after a category's checkbox is set to checked. */
  function CategorySet(formats: seq<Format>, sel: set<string>, catKey: string, checked: bool): (r: set<string>)
    ensures forall i :: 0 <= i < |formats| && formats[i].category == catKey ==> (formats[i].id in r <==> checked)
    ensures forall x :: x !in CategoryIds(formats, catKey) ==> (x in r <==> x in sel)
  {
    if checked then sel + CategoryIds(formats, catKey) else sel - CategoryIds(formats, catKey)
  }

  /** The default ids that the catalogue has. */
  function DefaultsIn(defaults: seq<string>, ids: set<string>): set<string> {
    set d | d in defaults && d in ids
  }

  /** Adding the defaults to an empty selection gives the defaults. A lemma
      of its own, so that the constructor needs no set extensionality. */
  lemma DefaultsFromEmpty(defaults: seq<string>, keys: set<string>, ids: set<string>)
    requires keys == ids
    ensures {} + DefaultsIn(defaults, keys) == DefaultsIn(defaults, ids)
  {
  }

  /** Setting a checkbox to the state it already has changes nothing. */
  lemma ToggleIdempotent(sel: set<string>, id: string, checked: bool)
    ensures Toggled(Toggled(sel, id, checked), id, checked) == Toggled(sel, id, checked)
    ensures (id in sel <==> checked) ==> Toggled(sel, id, checked) == sel
  {
  }

  /** Two clicks on the same shape restore the selection. */
  lemma {:induction false} ClickTwiceRestores(sel: set<string>, id: string)
    ensures Flipped(Flipped(sel, id), id) == sel
  {
    var once := Flipped(sel, id);
    var twice := Flipped(once, id);
    forall x ensures x in twice <==> x in sel {
      if x == id { assert id in once <==> id !in sel; }
    }
  }

  /** With unique ids, a format outside the category keeps its membership. */
  lemma CategorySetLocal(formats: seq<Format>, sel: set<string>, catKey: string, checked: bool, i: int)
    requires UniqueIds(formats)
    requires 0 <= i < |formats| && formats[i].category != catKey
    ensures formats[i].id in CategorySet(formats, sel, catKey, checked) <==> formats[i].id in sel
  {
    assert formats[i].id !in CategoryIds(formats, catKey);
  }

  /** Repeating a category selection changes nothing. */
  lemma CategorySetIdempotent(formats: seq<Format>, sel: set<string>, catKey: string, checked: bool)
    ensures CategorySet(formats, CategorySet(formats, sel, catKey, checked), catKey, checked)
            == CategorySet(formats, sel, catKey, checked)
  {
  }

  /** The formats whose id is selected, in catalogue order. */
  function SelectedFormats(formats: seq<Format>, sel: set<string>): (r: seq<Format>)
    ensures forall f :: f in r <==> f in formats && f.id in sel
    ensures r == [] <==> forall i :: 0 <= i < |formats| ==> formats[i].id !in sel
    ensures |r| <= |formats|
  {
    if formats == [] then []
    else
      var init := formats[..|formats| - 1];
      var last := formats[|formats| - 1];
      assert formats == init + [last];
      SelectedFormats(init, sel) + (if last.id in sel then [last] else [])
  }

  lemma SelectedFormatsSnoc(s: seq<Format>, f: Format, sel: set<string>)
    ensures SelectedFormats(s + [f], sel) == SelectedFormats(s, sel) + (if f.id in sel then [f] else [])
  {
    assert (s + [f])[..|s|] == s;
  }

  /** Selecting from a concatenation selects from each part in turn: the
      selected list keeps catalogue order and the multiplicity of each record. */
  lemma {:induction false} SelectedFormatsAppend(a: seq<Format>, b: seq<Format>, sel: set<string>)
    ensures SelectedFormats(a + b, sel) == SelectedFormats(a, sel) + SelectedFormats(b, sel)
  {
    if b == [] {
      assert a + b == a;
    } else {
      var init := b[..|b| - 1];
      var last := b[|b| - 1];
      var tail := if last.id in sel then [last] else [];
      var x, y := SelectedFormats(a, sel), SelectedFormats(init, sel);
      SnocRegroup(a, b, tail, x, y);
      SelectedFormatsSnoc(a + init, last, sel);
      SelectedFormatsSnoc(init, last, sel);
      SelectedFormatsAppend(a, init, sel);
    }
  }

  /** A single format is kept iff its id is selected. */
  lemma SelectedFormatsSingle(f: Format, sel: set<string>)
    ensures SelectedFormats([f], sel) == (if f.id in sel then [f] else [])
  {
    assert [f][..0] == [];
  }

  lemma CategoryIdsAppend(fs: seq<Format>, f: Format, catKey: string)
    ensures CategoryIds(fs + [f], catKey) ==
            CategoryIds(fs, catKey) + (if f.category == catKey then {f.id} else {})
  {
    var gs := fs + [f];
    forall x | x in CategoryIds(gs, catKey)
      ensures x in CategoryIds(fs, catKey) + (if f.category == catKey then {f.id} else {})
    {
      var j :| 0 <= j < |gs| && gs[j].category == catKey && gs[j].id == x;
      if j < |fs| { assert fs[j] == gs[j]; }
    }
    forall x | x in CategoryIds(fs, catKey) ensures x in CategoryIds(gs, catKey) {
      var j :| 0 <= j < |fs| && fs[j].category == catKey && fs[j].id == x;
      assert gs[j] == fs[j];
    }
    if f.category == catKey { assert gs[|fs|] == f; }
  }

  /** Collects the selected formats in catalogue order, as the diagram, the
      table and the highlight refresh each do before drawing. */
  method CollectSelected(formats: seq<Format>, sel: set<string>) returns (result: seq<Format>)
    ensures result == SelectedFormats(formats, sel)
  {
    result := [];
    for i := 0 to |formats|
      invariant result == SelectedFormats(formats[..i], sel)
    {
      PrefixSnoc(formats, i);
      SelectedFormatsSnoc(formats[..i], formats[i], sel);
      if formats[i].id in sel {
        result := result + [formats[i]];
      }
    }
    assert formats[..|formats|] == formats;
  }

  /** The single mutable state of the page, with the catalogue it was built from. */
  class Store {
    const formats: seq<Format>
    const byId: map<string, Format>
    var selected: set<string>
    var highlighted: Option<string>

    /** The catalogue was merged: every record is landscape and the lookup
        table holds exactly the catalogue's ids. */
    ghost predicate Valid() {
      AllLandscape(formats) && byId.Keys == Ids(formats)
    }

    /** Start-up: merge the raw table with the category table, then select
        the default formats that the catalogue has. Nothing is highlighted. */
    constructor (data: seq<RawFormat>, meta: map<string, CategoryMeta>)
      ensures Valid()
      ensures MergedFrom(formats, data, meta)
      ensures selected == DefaultsIn(DEFAULT_SELECTION, Ids(formats))
      ensures highlighted == None
      ensures DistinctRawIds(data) ==> UniqueIds(formats)
    {
      var merged, table := MergeFormatMetadata(data, meta);
      MergeKeepsIds(data, meta, merged);
      formats := merged;
      byId := table;
      selected := {};
      highlighted := None;
      new;
      SelectDefaults(DEFAULT_SELECTION);
      DefaultsFromEmpty(DEFAULT_SELECTION, byId.Keys, Ids(formats));
    }

    /** Adds each default id that the lookup table has. */
    method SelectDefaults(defaults: seq<string>)
      modifies this`selected
      ensures selected == old(selected) + DefaultsIn(defaults, byId.Keys)
    {
      for i := 0 to |defaults|
        invariant selected == old(selected) + DefaultsIn(defaults[..i], byId.Keys)
      {
        assert defaults[..i + 1] == defaults[..i] + [defaults[i]];
        if defaults[i] in byId {
          selected := selected + {defaults[i]};
        }
      }
      assert defaults[..|defaults|] == defaults;
    }

    /** A format's checkbox changed to checked. */
    method ToggleFormat(id: string, checked: bool)
      modifies this`selected
      ensures selected == Toggled(old(selected), id, checked)
    {
      if checked {
        selected := selected + {id};
      } else {
        selected := selected - {id};
      }
    }

    /** A click on a format's shape flips its membership. */
    method ClickShape(id: string)
      modifies this`selected
      ensures selected == Flipped(old(selected), id)
    {
      if id in selected {
        selected := selected - {id};
      } else {
        selected := selected + {id};
      }
    }

    /** Selects every format of the catalogue. */
    method SelectAll()
      modifies this`selected
      ensures selected == old(selected) + Ids(formats)
    {
      for i := 0 to |formats|
        invariant selected == old(selected) + Ids(formats[..i])
      {
        assert formats[..i + 1] == formats[..i] + [formats[i]];
        IdsAppend(formats[..i], formats[i]);
        selected := selected + {formats[i].id};
      }
      assert formats[..|formats|] == formats;
    }

    /** Empties the selection. */
    method DeselectAll()
      modifies this`selected
      ensures selected == {}
    {
      selected := {};
    }

    /** Sets the membership of every format of one category. */
    method SelectCategory(catKey: string, checked: bool)
      modifies this`selected
      ensures selected == CategorySet(formats, old(selected), catKey, checked)
    {
      for i := 0 to |formats|
        invariant selected == CategorySet(formats[..i], old(selected), catKey, checked)
      {
        assert formats[..i + 1] == formats[..i] + [formats[i]];
        CategoryIdsAppend(formats[..i], formats[i], catKey);
        if formats[i].category == catKey {
          if checked {
            selected := selected + {formats[i].id};
          } else {
            selected := selected - {formats[i].id};
          }
        }
      }
      assert formats[..|formats|] == formats;
    }

    /** The pointer entered a row or shape of format id. */
    method Hover(id: string)
      modifies this`highlighted
      ensures highlighted == Some(id)
    {
      highlighted := Some(id);
    }

    /** The pointer left a row or shape. */
    method Unhover()
      modifies this`highlighted
      ensures highlighted == None
    {
      highlighted := None;
    }
  }
}
