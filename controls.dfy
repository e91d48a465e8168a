/** The control panel's decisions: the tri-state checkbox of each category
    and the grouping of formats under categories in display order. */
module Controls {
  import opened Catalog
  import opened Ordering
  import opened Selection

  // ----- Tri-state category checkbox -----

  /** How many formats of the list belong to category catKey. */
  function CountMembers(formats: seq<Format>, catKey: string): nat {
    if formats == [] then 0
    else
      CountMembers(formats[..|formats| - 1], catKey)
      + (if formats[|formats| - 1].category == catKey then 1 else 0)
  }

  /** How many formats of the list belong to category catKey and are selected. */
  function CountSelected(formats: seq<Format>, sel: set<string>, catKey: string): nat {
    if formats == [] then 0
    else
      var last := formats[|formats| - 1];
      CountSelected(formats[..|formats| - 1], sel, catKey)
      + (if last.category == catKey && last.id in sel then 1 else 0)
  }

  ghost predicate HasMember(formats: seq<Format>, catKey: string) {
    exists i :: 0 <= i < |formats| && formats[i].category == catKey
  }

  ghost predicate AllMembersSelected(formats: seq<Format>, sel: set<string>, catKey: string) {
    forall i :: 0 <= i < |formats| && formats[i].category == catKey ==> formats[i].id in sel
  }

  ghost predicate SomeMemberSelected(formats: seq<Format>, sel: set<string>, catKey: string) {
    exists i :: 0 <= i < |formats| && formats[i].category == catKey && formats[i].id in sel
  }

  /** What the two counts say about the members of a category. */
  lemma {:induction false} CountFacts(formats: seq<Format>, sel: set<string>, catKey: string)
    ensures CountSelected(formats, sel, catKey) <= CountMembers(formats, catKey)
    ensures CountMembers(formats, catKey) > 0 <==> HasMember(formats, catKey)
    ensures CountSelected(formats, sel, catKey) > 0 <==> SomeMemberSelected(formats, sel, catKey)
    ensures CountSelected(formats, sel, catKey) == CountMembers(formats, catKey)
            <==> AllMembersSelected(formats, sel, catKey)
  {
    if formats != [] {
      var init := formats[..|formats| - 1];
      var last := formats[|formats| - 1];
      CountFacts(init, sel, catKey);
      assert forall i :: 0 <= i < |init| ==> init[i] == formats[i];
      assert HasMember(formats, catKey) <==> HasMember(init, catKey) || last.category == catKey;
      assert SomeMemberSelected(formats, sel, catKey) <==>
        SomeMemberSelected(init, sel, catKey) || (last.category == catKey && last.id in sel);
      assert AllMembersSelected(formats, sel, catKey) <==>
        AllMembersSelected(init, sel, catKey) && (last.category == catKey ==> last.id in sel);
    }
  }

  /** The checked and indeterminate flags of a category's checkbox, from the
      number of its members and the number of them that are selected. */
  method CategoryCheckState(formats: seq<Format>, sel: set<string>, catKey: string)
    returns (checked: bool, indeterminate: bool)
    ensures checked <==> HasMember(formats, catKey) && AllMembersSelected(formats, sel, catKey)
    ensures indeterminate <==>
      SomeMemberSelected(formats, sel, catKey) && !AllMembersSelected(formats, sel, catKey)
    ensures !(checked && indeterminate)
  {
    var total, count := 0, 0;
    for j := 0 to |formats|
      invariant total == CountMembers(formats[..j], catKey)
      invariant count == CountSelected(formats[..j], sel, catKey)
    {
      assert formats[..j + 1][..j] == formats[..j];
      if formats[j].category == catKey {
        total := total + 1;
        if formats[j].id in sel {
          count := count + 1;
        }
      }
    }
    assert formats[..|formats|] == formats;
    CountFacts(formats, sel, catKey);
    checked := count == total && total > 0;
    indeterminate := count > 0 && count < total;
  }

  /** Selecting a category checks its box; deselecting it unchecks it. */
  lemma SelectCategoryChecksBox(formats: seq<Format>, sel: set<string>, catKey: string)
    ensures AllMembersSelected(formats, CategorySet(formats, sel, catKey, true), catKey)
    ensures !SomeMemberSelected(formats, CategorySet(formats, sel, catKey, false), catKey)
  {
  }

  /** After "select all" every category's box is checked or has no members;
      after "deselect all" none is checked or indeterminate. */
  lemma SelectAllChecksEveryBox(formats: seq<Format>, sel: set<string>, catKey: string)
    ensures AllMembersSelected(formats, sel + Ids(formats), catKey)
    ensures !SomeMemberSelected(formats, {}, catKey)
  {
    forall i | 0 <= i < |formats| ensures formats[i].id in Ids(formats) {
    }
  }

  /** A click on a category header, outside its checkbox, flips the box as
      last drawn and applies the new state to the whole category: a checked
      category is emptied, an unchecked or indeterminate one is filled. */
  method ClickCategoryHeader(store: Store, catKey: string)
    modifies store`selected
    ensures var wasChecked := HasMember(store.formats, catKey)
                              && AllMembersSelected(store.formats, old(store.selected), catKey);
            store.selected == CategorySet(store.formats, old(store.selected), catKey, !wasChecked)
    ensures HasMember(store.formats, catKey) && AllMembersSelected(store.formats, old(store.selected), catKey)
            ==> !SomeMemberSelected(store.formats, store.selected, catKey)
    ensures !(HasMember(store.formats, catKey) && AllMembersSelected(store.formats, old(store.selected), catKey))
            ==> AllMembersSelected(store.formats, store.selected, catKey)
  {
    var checked, indeterminate := CategoryCheckState(store.formats, store.selected, catKey);
    store.SelectCategory(catKey, !checked);
  }

  // ----- Grouping of the controls by category -----

  /** The header of one category group, taken from its first format. */
  datatype CategoryEntry = CategoryEntry(key: string, order: int, caption: string)

  function EntryOf(f: Format): CategoryEntry {
    CategoryEntry(f.category, f.categoryOrder, f.categoryLabel)
  }

  /** Groups are sorted by (a, b) => a.order - b.order. */
  function OrderRank(e: CategoryEntry): real {
    e.order as real
  }

  /** The categories that occur in the list. */
  function Categories(formats: seq<Format>): set<string> {
    set i | 0 <= i < |formats| :: formats[i].category
  }

  /** The formats of category catKey, in catalogue order. */
  function Members(formats: seq<Format>, catKey: string): (r: seq<Format>)
    ensures forall f :: f in r <==> f in formats && f.category == catKey
    ensures (forall i :: 0 <= i < |formats| ==> formats[i].category != catKey) ==> r == []
  {
    if formats == [] then []
    else
      var init := formats[..|formats| - 1];
      var last := formats[|formats| - 1];
      assert formats == init + [last];
      Members(init, catKey) + (if last.category == catKey then [last] else [])
  }

  lemma MembersSnoc(s: seq<Format>, f: Format, catKey: string)
    ensures Members(s + [f], catKey) == Members(s, catKey) + (if f.category == catKey then [f] else [])
  {
    assert (s + [f])[..|s|] == s;
  }

  /** Grouping a concatenation groups each part in turn: a group lists its
      formats in catalogue order, each as often as the catalogue has it. */
  lemma {:induction false} MembersAppend(a: seq<Format>, b: seq<Format>, catKey: string)
    ensures Members(a + b, catKey) == Members(a, catKey) + Members(b, catKey)
  {
    if b == [] {
      assert a + b == a;
    } else {
      var init := b[..|b| - 1];
      var last := b[|b| - 1];
      var tail := if last.category == catKey then [last] else [];
      var x, y := Members(a, catKey), Members(init, catKey);
      SnocRegroup(a, b, tail, x, y);
      MembersSnoc(a + init, last, catKey);
      MembersSnoc(init, last, catKey);
      MembersAppend(a, init, catKey);
    }
  }

  /** A single format is in the group iff it has the category. */
  lemma MembersSingle(f: Format, catKey: string)
    ensures Members([f], catKey) == (if f.category == catKey then [f] else [])
  {
    assert [f][..0] == [];
  }

  /** formats[j] is the first format of its category. */
  ghost predicate FirstOfCategory(formats: seq<Format>, j: int)
    requires 0 <= j < |formats|
  {
    forall m :: 0 <= m < j ==> formats[m].category != formats[j].category
  }

  /** No two entries share a key. */
  ghost predicate DistinctKeys(entries: seq<CategoryEntry>) {
    forall m, n :: 0 <= m < n < |entries| ==> entries[m].key != entries[n].key
  }

  /** Every entry is the header of some category, taken from its first format. */
  ghost predicate HeadersOf(entries: seq<CategoryEntry>, formats: seq<Format>, upto: int)
    requires 0 <= upto <= |formats|
  {
    forall n :: 0 <= n < |entries| ==> IsHeader(entries[n], formats, upto)
  }

  /** e is the header taken from the first format of some category of formats[..upto]. */
  ghost predicate IsHeader(e: CategoryEntry, formats: seq<Format>, upto: int)
    requires 0 <= upto <= |formats|
  {
    exists j :: 0 <= j < upto && FirstOfCategory(formats, j) && e == EntryOf(formats[j])
  }

  /** The keys of a list of headers. */
  function KeysOf(entries: seq<CategoryEntry>): set<string> {
    set e | e in entries :: e.key
  }

  lemma CategoriesAppend(fs: seq<Format>, f: Format)
    ensures Categories(fs + [f]) == Categories(fs) + {f.category}
  {
    var gs := fs + [f];
    forall x | x in Categories(gs) ensures x in Categories(fs) + {f.category} {
      var j :| 0 <= j < |gs| && gs[j].category == x;
      if j < |fs| { assert fs[j] == gs[j]; }
    }
    forall x | x in Categories(fs) ensures x in Categories(gs) {
      var j :| 0 <= j < |fs| && fs[j].category == x;
      assert gs[j] == fs[j];
    }
    assert gs[|fs|] == f;
  }

  lemma KeysOfAppend(entries: seq<CategoryEntry>, e: CategoryEntry)
    ensures KeysOf(entries + [e]) == KeysOf(entries) + {e.key}
  {
    var longer := entries + [e];
    assert forall x :: x in longer <==> x in entries || x == e;
    forall k | k in KeysOf(longer) ensures k in KeysOf(entries) + {e.key} {
      var x :| x in longer && x.key == k;
    }
    assert e in longer;
  }

  /** Two headers with the same key are the same header. */
  lemma HeadersKeyDetermines(entries: seq<CategoryEntry>, formats: seq<Format>, m: int, n: int)
    requires HeadersOf(entries, formats, |formats|)
    requires 0 <= m < |entries| && 0 <= n < |entries|
    ensures entries[m].key == entries[n].key ==> entries[m] == entries[n]
  {
    var jm :| 0 <= jm < |formats| && FirstOfCategory(formats, jm) && entries[m] == EntryOf(formats[jm]);
    var jn :| 0 <= jn < |formats| && FirstOfCategory(formats, jn) && entries[n] == EntryOf(formats[jn]);
    if formats[jm].category == formats[jn].category {
      assert jm >= jn && jn >= jm;
    }
  }

  /** A permutation of headers is headers. */
  lemma HeadersPermutation(entries: seq<CategoryEntry>, other: seq<CategoryEntry>, formats: seq<Format>)
    requires HeadersOf(entries, formats, |formats|)
    requires multiset(entries) == multiset(other)
    ensures HeadersOf(other, formats, |formats|)
  {
    forall n | 0 <= n < |other| ensures IsHeader(other[n], formats, |formats|) {
      assert other[n] in multiset(entries);
      var m :| 0 <= m < |entries| && entries[m] == other[n];
      assert IsHeader(entries[m], formats, |formats|);
    }
  }

  /** Headers without repeated entries have no repeated keys. */
  lemma HeadersDistinctKeys(entries: seq<CategoryEntry>, formats: seq<Format>)
    requires HeadersOf(entries, formats, |formats|)
    requires Distinct(entries)
    ensures DistinctKeys(entries)
  {
    forall m, n | 0 <= m < n < |entries| ensures entries[m].key != entries[n].key {
      HeadersKeyDetermines(entries, formats, m, n);
    }
  }

  /** Sorting the headers by order keeps them distinct, complete and headers. */
  lemma SortedHeaders(entries: seq<CategoryEntry>, formats: seq<Format>)
    requires HeadersOf(entries, formats, |formats|)
    requires DistinctKeys(entries)
    ensures HeadersOf(SortBy(entries, OrderRank), formats, |formats|)
    ensures DistinctKeys(SortBy(entries, OrderRank))
    ensures KeysOf(SortBy(entries, OrderRank)) == KeysOf(entries)
  {
    var sorted := SortBy(entries, OrderRank);
    SortByKeepsElements(entries, OrderRank);
    HeadersPermutation(entries, sorted, formats);
    assert Distinct(entries);
    DistinctPermutation(entries, sorted);
    HeadersDistinctKeys(sorted, formats);
  }

  /** The map of the grouping loop after formats[..i]: each category seen so
      far, with its formats in catalogue order. */
  ghost predicate MapGrouped(formats: seq<Format>, i: int, catMap: map<string, seq<Format>>)
    requires 0 <= i <= |formats|
  {
    && catMap.Keys == Categories(formats[..i])
    && forall k :: k in catMap ==> catMap[k] == Members(formats[..i], k)
  }

  /** The header list of the grouping loop after formats[..i]: one header
      per category seen so far, each taken from the category's first format. */
  ghost predicate HeadersGrouped(formats: seq<Format>, i: int, firstSeen: seq<CategoryEntry>)
    requires 0 <= i <= |formats|
  {
    && KeysOf(firstSeen) == Categories(formats[..i])
    && DistinctKeys(firstSeen)
    && HeadersOf(firstSeen, formats, i)
  }

  /** Appending formats[i] to its category's list keeps the map right. */
  lemma GroupMapStep(formats: seq<Format>, i: int, catMap: map<string, seq<Format>>,
                     nextMap: map<string, seq<Format>>)
    requires 0 <= i < |formats| && MapGrouped(formats, i, catMap)
    requires nextMap == catMap[formats[i].category :=
      (if formats[i].category in catMap then catMap[formats[i].category] else []) + [formats[i]]]
    ensures MapGrouped(formats, i + 1, nextMap)
  {
    var f := formats[i];
    assert formats[..i + 1] == formats[..i] + [f];
    assert formats[..i + 1][..i] == formats[..i];
    CategoriesAppend(formats[..i], f);
    if f.category !in catMap {
      forall m | 0 <= m < i ensures formats[..i][m].category != f.category {
        assert formats[..i][m].category in Categories(formats[..i]);
      }
    }
  }

  /** formats[i], when its category is new, is the first of its category. */
  lemma NewCategoryIsFirst(formats: seq<Format>, i: int)
    requires 0 <= i < |formats| && formats[i].category !in Categories(formats[..i])
    ensures FirstOfCategory(formats, i)
  {
    forall m | 0 <= m < i ensures formats[m].category != formats[i].category {
      assert formats[m] == formats[..i][m];
    }
  }

  /** Adding the header of a new category keeps the headers right. */
  lemma GroupHeaderStep(formats: seq<Format>, i: int, firstSeen: seq<CategoryEntry>,
                        nextSeen: seq<CategoryEntry>)
    requires 0 <= i < |formats| && HeadersGrouped(formats, i, firstSeen)
    requires nextSeen == if formats[i].category in Categories(formats[..i]) then firstSeen
                         else firstSeen + [EntryOf(formats[i])]
    ensures HeadersGrouped(formats, i + 1, nextSeen)
  {
    var f := formats[i];
    assert formats[..i + 1] == formats[..i] + [f];
    CategoriesAppend(formats[..i], f);
    if f.category !in Categories(formats[..i]) {
      NewCategoryIsFirst(formats, i);
      KeysOfAppend(firstSeen, EntryOf(f));
      forall n | 0 <= n < |firstSeen| ensures firstSeen[n].key != f.category {
        assert firstSeen[n] in firstSeen;
      }
      assert IsHeader(EntryOf(f), formats, i + 1);
    }
    forall n | 0 <= n < |nextSeen| ensures IsHeader(nextSeen[n], formats, i + 1) {
      if n < |firstSeen| {
        assert nextSeen[n] == firstSeen[n];
        assert IsHeader(firstSeen[n], formats, i);
      }
    }
  }

  /** Groups the formats by category and orders the groups by their order:
      one header per category (taken from its first format), and under each
      key the formats of that category in catalogue order. */
  method GroupByCategory(formats: seq<Format>)
    returns (catOrder: seq<CategoryEntry>, catMap: map<string, seq<Format>>)
    ensures catMap.Keys == Categories(formats)
    ensures forall k :: k in catMap ==> catMap[k] == Members(formats, k)
    ensures SortedBy(catOrder, OrderRank)
    ensures DistinctKeys(catOrder)
    ensures KeysOf(catOrder) == catMap.Keys
    ensures HeadersOf(catOrder, formats, |formats|)
  {
    var firstSeen: seq<CategoryEntry> := [];
    catMap := map[];
    for i := 0 to |formats|
      invariant MapGrouped(formats, i, catMap)
      invariant HeadersGrouped(formats, i, firstSeen)
    {
      var f := formats[i];
      ghost var (seen0, map0) := (firstSeen, catMap);
      if f.category !in catMap {
        catMap := catMap[f.category := []];
        firstSeen := firstSeen + [EntryOf(f)];
      }
      catMap := catMap[f.category := catMap[f.category] + [f]];
      GroupMapStep(formats, i, map0, catMap);
      GroupHeaderStep(formats, i, seen0, firstSeen);
    }
    assert formats[..|formats|] == formats;
    catOrder := SortBy(firstSeen, OrderRank);
    SortedHeaders(firstSeen, formats);
  }

  /** Every format appears in exactly one group: its own category's. */
  lemma EveryFormatInOneGroup(formats: seq<Format>, i: int, catKey: string)
    requires 0 <= i < |formats|
    ensures formats[i] in Members(formats, formats[i].category)
    ensures catKey != formats[i].category ==> formats[i] !in Members(formats, catKey)
  {
  }
}
