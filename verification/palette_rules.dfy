/** What the two palettes (the sidebar palette and the construct-view palette)
    have in common: their items and groups, the rule by which dragging an
    item out picks the displayed types, the `displayed` and `filtered`
    classes of a circle, and the padding between circles. */
module PaletteRules {
  import opened Wrappers
  import opened Text
  import opened Dict
  import opened SparqlTree
  import ItemsReducer

  /** An RDF term with its label, as a property value carries it. */
  datatype Node = Node(value: string, labelText: string)

  /** One of an item's local properties with the values it has. */
  datatype Property = Property(value: string, labelText: string, values: seq<Node>)

  /** A palette item: the sidebar palette fills `groupValue`, `groupLabel`
      and `typeValue`; the construct-view palette `typeValue` and `typeLabel`. */
  datatype PaletteItem = PaletteItem(value: string, labelText: string, localProperties: seq<Property>,
                                     groupValue: string, groupLabel: string,
                                     typeValue: string, typeLabel: string)

  /** A group of the palette tree: its heading, its items, and whether it is
      open. */
  datatype Leaf = Leaf(labelText: string, items: seq<PaletteItem>, expanded: bool)

  const RdfType: string := "http://www.w3.org/1999/02/22-rdf-syntax-ns#type"

  /** The heading of the group for items without a type. */
  const NoTypeDefined: string := "No type defined"

  // ---------------------------------------------------------------------
  // addItem: the display types

  /** `types.filter(t => t.id === id)[0]`: the first type with that id. */
  function FindType(types: seq<TreeNode>, id: string): (t: Option<TreeNode>)
    ensures t.Some? <==> exists i :: 0 <= i < |types| && types[i].id == id
    ensures t.Some? ==> t.value.id == id && t.value in types
  {
    if types == [] then None
    else if types[0].id == id then Some(types[0])
    else FindType(types[1..], id)
  }

  /** The list `addItem` hands to `setOrderedTypes`, or `None` when it does
      not call it: with nothing displayed yet the item's type becomes the one
      displayed type; with exactly one displayed type a different item type
      is added as the second. */
  function NewDisplayTypes(types: seq<TreeNode>, displayTypes: seq<TreeNode>, typeValue: string): Option<seq<TreeNode>> {
    match FindType(types, typeValue)
    case None => None
    case Some(itemType) =>
      if |displayTypes| == 0 then Some([itemType])
      else if |displayTypes| == 1 && displayTypes[0] != itemType then Some(displayTypes + [itemType])
      else None
  }

  /** The displayed types after `addItem`. */
  function DisplayTypesAfter(types: seq<TreeNode>, displayTypes: seq<TreeNode>, typeValue: string): seq<TreeNode> {
    match NewDisplayTypes(types, displayTypes, typeValue)
    case None => displayTypes
    case Some(chosen) => chosen
  }

  predicate DistinctTypes(ts: seq<TreeNode>) {
    forall i, j :: 0 <= i < j < |ts| ==> ts[i] != ts[j]
  }

  /** Adding an item only ever appends to the displayed types, never more
      than two and never the same type twice; when there was room, the
      item's type (if it is a known type) is displayed afterwards. */
  lemma DisplayTypesGrow(types: seq<TreeNode>, displayTypes: seq<TreeNode>, typeValue: string)
    ensures var after := DisplayTypesAfter(types, displayTypes, typeValue);
            && |after| >= |displayTypes| && after[..|displayTypes|] == displayTypes
            && (|displayTypes| <= 2 ==> |after| <= 2)
            && (DistinctTypes(displayTypes) ==> DistinctTypes(after))
            && (|displayTypes| >= 2 ==> after == displayTypes)
    ensures |displayTypes| <= 1 && FindType(types, typeValue).Some? ==>
              FindType(types, typeValue).value in DisplayTypesAfter(types, displayTypes, typeValue)
    ensures NewDisplayTypes(types, displayTypes, typeValue).Some? ==>
              DisplayTypesAfter(types, displayTypes, typeValue) == displayTypes + [FindType(types, typeValue).value]
  {
  }

  /** An id that names no type never changes the displayed types. */
  lemma UnknownTypeChangesNothing(types: seq<TreeNode>, displayTypes: seq<TreeNode>, typeValue: string)
    requires forall i :: 0 <= i < |types| ==> types[i].id != typeValue
    ensures NewDisplayTypes(types, displayTypes, typeValue) == None
  {
  }

  // ---------------------------------------------------------------------
  // update: the `displayed` and `filtered` classes

  /** `itemIndex[d.value] ? true : false`; the indexed items are objects and
      so truthy. */
  predicate Displayed(itemIndex: map<string, ItemsReducer.Item>, value: string) {
    value in itemIndex
  }

  /** When the index is kept in step with the displayed list, a circle is
      marked displayed exactly when an item with its value is displayed. */
  lemma DisplayedIffListed(s: ItemsReducer.ItemsState, value: string)
    requires ItemsReducer.Consistent(s)
    ensures Displayed(s.itemIndex, value) <==> exists i :: 0 <= i < |s.items| && s.items[i].value == value
  {
    if Displayed(s.itemIndex, value) {
      assert value in ItemsReducer.Values(s.items);
    }
  }

  /** A circle is filtered out when there is a filter and the label, upper
      cased, does not contain the upper-cased filter. */
  predicate Filtered(text: string, labelFilter: string) {
    labelFilter != "" && IndexOf(Upper(text), Upper(labelFilter)) == -1
  }

  /** `filtered` means: the filter is set and occurs nowhere in the label,
      ignoring the case of ASCII letters. */
  lemma FilteredMeansAbsent(text: string, labelFilter: string)
    ensures Filtered(text, labelFilter) <==>
              labelFilter != "" && forall i :: !Occurs(Upper(labelFilter), Upper(text), i)
  {
    var r := IndexOf(Upper(text), Upper(labelFilter));
    if r != -1 {
      assert Occurs(Upper(labelFilter), Upper(text), r);
    }
  }

  /** No filter hides nothing, and a label is never hidden by a filter equal
      to it or to any part of it. */
  lemma FilterKeepsMatches(text: string, labelFilter: string, i: nat)
    requires i + |labelFilter| <= |text| && text[i..i + |labelFilter|] == labelFilter
    ensures !Filtered(text, labelFilter)
  {
    var u := Upper(text);
    assert u[i..i + |labelFilter|] == Upper(labelFilter);
    FilteredMeansAbsent(text, labelFilter);
    assert Occurs(Upper(labelFilter), u, i);
  }

  // ---------------------------------------------------------------------
  // build: the padding between circles

  /** The items drawn: those of every group but the `''` one, in group
      order. */
  function DrawnItems(tree: Dict<Leaf>): seq<PaletteItem>
    requires tree.Valid()
  {
    DrawnFrom(tree, |tree.keys|)
  }

  function DrawnFrom(tree: Dict<Leaf>, n: nat): (items: seq<PaletteItem>)
    requires tree.Valid() && n <= |tree.keys|
  {
    if n == 0 then []
    else if tree.keys[n - 1] == "" then DrawnFrom(tree, n - 1)
    else DrawnFrom(tree, n - 1) + tree.entries[tree.keys[n - 1]].items
  }

  /** An item is drawn exactly when some group other than `''` holds it. */
  lemma {:induction false} DrawnFromGroups(tree: Dict<Leaf>, n: nat, x: PaletteItem)
    requires tree.Valid() && n <= |tree.keys|
    ensures x in DrawnFrom(tree, n) <==>
              exists i :: 0 <= i < n && tree.keys[i] != "" && x in tree.entries[tree.keys[i]].items
  {
    if n > 0 {
      DrawnFromGroups(tree, n - 1, x);
      var k := tree.keys[n - 1];
      if k != "" && x in tree.entries[k].items {
        assert 0 <= n - 1 < n && tree.keys[n - 1] != "" && x in tree.entries[tree.keys[n - 1]].items;
      }
    }
  }

  /** `items.length > 300 ? items.length > 2000 ? 1 : 2 : 4`. */
  function Padding(count: nat): nat {
    if count > 300 then (if count > 2000 then 1 else 2) else 4
  }

  /** The padding is one of 4, 2 and 1 and never grows with the number of
      items. */
  lemma PaddingShrinks(m: nat, n: nat)
    requires m <= n
    ensures Padding(n) <= Padding(m)
    ensures Padding(n) in {1, 2, 4}
    ensures Padding(n) == 4 <==> n <= 300
    ensures Padding(n) == 1 <==> n > 2000
  {
  }
}
