/** The sidebar palette: it groups the items of the dataset by the value of
    the chosen grouping property, lists every property seen so that the user
    can pick another one to group by, and draws each item as a circle with
    its initials. */
module Palette {
  import opened Wrappers
  import opened Text
  import opened Dict
  import opened FirstSeen
  import opened PaletteRules
  import opened LabelSort
  import opened Grouping

  // ---------------------------------------------------------------------
  // Classifying one item

  /** `props.filter(p => p.value === v)[0]`. */
  function FirstProperty(props: seq<Property>, v: string): (p: Option<Property>)
    ensures p.Some? <==> exists i :: 0 <= i < |props| && props[i].value == v
    ensures p.Some? ==> p.value.value == v && p.value in props
  {
    if props == [] then None
    else if props[0].value == v then Some(props[0])
    else FirstProperty(props[1..], v)
  }

  /** `filter(...)[0].values[0].value` when the property and its first value
      both exist. */
  function FirstValue(props: seq<Property>, v: string): Option<Node> {
    match FirstProperty(props, v)
    case None => None
    case Some(p) => if |p.values| > 0 then Some(p.values[0]) else None
  }

  /** Where `mergeItems` puts an item when it has both a value of the grouping
      property and a type: under the grouping value, with the item's group
      and type filled in. */
  function PlacementOf(item: PaletteItem, groupingValue: string): Option<Placement> {
    match (FirstValue(item.localProperties, groupingValue), FirstValue(item.localProperties, RdfType))
    case (Some(g), Some(t)) =>
      Some(Placement(g.value, g.labelText, item.(groupValue := g.value, groupLabel := g.labelText, typeValue := t.value)))
    case _ => None
  }

  /** The item as `mergeItems` leaves it. */
  function Classified(item: PaletteItem, groupingValue: string): (c: PaletteItem)
    ensures c.value == item.value && c.labelText == item.labelText && c.localProperties == item.localProperties
    ensures c.typeLabel == item.typeLabel
  {
    match PlacementOf(item, groupingValue)
    case Some(p) => p.item
    case None => item.(groupValue := "", groupLabel := NoTypeDefined, typeValue := "")
  }

  /** Placed items carry their group and type; the others are marked as
      having no type. Either way the classification only depends on the
      properties, so classifying twice changes nothing. */
  lemma ClassifiedFields(item: PaletteItem, groupingValue: string)
    ensures var c := Classified(item, groupingValue);
            var g := FirstValue(item.localProperties, groupingValue);
            var t := FirstValue(item.localProperties, RdfType);
            && (g.Some? && t.Some? ==>
                  PlacementOf(item, groupingValue) == Some(Placement(g.value.value, g.value.labelText, c))
                  && c.groupValue == g.value.value && c.groupLabel == g.value.labelText && c.typeValue == t.value.value)
            && (g.None? || t.None? ==>
                  PlacementOf(item, groupingValue) == None
                  && c.groupValue == "" && c.groupLabel == NoTypeDefined && c.typeValue == "")
    ensures PlacementOf(Classified(item, groupingValue), groupingValue) == PlacementOf(item, groupingValue)
    ensures Classified(Classified(item, groupingValue), groupingValue) == Classified(item, groupingValue)
  {
  }

  function Placements(items: seq<PaletteItem>, groupingValue: string): (ps: seq<Option<Placement>>)
    ensures |ps| == |items|
    ensures forall i :: 0 <= i < |items| ==> ps[i] == PlacementOf(items[i], groupingValue)
  {
    seq(|items|, i requires 0 <= i < |items| => PlacementOf(items[i], groupingValue))
  }

  function ClassifiedAll(items: seq<PaletteItem>, groupingValue: string): (cs: seq<PaletteItem>)
    ensures |cs| == |items|
    ensures forall i :: 0 <= i < |items| ==> cs[i] == Classified(items[i], groupingValue)
  {
    seq(|items|, i requires 0 <= i < |items| => Classified(items[i], groupingValue))
  }

  /** The tree `mergeItems` returns for these items. */
  function MergedTree(items: seq<PaletteItem>, groupingValue: string): Dict<Leaf> {
    SortedGroups(GroupAll(Empty(), Placements(items, groupingValue), |items|))
  }

  /** The merged tree has a group for exactly the grouping values of placed
      items, in the order they first occur; each group is open, headed by the
      group label of its first item, and holds exactly the items placed under
      it, sorted by label. */
  lemma MergedTreeGroups(items: seq<PaletteItem>, groupingValue: string, g: string)
    ensures var ps := Placements(items, groupingValue);
            var tree := MergedTree(items, groupingValue);
            && tree.Valid()
            && tree.keys == Gather([], PlacedKeys(ps, |items|))
            && (g in tree.entries <==> Under(ps, |items|, g) != [])
            && (g in tree.entries ==>
                  && tree.entries[g].labelText == FirstHeading(ps, |items|, g)
                  && tree.entries[g].expanded
                  && SortedByLabel(tree.entries[g].items)
                  && multiset(tree.entries[g].items) == multiset(Under(ps, |items|, g)))
  {
    var ps := Placements(items, groupingValue);
    var e: Dict<Leaf> := Empty();
    GroupAllKeys(e, ps, |items|);
    GroupAllEntry(e, ps, |items|, g);
    SortedGroupsSorted(GroupAll(e, ps, |items|), g);
  }

  /** A placed item goes under its group value, heading a new group with its
      group label, as its classified self. */
  lemma PlacedAsClassified(item: PaletteItem, groupingValue: string)
    requires PlacementOf(item, groupingValue).Some?
    ensures var p := PlacementOf(item, groupingValue).value;
            var c := Classified(item, groupingValue);
            p.item == c && p.key == c.groupValue && p.heading == c.groupLabel
  {
  }

  /** An item is under `g` exactly when it is placed and its grouping value
      is `g`. */
  lemma UnderMeans(items: seq<PaletteItem>, groupingValue: string, g: string, x: PaletteItem)
    ensures x in Under(Placements(items, groupingValue), |items|, g) <==>
              exists i :: 0 <= i < |items| && PlacementOf(items[i], groupingValue).Some?
                          && Classified(items[i], groupingValue) == x && x.groupValue == g
  {
    var ps := Placements(items, groupingValue);
    UnderMembers(ps, |items|, g, x);
    forall i | 0 <= i < |items| && ps[i].Some?
      ensures ps[i].value.item == Classified(items[i], groupingValue)
      ensures ps[i].value.key == Classified(items[i], groupingValue).groupValue
    {
      PlacedAsClassified(items[i], groupingValue);
    }
  }

  /** Merging the items `mergeItems` has already classified gives the same
      placements, so `rebuild` after `query` redraws the same tree. */
  lemma RemergeSame(items: seq<PaletteItem>, groupingValue: string)
    ensures Placements(ClassifiedAll(items, groupingValue), groupingValue) == Placements(items, groupingValue)
    ensures MergedTree(ClassifiedAll(items, groupingValue), groupingValue) == MergedTree(items, groupingValue)
  {
    forall i | 0 <= i < |items|
      ensures PlacementOf(ClassifiedAll(items, groupingValue)[i], groupingValue) == PlacementOf(items[i], groupingValue)
    {
      ClassifiedFields(items[i], groupingValue);
    }
    assert Placements(ClassifiedAll(items, groupingValue), groupingValue) == Placements(items, groupingValue);
  }

  // ---------------------------------------------------------------------
  // The grouping properties

  function NodeValues(ns: seq<Node>): (vs: seq<string>)
    ensures |vs| == |ns|
    ensures forall i :: 0 <= i < |ns| ==> vs[i] == ns[i].value
  {
    seq(|ns|, i requires 0 <= i < |ns| => ns[i].value)
  }

  function PropertyValues(ps: seq<Property>): (vs: seq<string>)
    ensures |vs| == |ps|
    ensures forall i :: 0 <= i < |ps| ==> vs[i] == ps[i].value
  {
    seq(|ps|, i requires 0 <= i < |ps| => ps[i].value)
  }

  /** `if (groupingValues.indexOf(p.value) === -1)` push `{value, label}`. */
  function AddProperty(kept: seq<Node>, p: Property): seq<Node> {
    if p.value in NodeValues(kept) then kept else kept + [Node(p.value, p.labelText)]
  }

  function GatherProperties(kept: seq<Node>, ps: seq<Property>): seq<Node> {
    if ps == [] then kept else AddProperty(GatherProperties(kept, ps[..|ps| - 1]), ps[|ps| - 1])
  }

  /** The local properties of the items, items in order. */
  function AllProperties(items: seq<PaletteItem>): seq<Property> {
    if items == [] then [] else AllProperties(items[..|items| - 1]) + items[|items| - 1].localProperties
  }

  lemma GatherPropertiesSnoc(ps: seq<Property>, p: Property)
    ensures GatherProperties([], ps + [p]) == AddProperty(GatherProperties([], ps), p)
  {
    assert (ps + [p])[..|ps|] == ps;
  }

  lemma AllPropertiesNext(items: seq<PaletteItem>, i: nat)
    requires i < |items|
    ensures AllProperties(items[..i + 1]) == AllProperties(items[..i]) + items[i].localProperties
  {
    assert items[..i + 1][..i] == items[..i];
  }

  lemma {:induction false} GatheredValues(ps: seq<Property>)
    ensures NodeValues(GatherProperties([], ps)) == Gather([], PropertyValues(ps))
  {
    if ps != [] {
      var init := ps[..|ps| - 1];
      var p := ps[|ps| - 1];
      GatheredValues(init);
      assert PropertyValues(ps) == PropertyValues(init) + [p.value];
      GatherSnoc([], PropertyValues(init), p.value);
      var before := GatherProperties([], init);
      if p.value !in NodeValues(before) {
        assert NodeValues(before + [Node(p.value, p.labelText)]) == NodeValues(before) + [p.value];
      }
    }
  }

  /** `n` carries the label of the first of `ps` with its value. */
  predicate LabelledAsFirst(n: Node, ps: seq<Property>) {
    match FirstProperty(ps, n.value)
    case None => false
    case Some(p) => p.labelText == n.labelText
  }

  lemma {:induction false} GatheredLabels(ps: seq<Property>)
    ensures forall k :: 0 <= k < |GatherProperties([], ps)| ==> LabelledAsFirst(GatherProperties([], ps)[k], ps)
  {
    if ps != [] {
      var init := ps[..|ps| - 1];
      var p := ps[|ps| - 1];
      assert ps == init + [p];
      GatheredLabels(init);
      GatheredValues(init);
      GatherMembers([], PropertyValues(init));
      var before := GatherProperties([], init);
      var r := GatherProperties([], ps);
      forall k | 0 <= k < |r|
        ensures LabelledAsFirst(r[k], ps)
      {
        if k < |before| {
          assert r[k] == before[k] && NodeValues(before)[k] == before[k].value;
          FirstPropertyOfPrefix(init, p, before[k].value);
        } else {
          FirstPropertyOfPrefix(init, p, p.value);
        }
      }
    }
  }

  /** The grouping properties offered list every property value of the items
      exactly once, in the order first seen (items in order, then each item's
      properties in order), each with the label of the first property
      carrying that value. */
  lemma GroupingPropertiesListed(items: seq<PaletteItem>)
    ensures var all := AllProperties(items);
            var props := GatherProperties([], all);
            && NoDuplicates(NodeValues(props))
            && (forall v :: v in NodeValues(props) <==> v in PropertyValues(all))
            && InFirstOrder(NodeValues(props), PropertyValues(all))
            && forall k :: 0 <= k < |props| ==> LabelledAsFirst(props[k], all)
  {
    var all := AllProperties(items);
    GatheredValues(all);
    GatherMembers([], PropertyValues(all));
    GatherOrder(PropertyValues(all));
    GatheredLabels(all);
  }

  lemma FirstPropertyOfPrefix(init: seq<Property>, p: Property, v: string)
    ensures v in PropertyValues(init) ==> FirstProperty(init + [p], v) == FirstProperty(init, v)
    ensures v !in PropertyValues(init) && v == p.value ==> FirstProperty(init + [p], v) == Some(p)
  {
    if init != [] {
      assert (init + [p])[1..] == init[1..] + [p];
      FirstPropertyOfPrefix(init[1..], p, v);
      if init[0].value != v {
        assert v in PropertyValues(init) ==> v in PropertyValues(init[1..]);
      }
    }
  }

  // ---------------------------------------------------------------------
  // The initials drawn on a circle

  /** The outcome of JavaScript's `+` on two characters, either of which may
      be `undefined` (an index past the end). */
  datatype Sum = Concatenated(text: string) | NotANumber

  function CharAt(s: string, i: nat): Option<char> {
    if i < |s| then Some(s[i]) else None
  }

  /** `undefined` turns into the text "undefined" next to a string; two
      `undefined`s add up to `NaN`. */
  function Plus(a: Option<char>, b: Option<char>): Sum {
    match (a, b)
    case (Some(x), Some(y)) => Concatenated([x, y])
    case (Some(x), None) => Concatenated([x] + "undefined")
    case (None, Some(y)) => Concatenated("undefined" + [y])
    case (None, None) => NotANumber
  }

  /** The text of a circle: for a label of several space-separated words the
      upper-cased first letters of the first two, otherwise the first two
      characters. `NaN` has no `toUpperCase`, so the first case throws when
      both first letters are missing; in the second it is drawn as "NaN". */
  function Initials(caption: string): Result<string> {
    var words := Split(caption, ' ');
    if |words| > 1 then
      match Plus(CharAt(words[0], 0), CharAt(words[1], 0))
      case Concatenated(text) => Ok(Upper(text))
      case NotANumber => Error("TypeError: toUpperCase is not a function")
    else
      match Plus(CharAt(caption, 0), CharAt(caption, 1))
      case Concatenated(text) => Ok(text)
      case NotANumber => Ok("NaN")
  }

  /** Two or more words give the upper-cased first letters of the first two. */
  lemma InitialsOfWords(first: string, second: string, rest: seq<string>)
    requires first != [] && second != [] && ' ' !in first && ' ' !in second
    requires forall i :: 0 <= i < |rest| ==> ' ' !in rest[i]
    ensures Initials(Join([first, second] + rest, " ")) == Ok([UpperChar(first[0]), UpperChar(second[0])])
  {
    var ws := [first, second] + rest;
    WordsWithoutSpaces(first, second, rest);
    SplitJoinedWords(ws);
    InitialsOfSplit(Join(ws, " "), ws);
  }

  lemma WordsWithoutSpaces(first: string, second: string, rest: seq<string>)
    requires ' ' !in first && ' ' !in second
    requires forall i :: 0 <= i < |rest| ==> ' ' !in rest[i]
    ensures var ws := [first, second] + rest;
            |ws| >= 2 && ws[0] == first && ws[1] == second && forall i :: 0 <= i < |ws| ==> ' ' !in ws[i]
  {
    var ws := [first, second] + rest;
    forall i | 0 <= i < |ws|
      ensures ' ' !in ws[i]
    {
      if i >= 2 {
        assert ws[i] == rest[i - 2];
      }
    }
  }

  lemma SplitJoinedWords(ws: seq<string>)
    requires |ws| >= 1 && forall i :: 0 <= i < |ws| ==> ' ' !in ws[i]
    ensures Split(Join(ws, " "), ' ') == ws
  {
    SplitJoin(ws, ' ');
    assert [' '] == " ";
  }

  lemma InitialsOfSplit(caption: string, words: seq<string>)
    requires Split(caption, ' ') == words && |words| > 1 && words[0] != [] && words[1] != []
    ensures Initials(caption) == Ok([UpperChar(words[0][0]), UpperChar(words[1][0])])
  {
    var pair := [words[0][0], words[1][0]];
    assert Plus(CharAt(words[0], 0), CharAt(words[1], 0)) == Concatenated(pair);
    assert Upper(pair) == [UpperChar(pair[0]), UpperChar(pair[1])];
  }

  /** One word of at least two letters gives its first two, as they are. */
  lemma InitialsOfWord(word: string)
    requires |word| >= 2 && ' ' !in word
    ensures Initials(word) == Ok(word[..2])
  {
    SplitSingle(word, ' ');
    assert [word[0], word[1]] == word[..2];
  }

  lemma SplitFirstEmpty(s: string, c: char)
    ensures Split(s, c)[0] == "" <==> s == [] || s[0] == c
  {
  }

  /** The initials fail exactly for a label that is one space or starts with
      two spaces: then both words before and after the first space are
      empty. */
  lemma InitialsFail(caption: string)
    ensures Initials(caption).Error? <==> |caption| >= 1 && caption[0] == ' ' && (|caption| == 1 || caption[1] == ' ')
  {
    var words := Split(caption, ' ');
    SplitFirstEmpty(caption, ' ');
    if |caption| >= 1 && caption[0] == ' ' {
      SplitFirstEmpty(caption[1..], ' ');
      assert words == [""] + Split(caption[1..], ' ');
    }
  }

  // ---------------------------------------------------------------------
  // The controller

  class PaletteController {
    /** The groups drawn, keyed by grouping value. */
    var typeItemTree: Dict<Leaf>
    /** `groupingProp.value`: the property the items are grouped by. */
    var groupingValue: string
    /** The properties offered for grouping. */
    var groupingProps: seq<Node>
    /** The items of the last query, as `mergeItems` left them. */
    var paletteItems: seq<PaletteItem>
    var labelFilter: string

    /** Grouping by type; the tree starts with the closed `''` group. */
    constructor()
      ensures typeItemTree == Dict([""], map["" := Leaf(NoTypeDefined, [], false)])
      ensures groupingValue == RdfType && groupingProps == [] && paletteItems == [] && labelFilter == ""
    {
      typeItemTree := Dict([""], map["" := Leaf(NoTypeDefined, [], false)]);
      groupingValue := RdfType;
      groupingProps := [];
      paletteItems := [];
      labelFilter := "";
    }

    /** `mergeItems(oldItems, newItems)`: regroup from an empty tree, collect
      the grouping properties, sort each group. The classified items are
      what the source leaves in `newItems`. */
    method MergeItems(newItems: seq<PaletteItem>) returns (tree: Dict<Leaf>, classified: seq<PaletteItem>)
      modifies this`typeItemTree, this`groupingProps
      ensures tree == typeItemTree == MergedTree(newItems, groupingValue)
      ensures groupingProps == GatherProperties([], AllProperties(newItems))
      ensures classified == ClassifiedAll(newItems, groupingValue)
    {
      var ps := Placements(newItems, groupingValue);
      typeItemTree := Empty();
      var groupingValues: seq<string> := [];
      groupingProps := [];
      classified := [];
      var i := 0;
      while i < |newItems|
        invariant 0 <= i <= |newItems|
        invariant typeItemTree == GroupAll(Empty(), ps, i)
        invariant groupingProps == GatherProperties([], AllProperties(newItems[..i]))
        invariant groupingValues == NodeValues(groupingProps)
        invariant |classified| == i
        invariant forall k :: 0 <= k < i ==> classified[k] == Classified(newItems[k], groupingValue)
      {
        var item := newItems[i];
        assert ps[i] == PlacementOf(item, groupingValue);
        PlaceItem(item);
        classified := classified + [Classified(item, groupingValue)];
        groupingValues := CollectProperties(item.localProperties, groupingValues, AllProperties(newItems[..i]));
        AllPropertiesNext(newItems, i);
        i := i + 1;
      }
      assert newItems[..i] == newItems;
      GroupAllKeys(Empty(), ps, i);
      typeItemTree := SortGroups(typeItemTree);
      tree := typeItemTree;
    }

    /** Fill in the item's group and type and add it to its group, when it
        has both. */
    method PlaceItem(item: PaletteItem)
      modifies this`typeItemTree
      ensures PlacementOf(item, groupingValue).Some? ==>
                typeItemTree == AddToGroup(old(typeItemTree), PlacementOf(item, groupingValue).value)
      ensures PlacementOf(item, groupingValue).None? ==> typeItemTree == old(typeItemTree)
    {
      match PlacementOf(item, groupingValue) {
        case Some(p) => typeItemTree := AddToGroup(typeItemTree, p);
        case None =>
      }
    }

    /** The inner `forEach` over one item's properties. */
    method CollectProperties(props: seq<Property>, groupingValues: seq<string>, ghost seen: seq<Property>)
      returns (values: seq<string>)
      requires groupingProps == GatherProperties([], seen) && groupingValues == NodeValues(groupingProps)
      modifies this`groupingProps
      ensures groupingProps == GatherProperties([], seen + props) && values == NodeValues(groupingProps)
    {
      values := groupingValues;
      var j := 0;
      assert seen + props[..0] == seen;
      while j < |props|
        invariant 0 <= j <= |props|
        invariant groupingProps == GatherProperties([], seen + props[..j]) && values == NodeValues(groupingProps)
      {
        var p := props[j];
        if p.value !in values {
          values := values + [p.value];
          groupingProps := groupingProps + [Node(p.value, p.labelText)];
        }
        assert seen + props[..j + 1] == (seen + props[..j]) + [p];
        GatherPropertiesSnoc(seen + props[..j], p);
        j := j + 1;
      }
      assert props[..j] == props;
    }

    /** `query()` once the items are fetched: merge them and keep them, as
        `mergeItems` left them (it classifies the item objects in place). */
    method Query(items: seq<PaletteItem>) returns (tree: Dict<Leaf>)
      modifies this`typeItemTree, this`groupingProps, this`paletteItems
      ensures tree == typeItemTree == MergedTree(items, groupingValue)
      ensures groupingProps == GatherProperties([], AllProperties(items))
      ensures paletteItems == ClassifiedAll(items, groupingValue)
    {
      var classified;
      tree, classified := MergeItems(items);
      paletteItems := classified;
    }

    /** `rebuild()`: merge the kept items again, classifying them again in
        place. */
    method Rebuild()
      modifies this`typeItemTree, this`groupingProps, this`paletteItems
      ensures typeItemTree == MergedTree(old(paletteItems), groupingValue)
      ensures groupingProps == GatherProperties([], AllProperties(old(paletteItems)))
      ensures paletteItems == ClassifiedAll(old(paletteItems), groupingValue)
    {
      var tree, classified := MergeItems(paletteItems);
      paletteItems := classified;
    }
  }
}
