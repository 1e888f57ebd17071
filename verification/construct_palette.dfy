/** The palette of the construct view: it groups the items by their type,
    keeping the groups it already has (their headings and whether they are
    open) and refilling them. */
module ConstructPalette {
  import opened Wrappers
  import opened Dict
  import opened FirstSeen
  import opened PaletteRules
  import opened LabelSort
  import opened Grouping
  import Palette

  /** Where `mergeItems` puts an item that has a type: under the type, with
      the item's type and its label filled in. */
  function PlacementOf(item: PaletteItem): Option<Placement> {
    match Palette.FirstValue(item.localProperties, RdfType)
    case Some(t) => Some(Placement(t.value, t.labelText, item.(typeValue := t.value, typeLabel := t.labelText)))
    case None => None
  }

  /** The item as `mergeItems` leaves it: an item without a type is marked as
      such (and is put in no group). */
  function Classified(item: PaletteItem): (c: PaletteItem)
    ensures c.value == item.value && c.labelText == item.labelText && c.localProperties == item.localProperties
    ensures c.groupValue == item.groupValue && c.groupLabel == item.groupLabel
  {
    match PlacementOf(item)
    case Some(p) => p.item
    case None => item.(typeValue := "", typeLabel := NoTypeDefined)
  }

  /** A typed item goes under its type value, heading a new group with its
      type label; an untyped one is marked `''`, "No type defined". */
  lemma ClassifiedByType(item: PaletteItem)
    ensures PlacementOf(item).Some? ==>
              var p := PlacementOf(item).value;
              p.item == Classified(item) && p.key == Classified(item).typeValue && p.heading == Classified(item).typeLabel
    ensures PlacementOf(item).None? ==> Classified(item).typeValue == "" && Classified(item).typeLabel == NoTypeDefined
    ensures PlacementOf(item).Some? <==> Palette.FirstValue(item.localProperties, RdfType).Some?
  {
  }

  function Placements(items: seq<PaletteItem>): (ps: seq<Option<Placement>>)
    ensures |ps| == |items|
    ensures forall i :: 0 <= i < |items| ==> ps[i] == PlacementOf(items[i])
  {
    seq(|items|, i requires 0 <= i < |items| => PlacementOf(items[i]))
  }

  /** `tree.values().forEach(v => v.items = [])`. */
  function Emptied(tree: Dict<Leaf>): Dict<Leaf> {
    Dict(tree.keys, map k | k in tree.entries :: tree.entries[k].(items := []))
  }

  /** The tree `mergeItems` leaves, starting from `tree`. */
  function MergedTree(tree: Dict<Leaf>, items: seq<PaletteItem>): Dict<Leaf> {
    SortedGroups(GroupAll(Emptied(tree), Placements(items), |items|))
  }

  /** The merged tree keeps every group it had, with its heading and open
      state, and adds a group for each type first seen among the items, after
      the old ones, open and headed by its first item's type label; every
      group holds exactly the items of its type, sorted by label. The `''`
      group is kept but untyped items are not put in it. */
  lemma MergedTreeGroups(tree: Dict<Leaf>, items: seq<PaletteItem>, g: string)
    requires tree.Valid()
    ensures var ps := Placements(items);
            var merged := MergedTree(tree, items);
            && merged.Valid()
            && merged.keys == Gather(tree.keys, PlacedKeys(ps, |items|))
            && (g in merged.entries <==> g in tree.entries || Under(ps, |items|, g) != [])
            && (g in merged.entries ==>
                  && SortedByLabel(merged.entries[g].items)
                  && multiset(merged.entries[g].items) == multiset(Under(ps, |items|, g)))
            && (g in tree.entries ==>
                  merged.entries[g].labelText == tree.entries[g].labelText
                  && merged.entries[g].expanded == tree.entries[g].expanded)
            && (g !in tree.entries && g in merged.entries ==>
                  merged.entries[g].labelText == FirstHeading(ps, |items|, g) && merged.entries[g].expanded)
  {
    var ps := Placements(items);
    var start := Emptied(tree);
    EmptiedValid(tree);
    GroupAllKeys(start, ps, |items|);
    GroupAllEntry(start, ps, |items|, g);
    SortedGroupsSorted(GroupAll(start, ps, |items|), g);
  }

  /** An item is in the group of `g` exactly when it has a type and its type
      value is `g`. */
  lemma UnderMeans(items: seq<PaletteItem>, g: string, x: PaletteItem)
    ensures x in Under(Placements(items), |items|, g) <==>
              exists i :: 0 <= i < |items| && PlacementOf(items[i]).Some? && Classified(items[i]) == x && x.typeValue == g
  {
    var ps := Placements(items);
    UnderMembers(ps, |items|, g, x);
    forall i | 0 <= i < |items| && ps[i].Some?
      ensures ps[i].value.item == Classified(items[i]) && ps[i].value.key == Classified(items[i]).typeValue
    {
      ClassifiedByType(items[i]);
    }
  }

  lemma EmptiedValid(tree: Dict<Leaf>)
    requires tree.Valid()
    ensures Emptied(tree).Valid() && Emptied(tree).keys == tree.keys
  {
  }

  /** Group `g` of the merged tree, exactly: an old group keeps its heading
      and state and holds its type's items sorted; a new one is open and
      headed by its first item's type label. */
  lemma MergedEntry(tree: Dict<Leaf>, items: seq<PaletteItem>, g: string)
    ensures var ps := Placements(items);
            var merged := MergedTree(tree, items);
            var under := Under(ps, |items|, g);
            && (g in merged.entries <==> g in tree.entries || under != [])
            && (g in tree.entries ==> merged.entries[g] == tree.entries[g].(items := SortByLabel(under)))
            && (g !in tree.entries && under != [] ==>
                  merged.entries[g] == Leaf(FirstHeading(ps, |items|, g), SortByLabel(under), true))
  {
    var ps := Placements(items);
    GroupAllEntry(Emptied(tree), ps, |items|, g);
    assert [] + Under(ps, |items|, g) == Under(ps, |items|, g);
  }

  lemma MergeTwiceKeys(tree: Dict<Leaf>, items: seq<PaletteItem>)
    requires tree.Valid()
    ensures MergedTree(MergedTree(tree, items), items).keys == MergedTree(tree, items).keys
  {
    var ps := Placements(items);
    var once := MergedTree(tree, items);
    EmptiedValid(tree);
    GroupAllKeys(Emptied(tree), ps, |items|);
    GatherMembers(tree.keys, PlacedKeys(ps, |items|));
    GatherAbsorbs(once.keys, PlacedKeys(ps, |items|));
    GroupAllKeys(Emptied(once), ps, |items|);
  }

  lemma MergeTwiceEntry(tree: Dict<Leaf>, items: seq<PaletteItem>, g: string)
    ensures var once := MergedTree(tree, items);
            var twice := MergedTree(once, items);
            && (g in twice.entries <==> g in once.entries)
            && (g in once.entries ==> twice.entries[g] == once.entries[g])
  {
    MergedEntry(tree, items, g);
    MergedEntry(MergedTree(tree, items), items, g);
  }

  /** Merging the same items again changes nothing: the groups are emptied
      before they are refilled, and the headings and open states are kept. */
  lemma MergeTwiceSame(tree: Dict<Leaf>, items: seq<PaletteItem>)
    requires tree.Valid()
    ensures MergedTree(MergedTree(tree, items), items) == MergedTree(tree, items)
  {
    var once := MergedTree(tree, items);
    var twice := MergedTree(once, items);
    MergeTwiceKeys(tree, items);
    forall g
      ensures g in twice.entries <==> g in once.entries
      ensures g in once.entries ==> twice.entries[g] == once.entries[g]
    {
      MergeTwiceEntry(tree, items, g);
    }
    assert twice.entries == once.entries;
  }

  class ConstructPaletteController {
    /** The groups drawn, keyed by type. */
    var typeItemTree: Dict<Leaf>
    var labelFilter: string

    ghost predicate Valid()
      reads this
    {
      typeItemTree.Valid()
    }

    /** The tree starts with the closed `''` group. */
    constructor()
      ensures Valid()
      ensures typeItemTree == Dict([""], map["" := Leaf(NoTypeDefined, [], false)]) && labelFilter == ""
    {
      typeItemTree := Dict([""], map["" := Leaf(NoTypeDefined, [], false)]);
      labelFilter := "";
    }

    /** `mergeItems(oldItems, newItems)`: empty every group, regroup the items
      by type, sort each group. The classified items are what the source
      leaves in `newItems`. */
    method MergeItems(newItems: seq<PaletteItem>) returns (tree: Dict<Leaf>, classified: seq<PaletteItem>)
      requires Valid()
      modifies this`typeItemTree
      ensures Valid()
      ensures tree == typeItemTree == MergedTree(old(typeItemTree), newItems)
      ensures |classified| == |newItems|
      ensures forall i :: 0 <= i < |newItems| ==> classified[i] == Classified(newItems[i])
    {
      ghost var start := Emptied(typeItemTree);
      EmptiedValid(typeItemTree);
      EmptyGroups();
      classified := PlaceAll(newItems);
      GroupAllKeys(start, Placements(newItems), |newItems|);
      SortedGroupsValid(typeItemTree);
      typeItemTree := SortGroups(typeItemTree);
      tree := typeItemTree;
    }

    /** The second `forEach`: each item in turn is classified and, when it has
        a type, added to its group. */
    method PlaceAll(newItems: seq<PaletteItem>) returns (classified: seq<PaletteItem>)
      modifies this`typeItemTree
      ensures typeItemTree == GroupAll(old(typeItemTree), Placements(newItems), |newItems|)
      ensures |classified| == |newItems|
      ensures forall i :: 0 <= i < |newItems| ==> classified[i] == Classified(newItems[i])
    {
      var ps := Placements(newItems);
      classified := [];
      var i := 0;
      while i < |newItems|
        invariant 0 <= i <= |newItems|
        invariant typeItemTree == GroupAll(old(typeItemTree), ps, i)
        invariant |classified| == i
        invariant forall k :: 0 <= k < i ==> classified[k] == Classified(newItems[k])
      {
        var item := newItems[i];
        assert ps[i] == PlacementOf(item);
        PlaceItem(item);
        classified := classified + [Classified(item)];
        i := i + 1;
      }
    }

    /** The first `forEach`: every group loses its items. */
    method EmptyGroups()
      requires Valid()
      modifies this`typeItemTree
      ensures typeItemTree == Emptied(old(typeItemTree))
    {
      var i := 0;
      while i < |typeItemTree.keys|
        invariant 0 <= i <= |typeItemTree.keys|
        invariant typeItemTree.keys == old(typeItemTree.keys) && typeItemTree.entries.Keys == old(typeItemTree.entries.Keys)
        invariant forall k :: k in typeItemTree.entries ==>
                    typeItemTree.entries[k] == if k in typeItemTree.keys[..i] then Emptied(old(typeItemTree)).entries[k] else old(typeItemTree.entries[k])
      {
        var k := typeItemTree.keys[i];
        typeItemTree := typeItemTree.Set(k, typeItemTree.entries[k].(items := []));
        assert typeItemTree.keys[..i + 1] == typeItemTree.keys[..i] + [k];
        i := i + 1;
      }
      assert typeItemTree.keys[..i] == typeItemTree.keys;
    }

    /** Fill in the item's type and add it to its group, when it has one. */
    method PlaceItem(item: PaletteItem)
      modifies this`typeItemTree
      ensures PlacementOf(item).Some? ==> typeItemTree == AddToGroup(old(typeItemTree), PlacementOf(item).value)
      ensures PlacementOf(item).None? ==> typeItemTree == old(typeItemTree)
    {
      match PlacementOf(item) {
        case Some(p) => typeItemTree := AddToGroup(typeItemTree, p);
        case None =>
      }
    }
  }
}
