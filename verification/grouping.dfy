/** The grouping both palettes' `mergeItems` perform on a `d3.map` of
    groups: each placed item is appended to the group of its key, and the
    first item of a key that is not yet in the map creates the group, open,
    with the item's heading. Afterwards every group is sorted by label. */
module Grouping {
  import opened Wrappers
  import opened Dict
  import opened FirstSeen
  import opened PaletteRules
  import opened LabelSort

  /** Where an item goes: under `key`, and if it opens the group, with
      `heading` as the group's label. */
  datatype Placement = Placement(key: string, heading: string, item: PaletteItem)

  /** `tree.has(key) ? tree.get(key).items.push(item) : tree.set(key, {label: heading, items: [item], expanded: true})`. */
  function AddToGroup(tree: Dict<Leaf>, p: Placement): Dict<Leaf> {
    if p.key in tree.entries then
      tree.Set(p.key, tree.entries[p.key].(items := tree.entries[p.key].items + [p.item]))
    else
      tree.Set(p.key, Leaf(p.heading, [p.item], true))
  }

  /** The tree after the first `n` items, of which those with a placement are
      added. */
  function GroupAll(tree: Dict<Leaf>, ps: seq<Option<Placement>>, n: nat): Dict<Leaf>
    requires n <= |ps|
  {
    if n == 0 then tree
    else if ps[n - 1].None? then GroupAll(tree, ps, n - 1)
    else AddToGroup(GroupAll(tree, ps, n - 1), ps[n - 1].value)
  }

  /** The items the first `n` placements put under `g`, in order. */
  function Under(ps: seq<Option<Placement>>, n: nat, g: string): seq<PaletteItem>
    requires n <= |ps|
  {
    if n == 0 then []
    else if ps[n - 1].Some? && ps[n - 1].value.key == g then Under(ps, n - 1, g) + [ps[n - 1].value.item]
    else Under(ps, n - 1, g)
  }

  /** The heading of the first placement under `g`; `""` when there is none. */
  function FirstHeading(ps: seq<Option<Placement>>, n: nat, g: string): string
    requires n <= |ps|
  {
    if n == 0 then ""
    else if Under(ps, n - 1, g) != [] then FirstHeading(ps, n - 1, g)
    else if ps[n - 1].Some? && ps[n - 1].value.key == g then ps[n - 1].value.heading
    else ""
  }

  /** The keys of the first `n` placements, in order, repeats included. */
  function PlacedKeys(ps: seq<Option<Placement>>, n: nat): (keys: seq<string>)
    requires n <= |ps|
    ensures forall g :: g in keys <==> Under(ps, n, g) != []
  {
    if n == 0 then []
    else if ps[n - 1].Some? then PlacedKeys(ps, n - 1) + [ps[n - 1].value.key]
    else PlacedKeys(ps, n - 1)
  }

  /** An item is under `g` exactly when some placement puts it there. */
  lemma {:induction false} UnderMembers(ps: seq<Option<Placement>>, n: nat, g: string, x: PaletteItem)
    requires n <= |ps|
    ensures x in Under(ps, n, g) <==> exists i :: 0 <= i < n && ps[i].Some? && ps[i].value.key == g && ps[i].value.item == x
  {
    if n > 0 {
      UnderMembers(ps, n - 1, g, x);
      if ps[n - 1].Some? && ps[n - 1].value.key == g && ps[n - 1].value.item == x {
        assert 0 <= n - 1 < n;
      }
    }
  }

  /** The groups end up, for every key, as the group already there with the
      newly placed items appended, or as a new open group headed by its first
      item's heading holding exactly the items placed under it. */
  lemma {:induction false} GroupAllEntry(tree: Dict<Leaf>, ps: seq<Option<Placement>>, n: nat, g: string)
    requires n <= |ps|
    ensures var r := GroupAll(tree, ps, n);
            && (g in r.entries <==> g in tree.entries || Under(ps, n, g) != [])
            && (g in tree.entries ==> r.entries[g] == tree.entries[g].(items := tree.entries[g].items + Under(ps, n, g)))
            && (g !in tree.entries && Under(ps, n, g) != [] ==> r.entries[g] == Leaf(FirstHeading(ps, n, g), Under(ps, n, g), true))
  {
    if n > 0 {
      GroupAllEntry(tree, ps, n - 1, g);
      if ps[n - 1].Some? && ps[n - 1].value.key == g && g in tree.entries {
        var before := tree.entries[g].items + Under(ps, n - 1, g);
        assert before + [ps[n - 1].value.item] == tree.entries[g].items + Under(ps, n, g);
      }
    }
  }

  /** The groups stay a proper map, and new keys come after the old ones in
      the order they are first placed under. */
  lemma {:induction false} GroupAllKeys(tree: Dict<Leaf>, ps: seq<Option<Placement>>, n: nat)
    requires n <= |ps| && tree.Valid()
    ensures GroupAll(tree, ps, n).Valid()
    ensures GroupAll(tree, ps, n).keys == Gather(tree.keys, PlacedKeys(ps, n))
  {
    if n > 0 {
      GroupAllKeys(tree, ps, n - 1);
      if ps[n - 1].Some? {
        var t := GroupAll(tree, ps, n - 1);
        var p := ps[n - 1].value;
        GatherSnoc(tree.keys, PlacedKeys(ps, n - 1), p.key);
        if p.key in t.entries {
          t.SetKeepsValid(p.key, t.entries[p.key].(items := t.entries[p.key].items + [p.item]));
        } else {
          t.SetKeepsValid(p.key, Leaf(p.heading, [p.item], true));
        }
      }
    }
  }

  // ---------------------------------------------------------------------
  // Sorting every group

  /** `tree.values().forEach(v => v.items.sort(byLabel))`: the same groups,
      each with its items sorted. */
  function SortedGroups(tree: Dict<Leaf>): Dict<Leaf> {
    Dict(tree.keys, map k | k in tree.entries :: tree.entries[k].(items := SortByLabel(tree.entries[k].items)))
  }

  lemma SortedGroupsValid(tree: Dict<Leaf>)
    requires tree.Valid()
    ensures SortedGroups(tree).Valid() && SortedGroups(tree).keys == tree.keys
  {
  }

  /** Sorting keeps the keys and each group's heading, state and items, and
      leaves each group in label order. */
  lemma SortedGroupsSorted(tree: Dict<Leaf>, g: string)
    requires tree.Valid()
    ensures SortedGroups(tree).Valid() && SortedGroups(tree).keys == tree.keys
    ensures g in SortedGroups(tree).entries <==> g in tree.entries
    ensures g in tree.entries ==>
              var leaf := SortedGroups(tree).entries[g];
              && leaf.labelText == tree.entries[g].labelText && leaf.expanded == tree.entries[g].expanded
              && SortedByLabel(leaf.items) && multiset(leaf.items) == multiset(tree.entries[g].items)
  {
    if g in tree.entries {
      SortByLabelSorts(tree.entries[g].items);
    }
  }

  /** The sort loop, group by group in key order. */
  method SortGroups(tree: Dict<Leaf>) returns (sorted: Dict<Leaf>)
    requires tree.Valid()
    ensures sorted == SortedGroups(tree)
  {
    sorted := tree;
    var i := 0;
    while i < |tree.keys|
      invariant 0 <= i <= |tree.keys|
      invariant sorted.keys == tree.keys && sorted.entries.Keys == tree.entries.Keys
      invariant forall k :: k in tree.entries ==>
                  sorted.entries[k] == if k in tree.keys[..i] then SortedGroups(tree).entries[k] else tree.entries[k]
    {
      var k := tree.keys[i];
      var leaf := sorted.entries[k];
      sorted := sorted.Set(k, leaf.(items := SortByLabel(leaf.items)));
      assert tree.keys[..i + 1] == tree.keys[..i] + [k];
      i := i + 1;
    }
    assert tree.keys[..i] == tree.keys;
  }
}
