/** The explore table of the construct view: a column for every property
    label that the primary (and, in a second table, the secondary) items
    have, each label once. */
module ExploreTable {
  import opened FirstSeen
  import opened PaletteRules

  /** An item as the table sees it: its value and its local properties. */
  datatype TableItem = TableItem(value: string, localProperties: seq<Property>)

  function Labels(props: seq<Property>): (ls: seq<string>)
    ensures |ls| == |props|
    ensures forall i :: 0 <= i < |props| ==> ls[i] == props[i].labelText
  {
    seq(|props|, i requires 0 <= i < |props| => props[i].labelText)
  }

  /** `localProperties[p].label.value` for every item `i` and property `p`,
      in loop order. */
  function PropertyLabels(items: seq<TableItem>): seq<string> {
    if items == [] then [] else PropertyLabels(items[..|items| - 1]) + Labels(items[|items| - 1].localProperties)
  }

  lemma PropertyLabelsNext(items: seq<TableItem>, i: nat)
    requires i < |items|
    ensures PropertyLabels(items[..i + 1]) == PropertyLabels(items[..i]) + Labels(items[i].localProperties)
  {
    assert items[..i + 1][..i] == items[..i];
  }

  /** Some item has a property labelled `l`. */
  predicate Labelled(items: seq<TableItem>, l: string) {
    exists i, p :: 0 <= i < |items| && 0 <= p < |items[i].localProperties| && items[i].localProperties[p].labelText == l
  }

  lemma {:induction false} PropertyLabelsMembers(items: seq<TableItem>, l: string)
    ensures l in PropertyLabels(items) <==> Labelled(items, l)
  {
    if items != [] {
      var init := items[..|items| - 1];
      var last := items[|items| - 1];
      PropertyLabelsMembers(init, l);
      if Labelled(init, l) {
        var i, p :| 0 <= i < |init| && 0 <= p < |init[i].localProperties| && init[i].localProperties[p].labelText == l;
        assert items[i] == init[i];
      }
      if l in Labels(last.localProperties) {
        var p :| 0 <= p < |last.localProperties| && Labels(last.localProperties)[p] == l;
        assert items[|items| - 1].localProperties[p].labelText == l;
      }
      if Labelled(items, l) {
        var i, p :| 0 <= i < |items| && 0 <= p < |items[i].localProperties| && items[i].localProperties[p].labelText == l;
        if i < |init| {
          assert init[i] == items[i];
        } else {
          assert Labels(last.localProperties)[p] == l;
        }
      }
    }
  }

  /** Collected from an empty list, the labels are every label of the items exactly
      once, in the order first met: items in order, then each item's
      properties in order. */
  lemma PropertiesListed(items: seq<TableItem>)
    ensures var r := Gather([], PropertyLabels(items));
            && NoDuplicates(r)
            && (forall l :: l in r <==> Labelled(items, l))
            && InFirstOrder(r, PropertyLabels(items))
  {
    GatherMembers([], PropertyLabels(items));
    GatherOrder(PropertyLabels(items));
    forall l
      ensures l in PropertyLabels(items) <==> Labelled(items, l)
    {
      PropertyLabelsMembers(items, l);
    }
  }

  /** Collecting into a list that already holds every label changes nothing:
      `sortProperties` run again on the same items keeps its lists. */
  lemma CollectAgainSame(kept: seq<string>, items: seq<TableItem>)
    requires NoDuplicates(kept)
    ensures Gather(Gather(kept, PropertyLabels(items)), PropertyLabels(items)) == Gather(kept, PropertyLabels(items))
  {
    GatherMembers(kept, PropertyLabels(items));
    GatherAbsorbs(Gather(kept, PropertyLabels(items)), PropertyLabels(items));
  }

  /** The nested loops of `sortProperties` for one list: every label is
      pushed unless the inner scan finds it already there. */
  method CollectLabels(items: seq<TableItem>, properties: seq<string>) returns (r: seq<string>)
    ensures r == Gather(properties, PropertyLabels(items))
  {
    r := properties;
    var i := 0;
    while i < |items|
      invariant 0 <= i <= |items|
      invariant r == Gather(properties, PropertyLabels(items[..i]))
    {
      var props := items[i].localProperties;
      ghost var seen := PropertyLabels(items[..i]);
      var p := 0;
      assert Labels(props[..0]) == [];
      assert seen + [] == seen;
      while p < |props|
        invariant 0 <= p <= |props|
        invariant r == Gather(properties, seen + Labels(props[..p]))
      {
        var name := props[p].labelText;
        var duplicate := ScanFor(r, name);
        if !duplicate {
          r := r + [name];
        }
        assert Labels(props[..p + 1]) == Labels(props[..p]) + [name];
        assert seen + Labels(props[..p + 1]) == (seen + Labels(props[..p])) + [name];
        GatherSnoc(properties, seen + Labels(props[..p]), name);
        p := p + 1;
      }
      assert props[..p] == props;
      PropertyLabelsNext(items, i);
      i := i + 1;
    }
    assert items[..i] == items;
  }

  /** The innermost loop: the `duplicate` flag. */
  method ScanFor(properties: seq<string>, name: string) returns (duplicate: bool)
    ensures duplicate <==> name in properties
  {
    duplicate := false;
    var j := 0;
    while j < |properties|
      invariant 0 <= j <= |properties|
      invariant duplicate <==> name in properties[..j]
    {
      if properties[j] == name {
        duplicate := true;
      }
      assert properties[..j + 1] == properties[..j] + [properties[j]];
      j := j + 1;
    }
    assert properties[..j] == properties;
  }

  class ExploreTableController {
    var primaryProperties: seq<string>
    var secondaryProperties: seq<string>
    var primaryItems: seq<TableItem>
    var secondaryItems: seq<TableItem>

    /** The component bindings. The property lists, unset until `$onChanges`
        fills them, start empty. */
    constructor(primary: seq<TableItem>, secondary: seq<TableItem>)
      ensures primaryItems == primary && secondaryItems == secondary
      ensures primaryProperties == [] && secondaryProperties == []
    {
      primaryItems := primary;
      secondaryItems := secondary;
      primaryProperties := [];
      secondaryProperties := [];
    }

    /** `$onChanges`: both lists are reset and recomputed, so they only
        depend on the items, whatever they held before. */
    method OnChanges()
      modifies this`primaryProperties, this`secondaryProperties
      ensures primaryProperties == Gather([], PropertyLabels(primaryItems))
      ensures secondaryProperties == Gather([], PropertyLabels(secondaryItems))
    {
      primaryProperties := [];
      secondaryProperties := [];
      SortProperties();
    }

    /** `sortProperties`: each list gains the labels of its items it does not
        hold yet. */
    method SortProperties()
      modifies this`primaryProperties, this`secondaryProperties
      ensures primaryProperties == Gather(old(primaryProperties), PropertyLabels(primaryItems))
      ensures secondaryProperties == Gather(old(secondaryProperties), PropertyLabels(secondaryItems))
    {
      primaryProperties := CollectLabels(primaryItems, primaryProperties);
      secondaryProperties := CollectLabels(secondaryItems, secondaryProperties);
    }
  }
}
