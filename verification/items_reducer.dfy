/** The redux reducer for the displayed items: `items` lists the displayed
    items in display order and `itemIndex` maps each displayed value to its
    item. Both are copied before they change, so the incoming state is never
    altered; a value model gives that for free. */
module ItemsReducer {
  import opened Wrappers

  /** An item; `x` and `y` are the canvas coordinates, absent until set. */
  datatype Item = Item(value: string, x: Option<int>, y: Option<int>)

  datatype ItemsState = ItemsState(items: seq<Item>, itemIndex: map<string, Item>, localItems: seq<Item>)

  /** The coordinate pair given for one payload item, when given. */
  type Coordinate = (int, int)

  datatype Action =
    | ItemProperties
    | DisplayItems(payloadItems: seq<Item>, coordinates: seq<Option<Coordinate>>)
    | ItemsCreated
    | ItemsDeleted
    | HideItem(value: string)
    | Unknown(kind: string)

  /** The default state. */
  const Initial := ItemsState([], map[], [])

  function Values(items: seq<Item>): set<string> {
    set i | 0 <= i < |items| :: items[i].value
  }

  ghost predicate DistinctValues(items: seq<Item>) {
    forall i, j :: 0 <= i < j < |items| ==> items[i].value != items[j].value
  }

  /** `index` indexes exactly the items of the list, one per value. */
  ghost predicate Indexes(items: seq<Item>, index: map<string, Item>) {
    && DistinctValues(items)
    && (forall i :: 0 <= i < |items| ==> items[i].value in index && index[items[i].value] == items[i])
    && index.Keys == Values(items)
  }

  /** `itemIndex` indexes exactly the displayed items. */
  ghost predicate Consistent(s: ItemsState) {
    Indexes(s.items, s.itemIndex)
  }

  // ---------------------------------------------------------------------
  // DISPLAY_ITEMS

  /** The coordinate pair at position `i`, when one is given. */
  function CoordinateAt(coordinates: seq<Option<Coordinate>>, i: nat): Option<Coordinate> {
    if i < |coordinates| then coordinates[i] else None
  }

  /** Coordinates are applied when the pair is given and both of its numbers
      are truthy (non-zero). */
  function Placed(item: Item, c: Option<Coordinate>): Item {
    if c.Some? && c.value.0 != 0 && c.value.1 != 0 then item.(x := Some(c.value.0), y := Some(c.value.1)) else item
  }

  /** One pass of the `forEach` body: an item whose value is not indexed yet
      is pushed and indexed, with its coordinates applied; any other item
      changes nothing. */
  function DisplayOne(s: ItemsState, item: Item, c: Option<Coordinate>): ItemsState {
    if item.value in s.itemIndex then s
    else
      var placed := Placed(item, c);
      ItemsState(s.items + [placed], s.itemIndex[item.value := placed], s.localItems)
  }

  /** The state after the first `n` payload items. */
  function Displayed(s: ItemsState, payload: seq<Item>, coordinates: seq<Option<Coordinate>>, n: nat): ItemsState
    requires n <= |payload|
  {
    if n == 0 then s else DisplayOne(Displayed(s, payload, coordinates, n - 1), payload[n - 1], CoordinateAt(coordinates, n - 1))
  }

  /** The `forEach` loop of DISPLAY_ITEMS on copies of the state's list and
      index. */
  method Display(state: ItemsState, payload: seq<Item>, coordinates: seq<Option<Coordinate>>) returns (next: ItemsState)
    ensures next == Displayed(state, payload, coordinates, |payload|)
  {
    var newItems := state.items;
    var newItemIndex := state.itemIndex;
    var i := 0;
    while i < |payload|
      invariant 0 <= i <= |payload|
      invariant ItemsState(newItems, newItemIndex, state.localItems) == Displayed(state, payload, coordinates, i)
    {
      var item := payload[i];
      if item.value !in newItemIndex {
        var placed := Placed(item, CoordinateAt(coordinates, i));
        newItems := newItems + [placed];
        newItemIndex := newItemIndex[item.value := placed];
      }
      i := i + 1;
    }
    next := ItemsState(newItems, newItemIndex, state.localItems);
  }

  /** Pushing and indexing an item of a new value keeps the index exact. */
  lemma PushKeepsIndexes(items: seq<Item>, index: map<string, Item>, item: Item)
    requires Indexes(items, index) && item.value !in index
    ensures Indexes(items + [item], index[item.value := item])
  {
    var n := |items|;
    var items' := items + [item];
    assert forall i :: 0 <= i < n ==> items'[i] == items[i];
    assert Values(items') == Values(items) + {item.value} by {
      assert items'[n] == item;
    }
    assert forall i :: 0 <= i < n ==> items[i].value in Values(items);
  }

  /** One step keeps the index consistent with the list. */
  lemma DisplayOneConsistent(s: ItemsState, item: Item, c: Option<Coordinate>)
    requires Consistent(s)
    ensures Consistent(DisplayOne(s, item, c))
  {
    if item.value !in s.itemIndex {
      PushKeepsIndexes(s.items, s.itemIndex, Placed(item, c));
    }
  }

  /** One step keeps the list first, every indexed item, and indexes the
      item's value. */
  lemma DisplayOneKeeps(s: ItemsState, item: Item, c: Option<Coordinate>)
    ensures var next := DisplayOne(s, item, c);
            && |next.items| >= |s.items| && next.items[..|s.items|] == s.items
            && next.localItems == s.localItems
            && next.itemIndex.Keys == s.itemIndex.Keys + {item.value}
            && (forall v :: v in s.itemIndex ==> next.itemIndex[v] == s.itemIndex[v])
  {
  }

  /** The values of one more payload item. */
  lemma ValuesSnoc(payload: seq<Item>, n: nat)
    requires 0 < n <= |payload|
    ensures Values(payload[..n]) == Values(payload[..n - 1]) + {payload[n - 1].value}
  {
    assert forall i :: 0 <= i < n - 1 ==> payload[..n][i] == payload[..n - 1][i];
    assert payload[..n][n - 1] == payload[n - 1];
  }

  /** DISPLAY_ITEMS keeps the displayed items first and in their order, keeps
      every indexed item and indexes every payload value. */
  lemma {:induction false} DisplayedKeeps(s: ItemsState, payload: seq<Item>, coordinates: seq<Option<Coordinate>>, n: nat)
    requires n <= |payload|
    ensures var next := Displayed(s, payload, coordinates, n);
            && |next.items| >= |s.items| && next.items[..|s.items|] == s.items
            && next.localItems == s.localItems
            && next.itemIndex.Keys == s.itemIndex.Keys + Values(payload[..n])
            && (forall v :: v in s.itemIndex ==> next.itemIndex[v] == s.itemIndex[v])
  {
    if n == 0 {
      assert Values(payload[..0]) == {};
    } else {
      DisplayedKeeps(s, payload, coordinates, n - 1);
      var before := Displayed(s, payload, coordinates, n - 1);
      DisplayOneKeeps(before, payload[n - 1], CoordinateAt(coordinates, n - 1));
      ValuesSnoc(payload, n);
    }
  }

  /** DISPLAY_ITEMS keeps the index consistent with the list. */
  lemma {:induction false} DisplayedConsistent(s: ItemsState, payload: seq<Item>, coordinates: seq<Option<Coordinate>>, n: nat)
    requires n <= |payload| && Consistent(s)
    ensures Consistent(Displayed(s, payload, coordinates, n))
  {
    if n > 0 {
      DisplayedConsistent(s, payload, coordinates, n - 1);
      DisplayOneConsistent(Displayed(s, payload, coordinates, n - 1), payload[n - 1], CoordinateAt(coordinates, n - 1));
    }
  }

  /** An item already indexed, in the payload or earlier, is skipped, and an
      item pushed gets its own coordinates: the list grows by one exactly
      when the item's value is new. */
  lemma DisplayOneAppends(s: ItemsState, item: Item, c: Option<Coordinate>)
    ensures item.value in s.itemIndex ==> DisplayOne(s, item, c) == s
    ensures item.value !in s.itemIndex ==> DisplayOne(s, item, c).items == s.items + [Placed(item, c)]
  {
  }

  /** Displaying the same items again, whatever the coordinates, changes
      nothing. */
  lemma DisplayTwiceChangesNothing(s: ItemsState, payload: seq<Item>, coordinates: seq<Option<Coordinate>>, again: seq<Option<Coordinate>>)
    ensures var once := Displayed(s, payload, coordinates, |payload|);
            Displayed(once, payload, again, |payload|) == once
  {
    var once := Displayed(s, payload, coordinates, |payload|);
    DisplayedKeeps(s, payload, coordinates, |payload|);
    assert payload[..|payload|] == payload;
    KnownChangesNothing(once, payload, again, |payload|);
  }

  lemma {:induction false} KnownChangesNothing(s: ItemsState, payload: seq<Item>, coordinates: seq<Option<Coordinate>>, n: nat)
    requires n <= |payload| && Values(payload) <= s.itemIndex.Keys
    ensures Displayed(s, payload, coordinates, n) == s
  {
    if n > 0 {
      KnownChangesNothing(s, payload, coordinates, n - 1);
      assert payload[n - 1].value in Values(payload);
    }
  }

  // ---------------------------------------------------------------------
  // HIDE_ITEM

  /** `indexOf`: the first position of `it`, -1 when absent. */
  function IndexOf(items: seq<Item>, it: Item): (k: int)
    ensures -1 <= k < |items|
    ensures k >= 0 ==> items[k] == it && forall j :: 0 <= j < k ==> items[j] != it
    ensures k == -1 <==> it !in items
  {
    if items == [] then -1
    else if items[0] == it then 0
    else
      var r := IndexOf(items[1..], it);
      if r == -1 then -1 else r + 1
  }

  /** `splice(k, 1)`: a negative start counts from the end, so -1 removes the
      last item. */
  function SpliceOne(items: seq<Item>, k: int): (r: seq<Item>)
    requires -1 <= k < |items|
    ensures 0 <= k ==> r == items[..k] + items[k + 1..]
    ensures k == -1 ==> r == (if items == [] then [] else items[..|items| - 1])
  {
    if k == -1 then (if items == [] then [] else items[..|items| - 1])
    else items[..k] + items[k + 1..]
  }

  function Hide(state: ItemsState, value: string): (next: ItemsState)
    ensures next.localItems == state.localItems
    ensures value !in state.itemIndex ==> next == state
    ensures value in state.itemIndex ==> next.itemIndex == state.itemIndex - {value}
  {
    if value in state.itemIndex then
      var it := state.itemIndex[value];
      ItemsState(SpliceOne(state.items, IndexOf(state.items, it)), state.itemIndex - {value}, state.localItems)
    else state
  }

  /** Removing position `k` of a list of distinct values removes exactly
      that value and keeps the rest distinct. */
  lemma RemoveAt(items: seq<Item>, k: nat)
    requires k < |items|
    requires forall i, j :: 0 <= i < j < |items| ==> items[i].value != items[j].value
    ensures var rest := items[..k] + items[k + 1..];
            && Values(rest) == Values(items) - {items[k].value}
            && (forall i, j :: 0 <= i < j < |rest| ==> rest[i].value != rest[j].value)
            && (forall i :: 0 <= i < |rest| ==> rest[i] == items[if i < k then i else i + 1])
  {
    var rest := items[..k] + items[k + 1..];
    assert forall i :: 0 <= i < |rest| ==> rest[i] == items[if i < k then i else i + 1];
    forall v | v in Values(items) - {items[k].value}
      ensures v in Values(rest)
    {
      var j :| 0 <= j < |items| && items[j].value == v;
      assert rest[if j < k then j else j - 1] == items[j];
    }
  }

  /** On a consistent state HIDE_ITEM removes exactly the hidden value's item
      from the list, keeping the others in order. */
  lemma HideRemovesItem(state: ItemsState, value: string)
    requires Consistent(state) && value in state.itemIndex
    ensures var k := IndexOf(state.items, state.itemIndex[value]);
            && 0 <= k && state.items[k].value == value
            && Hide(state, value).items == state.items[..k] + state.items[k + 1..]
  {
    var it := state.itemIndex[value];
    assert value in Values(state.items);
    var j :| 0 <= j < |state.items| && state.items[j].value == value;
    assert state.items[j] == it;
    var k := IndexOf(state.items, it);
    assert Hide(state, value).items == SpliceOne(state.items, k);
  }

  /** HIDE_ITEM keeps the index consistent with the list. */
  lemma HideKeepsConsistent(state: ItemsState, value: string)
    requires Consistent(state) && value in state.itemIndex
    ensures Consistent(Hide(state, value))
  {
    HideRemovesItem(state, value);
    var k := IndexOf(state.items, state.itemIndex[value]);
    RemoveKeepsIndexes(state.items, state.itemIndex, k);
  }

  /** Removing an item and its index entry keeps the index exact. */
  lemma RemoveKeepsIndexes(items: seq<Item>, index: map<string, Item>, k: nat)
    requires Indexes(items, index) && k < |items|
    ensures Indexes(items[..k] + items[k + 1..], index - {items[k].value})
  {
    RemoveAt(items, k);
    var rest := items[..k] + items[k + 1..];
    forall i | 0 <= i < |rest|
      ensures rest[i].value in index - {items[k].value}
    {
      var i' := if i < k then i else i + 1;
      assert rest[i] == items[i'] && i' != k;
    }
  }

  // ---------------------------------------------------------------------
  // The reducer

  /** `types(state, action)`: DISPLAY_ITEMS and HIDE_ITEM as above; every
      other action returns the state it was given. */
  method Reduce(state: ItemsState, action: Action) returns (next: ItemsState)
    ensures action.DisplayItems? ==> next == Displayed(state, action.payloadItems, action.coordinates, |action.payloadItems|)
    ensures action.HideItem? ==> next == Hide(state, action.value)
    ensures !action.DisplayItems? && !action.HideItem? ==> next == state
  {
    match action
    case DisplayItems(payload, coordinates) =>
      next := Display(state, payload, coordinates);
    case HideItem(value) =>
      next := Hide(state, value);
    case _ =>
      next := state;
  }
}
