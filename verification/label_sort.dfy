/** The order both palettes sort a group's items in: ascending by label,
    compared the way JavaScript compares strings (character by character, a
    proper prefix first), with items of equal label kept in their order. */
module LabelSort {
  import opened PaletteRules

  /** `a < b` on strings. */
  predicate Below(a: string, b: string) {
    if b == [] then false
    else if a == [] then true
    else if a[0] != b[0] then a[0] < b[0]
    else Below(a[1..], b[1..])
  }

  lemma {:induction false} BelowIrreflexive(a: string)
    ensures !Below(a, a)
  {
    if a != [] {
      BelowIrreflexive(a[1..]);
    }
  }

  /** Two different strings are ordered one way. */
  lemma {:induction false} BelowTotal(a: string, b: string)
    ensures a == b || Below(a, b) || Below(b, a)
    ensures !(Below(a, b) && Below(b, a))
  {
    if a != [] && b != [] && a[0] == b[0] {
      BelowTotal(a[1..], b[1..]);
      if a[1..] == b[1..] {
        assert a == [a[0]] + a[1..] && b == [b[0]] + b[1..];
      }
    }
  }

  lemma {:induction false} BelowTransitive(a: string, b: string, c: string)
    requires Below(a, b) && Below(b, c)
    ensures Below(a, c)
  {
    if a != [] && a[0] == b[0] && b[0] == c[0] {
      BelowTransitive(a[1..], b[1..], c[1..]);
    }
  }

  /** "Not above" is transitive too, as the comparator needs for a sort. */
  lemma NotBelowTransitive(a: string, b: string, c: string)
    requires !Below(b, a) && !Below(c, b)
    ensures !Below(c, a)
  {
    BelowTotal(a, b);
    BelowTotal(b, c);
    if Below(c, a) {
      if a == b {
      } else if b == c {
      } else {
        BelowTransitive(c, a, b);
      }
    }
  }

  /** The comparator `a.label === b.label ? 0 : a.label > b.label ? 1 : -1`. */
  function Compare(a: PaletteItem, b: PaletteItem): (r: int)
    ensures r == 0 <==> a.labelText == b.labelText
    ensures r > 0 <==> Below(b.labelText, a.labelText)
    ensures r < 0 <==> Below(a.labelText, b.labelText)
  {
    BelowTotal(a.labelText, b.labelText);
    BelowIrreflexive(a.labelText);
    if a.labelText == b.labelText then 0 else if Below(b.labelText, a.labelText) then 1 else -1
  }

  predicate SortedByLabel(s: seq<PaletteItem>) {
    forall i, j :: 0 <= i < j < |s| ==> !Below(s[j].labelText, s[i].labelText)
  }

  /** `x` goes before the first item whose label is not below its own. */
  function Insert(x: PaletteItem, s: seq<PaletteItem>): (r: seq<PaletteItem>)
    ensures |r| == |s| + 1
  {
    if s == [] then [x]
    else if Below(s[0].labelText, x.labelText) then [s[0]] + Insert(x, s[1..])
    else [x] + s
  }

  /** The items sorted by label, as `items.sort(comparator)` leaves them. */
  function SortByLabel(s: seq<PaletteItem>): (r: seq<PaletteItem>)
    ensures |r| == |s|
  {
    if s == [] then [] else Insert(s[0], SortByLabel(s[1..]))
  }

  /** The items of `s` whose label is `l`, in order. */
  function WithLabel(s: seq<PaletteItem>, l: string): seq<PaletteItem> {
    if s == [] then []
    else if s[0].labelText == l then [s[0]] + WithLabel(s[1..], l)
    else WithLabel(s[1..], l)
  }

  lemma {:induction false} InsertKeeps(x: PaletteItem, s: seq<PaletteItem>)
    ensures multiset(Insert(x, s)) == multiset(s) + multiset{x}
  {
    if s != [] {
      assert s == [s[0]] + s[1..];
      if Below(s[0].labelText, x.labelText) {
        InsertKeeps(x, s[1..]);
      }
    }
  }

  lemma {:induction false} InsertSorted(x: PaletteItem, s: seq<PaletteItem>)
    requires SortedByLabel(s)
    ensures SortedByLabel(Insert(x, s))
  {
    if s != [] {
      if Below(s[0].labelText, x.labelText) {
        InsertSorted(x, s[1..]);
        InsertKeeps(x, s[1..]);
        var rest := Insert(x, s[1..]);
        assert s == [s[0]] + s[1..];
        forall y: PaletteItem | y in multiset(rest)
          ensures !Below(y.labelText, s[0].labelText)
        {
          if y == x {
            BelowTotal(s[0].labelText, x.labelText);
          } else {
            assert y in multiset(s[1..]);
            var j :| 0 <= j < |s[1..]| && s[1..][j] == y;
            assert s[j + 1] == y;
          }
        }
        InsertHeadSorted(s[0], rest);
      } else {
        forall j | 0 <= j < |s|
          ensures !Below(s[j].labelText, x.labelText)
        {
          if j > 0 {
            NotBelowTransitive(x.labelText, s[0].labelText, s[j].labelText);
          }
        }
        InsertHeadSorted(x, s);
      }
    }
  }

  lemma InsertHeadSorted(x: PaletteItem, s: seq<PaletteItem>)
    requires SortedByLabel(s)
    requires forall y: PaletteItem | y in multiset(s) :: !Below(y.labelText, x.labelText)
    ensures SortedByLabel([x] + s)
  {
    var r := [x] + s;
    forall i, j | 0 <= i < j < |r|
      ensures !Below(r[j].labelText, r[i].labelText)
    {
      assert r[j] == s[j - 1];
      assert r[j] in multiset(s);
    }
  }

  /** The sort puts the items in label order and keeps each of them: the
      result is a permutation of the input. */
  lemma {:induction false} SortByLabelSorts(s: seq<PaletteItem>)
    ensures SortedByLabel(SortByLabel(s))
    ensures multiset(SortByLabel(s)) == multiset(s)
  {
    if s != [] {
      SortByLabelSorts(s[1..]);
      InsertSorted(s[0], SortByLabel(s[1..]));
      InsertKeeps(s[0], SortByLabel(s[1..]));
      assert s == [s[0]] + s[1..];
    }
  }

  lemma {:induction false} InsertWithLabel(x: PaletteItem, s: seq<PaletteItem>, l: string)
    ensures WithLabel(Insert(x, s), l) == if x.labelText == l then [x] + WithLabel(s, l) else WithLabel(s, l)
  {
    if s != [] && Below(s[0].labelText, x.labelText) {
      InsertWithLabel(x, s[1..], l);
      if x.labelText == l {
        BelowIrreflexive(l);
      }
    }
  }

  /** The sort is stable: the items of any one label keep their order. */
  lemma {:induction false} SortByLabelStable(s: seq<PaletteItem>, l: string)
    ensures WithLabel(SortByLabel(s), l) == WithLabel(s, l)
  {
    if s != [] {
      SortByLabelStable(s[1..], l);
      InsertWithLabel(s[0], SortByLabel(s[1..]), l);
    }
  }
}
