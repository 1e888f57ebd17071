/** Collecting the distinct strings of a sequence in the order they are first
    seen, as the property lists of the palette and the explore table are
    built: a string is pushed unless the list already holds it. */
module FirstSeen {

  predicate NoDuplicates(s: seq<string>) {
    forall i, j :: 0 <= i < j < |s| ==> s[i] != s[j]
  }

  /** `if (kept.indexOf(x) === -1) kept.push(x)`. */
  function AddNew(kept: seq<string>, x: string): seq<string> {
    if x in kept then kept else kept + [x]
  }

  /** `AddNew` for each of `xs` in order, starting from `kept`. */
  function Gather(kept: seq<string>, xs: seq<string>): seq<string> {
    if xs == [] then kept else AddNew(Gather(kept, xs[..|xs| - 1]), xs[|xs| - 1])
  }

  lemma GatherSnoc(kept: seq<string>, xs: seq<string>, x: string)
    ensures Gather(kept, xs + [x]) == AddNew(Gather(kept, xs), x)
  {
    assert (xs + [x])[..|xs|] == xs;
  }

  /** Gathering strings that are all kept already changes nothing. */
  lemma {:induction false} GatherAbsorbs(kept: seq<string>, xs: seq<string>)
    requires forall i :: 0 <= i < |xs| ==> xs[i] in kept
    ensures Gather(kept, xs) == kept
  {
    if xs != [] {
      GatherAbsorbs(kept, xs[..|xs| - 1]);
    }
  }

  /** The position of the first `x` in `xs`; `|xs|` when there is none. */
  function FirstIndex(xs: seq<string>, x: string): (k: nat)
    ensures k <= |xs|
    ensures k < |xs| ==> xs[k] == x
    ensures forall i :: 0 <= i < k ==> xs[i] != x
    ensures k == |xs| <==> x !in xs
  {
    if xs == [] then 0 else if xs[0] == x then 0 else 1 + FirstIndex(xs[1..], x)
  }

  /** What is gathered keeps what was kept, holds each string of `xs` once,
      and nothing else. */
  lemma {:induction false} GatherMembers(kept: seq<string>, xs: seq<string>)
    requires NoDuplicates(kept)
    ensures var r := Gather(kept, xs);
            && NoDuplicates(r)
            && |r| >= |kept| && r[..|kept|] == kept
            && forall x :: x in r <==> x in kept || x in xs
  {
    if xs != [] {
      var init := xs[..|xs| - 1];
      GatherMembers(kept, init);
      var before := Gather(kept, init);
      var x := xs[|xs| - 1];
      assert xs == init + [x];
      if x !in before {
        assert (before + [x])[..|kept|] == before[..|kept|];
      }
    }
  }

  /** `r` lists its strings in the order of their first occurrence in `xs`. */
  predicate InFirstOrder(r: seq<string>, xs: seq<string>) {
    forall i, j :: 0 <= i < j < |r| ==> FirstIndex(xs, r[i]) < FirstIndex(xs, r[j])
  }

  /** Starting from nothing, the strings come out in the order of their
      first occurrence in `xs`. */
  lemma {:induction false} GatherOrder(xs: seq<string>)
    ensures InFirstOrder(Gather([], xs), xs)
  {
    if xs != [] {
      var init := xs[..|xs| - 1];
      var x := xs[|xs| - 1];
      assert xs == init + [x];
      GatherOrder(init);
      GatherMembers([], init);
      OrderSnoc(Gather([], init), init, x);
    }
  }

  lemma OrderSnoc(before: seq<string>, init: seq<string>, x: string)
    requires InFirstOrder(before, init)
    requires forall y :: y in before <==> y in init
    ensures InFirstOrder(AddNew(before, x), init + [x])
  {
    var xs := init + [x];
    forall y | y in init
      ensures FirstIndex(xs, y) == FirstIndex(init, y)
    {
      FirstIndexOfPrefix(init, x, y);
    }
    if x !in before {
      assert FirstIndex(xs, x) == |init| by {
        FirstIndexOfPrefix(init, x, x);
      }
      var r := before + [x];
      forall i, j | 0 <= i < j < |r|
        ensures FirstIndex(xs, r[i]) < FirstIndex(xs, r[j])
      {
        assert r[i] == before[i] && before[i] in init;
        if j < |before| {
          assert r[j] == before[j] && before[j] in init;
        }
      }
    }
  }

  lemma FirstIndexOfPrefix(init: seq<string>, x: string, y: string)
    ensures FirstIndex(init + [x], y) == if y in init then FirstIndex(init, y) else if y == x then |init| else |init| + 1
  {
    if init != [] {
      assert (init + [x])[1..] == init[1..] + [x];
      FirstIndexOfPrefix(init[1..], x, y);
    }
  }
}
