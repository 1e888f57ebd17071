/** The prototype-preserving serializer of the worker bridge.

    Before a value crosses to or from a worker, every object whose class has
    methods is tagged with its class name in `__className`. After it crosses
    (the structured clone has dropped every prototype), each tagged object gets
    the prototype the registry holds for that name back. A walk may meet an
    object twice (shared or cyclic references). The tag, or a temporary
    `__mark`, tells it so. */
module Serializer {
  import opened Wrappers
  import opened ObjectGraph

  // ---------------------------------------------------------------------
  // stripMarks / stripPrototypes

  /** Objects outside `stack` that no longer carry `a` have no child in `targets`
      that still carries it. */
  ghost predicate StrippedClosed(shapes: map<Ref, Shape>, metas: map<Ref, Meta>, a: Attribute, targets: set<Ref>, stack: set<Ref>) {
    forall n, m ::
      n in targets && n in metas && !Has(metas[n], a) && n !in stack && Child(shapes, n, m) && m in targets && m in metas
      ==> !Has(metas[m], a)
  }

  /** The attributes after a strip walk from `v`: `a` is gone from every object
      that carries it and can be reached from `v` through objects carrying it. */
  ghost function AfterStrip(shapes: map<Ref, Shape>, metas: map<Ref, Meta>, v: Value, a: Attribute): map<Ref, Meta> {
    map n | n in metas ::
      if v.Object? && Has(metas[n], a) && ReachableThrough(shapes, v.ref, n, Carrying(metas, a))
      then Without(metas[n], a) else metas[n]
  }

  /** `m1` differs from `m0` at most by objects that carried `a` and lost it. */
  ghost predicate OnlyStripped(m0: map<Ref, Meta>, m1: map<Ref, Meta>, a: Attribute) {
    && m0.Keys == m1.Keys
    && forall n :: n in m1 ==> m1[n] == m0[n] || (Has(m0[n], a) && m1[n] == Without(m0[n], a))
  }

  /** Every object that lost `a` between `m0` and `m1` is reachable from `root`
      through `targets`. */
  ghost predicate StrippedReachable(shapes: map<Ref, Shape>, m0: map<Ref, Meta>, m1: map<Ref, Meta>, a: Attribute, root: Ref, targets: set<Ref>)
    requires m0.Keys == m1.Keys
  {
    forall n :: n in m1 && Has(m0[n], a) && !Has(m1[n], a) ==> ReachableThrough(shapes, root, n, targets)
  }

  lemma OnlyStrippedTransitive(m0: map<Ref, Meta>, m1: map<Ref, Meta>, m2: map<Ref, Meta>, a: Attribute)
    requires OnlyStripped(m0, m1, a) && OnlyStripped(m1, m2, a)
    ensures OnlyStripped(m0, m2, a)
    ensures Carrying(m2, a) <= Carrying(m1, a) <= Carrying(m0, a)
  {
  }

  /** The step over one child keeps the reachability of what was stripped. */
  lemma StrippedReachableStep(shapes: map<Ref, Shape>, m0: map<Ref, Meta>, m1: map<Ref, Meta>, m2: map<Ref, Meta>,
                              a: Attribute, r: Ref, kid: Value, targets: set<Ref>)
    requires OnlyStripped(m0, m1, a) && OnlyStripped(m1, m2, a)
    requires r in targets && r in shapes && kid in shapes[r].values
    requires StrippedReachable(shapes, m0, m1, a, r, targets)
    requires forall n :: n in m2 && Has(m1[n], a) && !Has(m2[n], a) ==> kid.Object? && ReachableThrough(shapes, kid.ref, n, targets)
    ensures StrippedReachable(shapes, m0, m2, a, r, targets)
  {
    forall n | n in m2 && Has(m0[n], a) && !Has(m2[n], a)
      ensures ReachableThrough(shapes, r, n, targets)
    {
      if Has(m1[n], a) {
        ReachPrepend(shapes, r, kid.ref, n, targets);
      }
    }
  }

  /** Entering an object: removing `a` from `r` keeps the walk's invariants. */
  lemma StripEnter(shapes: map<Ref, Shape>, m0: map<Ref, Meta>, a: Attribute, targets: set<Ref>, stack: set<Ref>, r: Ref)
    requires r in m0 && r in shapes && Has(m0[r], a) && Carrying(m0, a) <= targets
    requires StrippedClosed(shapes, m0, a, targets, stack)
    ensures var m1 := m0[r := Without(m0[r], a)];
      && OnlyStripped(m0, m1, a)
      && StrippedReachable(shapes, m0, m1, a, r, targets)
      && StrippedClosed(shapes, m1, a, targets, stack + {r})
      && Carrying(m1, a) == Carrying(m0, a) - {r}
  {
    ReachSelf(shapes, r, targets);
  }

  /** The first `i` of `kids` that are in `targets` no longer carry `a`. */
  ghost predicate KidsStripped(kids: seq<Value>, i: int, m: map<Ref, Meta>, a: Attribute, targets: set<Ref>) {
    forall j :: 0 <= j < i && j < |kids| && kids[j].Object? && kids[j].ref in targets && kids[j].ref in m ==> !Has(m[kids[j].ref], a)
  }

  lemma KidsStrippedStep(kids: seq<Value>, i: int, m1: map<Ref, Meta>, m2: map<Ref, Meta>, a: Attribute, targets: set<Ref>)
    requires 0 <= i < |kids| && KidsStripped(kids, i, m1, a, targets) && OnlyStripped(m1, m2, a)
    requires kids[i].Object? && kids[i].ref in targets && kids[i].ref in m2 ==> !Has(m2[kids[i].ref], a)
    ensures KidsStripped(kids, i + 1, m2, a, targets)
  {
  }

  /** Leaving an object whose children in `targets` have all lost `a`. */
  lemma StripLeave(shapes: map<Ref, Shape>, m: map<Ref, Meta>, a: Attribute, targets: set<Ref>, stack: set<Ref>, r: Ref)
    requires r in shapes && StrippedClosed(shapes, m, a, targets, stack + {r})
    requires KidsStripped(shapes[r].values, |shapes[r].values|, m, a, targets)
    ensures StrippedClosed(shapes, m, a, targets, stack)
  {
    forall n, c | n in targets && n in m && !Has(m[n], a) && n !in stack && Child(shapes, n, c) && c in targets && c in m
      ensures !Has(m[c], a)
    {
      if n == r {
        var j :| 0 <= j < |shapes[r].values| && shapes[r].values[j] == Object(c);
      }
    }
  }

  /** The recursion shared by `stripMarks` and `stripPrototypes`: `targets` is
      the set of objects that carried `a` when the outermost call began, `stack`
      the objects whose children are being visited. */
  method StripFrom(g: ObjectGraph, v: Value, a: Attribute, ghost targets: set<Ref>, ghost stack: set<Ref>)
    requires g.Valid()
    requires v.Object? ==> v.ref in g.shapes
    requires Carrying(g.metas, a) <= targets <= g.metas.Keys
    requires stack <= targets && forall n :: n in stack ==> !Has(g.metas[n], a)
    requires StrippedClosed(g.shapes, g.metas, a, targets, stack)
    modifies g`metas
    ensures g.Valid()
    ensures OnlyStripped(old(g.metas), g.metas, a)
    ensures v.Object? ==> StrippedReachable(g.shapes, old(g.metas), g.metas, a, v.ref, targets)
    ensures !v.Object? ==> g.metas == old(g.metas)
    ensures StrippedClosed(g.shapes, g.metas, a, targets, stack)
    ensures v.Object? && v.ref in targets ==> !Has(g.metas[v.ref], a)
    decreases |Carrying(g.metas, a)|
  {
    if !v.Object? || !Has(g.metas[v.ref], a) {
      return;
    }
    var r := v.ref;
    StripEnter(g.shapes, g.metas, a, targets, stack, r);
    g.metas := g.metas[r := Without(g.metas[r], a)];
    var kids := g.shapes[r].values;
    var i := 0;
    while i < |kids|
      invariant 0 <= i <= |kids|
      invariant g.Valid()
      invariant OnlyStripped(old(g.metas), g.metas, a)
      invariant Carrying(g.metas, a) <= Carrying(old(g.metas), a) - {r}
      invariant StrippedReachable(g.shapes, old(g.metas), g.metas, a, r, targets)
      invariant StrippedClosed(g.shapes, g.metas, a, targets, stack + {r})
      invariant KidsStripped(kids, i, g.metas, a, targets)
    {
      ghost var before := g.metas;
      SubsetSmaller(Carrying(g.metas, a), Carrying(old(g.metas), a), r);
      if kids[i].Object? {
        assert Child(g.shapes, r, kids[i].ref);
      }
      StripFrom(g, kids[i], a, targets, stack + {r});
      OnlyStrippedTransitive(old(g.metas), before, g.metas, a);
      StrippedReachableStep(g.shapes, old(g.metas), before, g.metas, a, r, kids[i], targets);
      KidsStrippedStep(kids, i, before, g.metas, a, targets);
      i := i + 1;
    }
    StripLeave(g.shapes, g.metas, a, targets, stack, r);
  }

  /** Removes attribute `a` from `v` and from everything reachable from it
      through objects carrying `a`, and from nothing else. */
  method StripAttribute(g: ObjectGraph, v: Value, a: Attribute)
    requires g.Valid()
    requires v.Object? ==> v.ref in g.shapes
    modifies g`metas
    ensures g.Valid()
    ensures g.metas == AfterStrip(g.shapes, old(g.metas), v, a)
  {
    ghost var targets := Carrying(g.metas, a);
    StripFrom(g, v, a, targets, {});
    assert OnlyStripped(old(g.metas), g.metas, a);
    var after := AfterStrip(g.shapes, old(g.metas), v, a);
    forall n | n in g.metas
      ensures g.metas[n] == after[n]
    {
      if v.Object? && Has(old(g.metas[n]), a) && ReachableThrough(g.shapes, v.ref, n, targets) {
        var clear := set k | k in g.metas && !Has(g.metas[k], a);
        ClosedSetHoldsReachable(g.shapes, v.ref, n, targets, clear);
      }
    }
  }

  method StripMarks(g: ObjectGraph, v: Value)
    requires g.Valid()
    requires v.Object? ==> v.ref in g.shapes
    modifies g`metas
    ensures g.Valid()
    ensures g.metas == AfterStrip(g.shapes, old(g.metas), v, Mark)
  {
    StripAttribute(g, v, Mark);
  }

  method StripPrototypes(g: ObjectGraph, v: Value)
    requires g.Valid()
    requires v.Object? ==> v.ref in g.shapes
    modifies g`metas
    ensures g.Valid()
    ensures g.metas == AfterStrip(g.shapes, old(g.metas), v, ClassName)
  {
    StripAttribute(g, v, ClassName);
  }

  /** A strip walk from a value that does not carry the attribute does nothing:
      `stripPrototypes` on an untagged argument array leaves every tag below it. */
  lemma AfterStripFromBareRoot(shapes: map<Ref, Shape>, metas: map<Ref, Meta>, v: Value, a: Attribute)
    requires v.Object? ==> v.ref in metas && !Has(metas[v.ref], a)
    ensures AfterStrip(shapes, metas, v, a) == metas
  {
  }

  /** Stripping twice strips no more than stripping once. */
  lemma AfterStripIdempotent(shapes: map<Ref, Shape>, metas: map<Ref, Meta>, v: Value, a: Attribute)
    requires v.Object? ==> v.ref in metas && v.ref in shapes
    ensures AfterStrip(shapes, AfterStrip(shapes, metas, v, a), v, a) == AfterStrip(shapes, metas, v, a)
  {
    var once := AfterStrip(shapes, metas, v, a);
    if v.Object? && Has(metas[v.ref], a) {
      ReachSelf(shapes, v.ref, Carrying(metas, a));
    }
    AfterStripFromBareRoot(shapes, once, v, a);
  }

  // ---------------------------------------------------------------------
  // The marking walks: restorePrototypesInternal, and the save walk guarded
  // the same way

  /** What a marking walk does to each object: give it its class tag (saving)
      or give it back its prototype (restoring, with the registry). */
  datatype Action = Tag(stamps: map<Constructor, string>) | Restore(registry: map<string, Constructor>)

  /** The `__className` the save walk gives a non-array object of class `c`,
      "" when it gives none: a plain object whose constructor is `Object`
      and carries no `__name`. A class without methods is tagged "Object" so
      that it arrives as a plain object; a class with methods by its
      registered `__name`, else its `name`. */
  function TagFor(c: Constructor, stamps: map<Constructor, string>): (tag: string)
    ensures tag == "" <==> NameStamp(stamps, c) == "" && c.name == "Object"
    ensures tag != "" && !c.hasMethods ==> tag == "Object"
    ensures c.hasMethods && NameStamp(stamps, c) != "" ==> tag == NameStamp(stamps, c)
  {
    var stamp := NameStamp(stamps, c);
    if stamp == "" && c.name == "Object" then ""
    else if !c.hasMethods then "Object"
    else if stamp != "" then stamp
    else if c.name != "" then c.name
    else "Object"
  }

  /** Whether the restore walk accepts an object: arrays and untagged objects
      always, a tagged object when the registry knows its tag. */
  predicate KnownTag(m: Meta, isArray: bool, registry: map<string, Constructor>) {
    isArray || m.className == "" || m.className in registry
  }

  /** The walk's work on one object it enters, apart from marking it. */
  function Step(m: Meta, isArray: bool, action: Action): (r: Result<Meta>)
    ensures action.Restore? ==> (r.Ok? <==> KnownTag(m, isArray, action.registry))
    ensures action.Tag? ==> r.Ok?
    ensures r.Ok? ==> r.value.mark == m.mark
  {
    match action
    case Tag(stamps) => Ok(m.(className := if isArray then "" else TagFor(m.proto, stamps)))
    case Restore(registry) =>
      if isArray || m.className == "" then Ok(m)
      else if m.className in registry then Ok(m.(className := "", proto := registry[m.className]))
      else Error("Unknown prototype " + m.className)
  }

  function Apply(m: Meta, isArray: bool, action: Action): Meta
  {
    match Step(m, isArray, action)
    case Ok(m') => m'
    case Error(_) => m
  }

  /** An object as the walk leaves it: marked, and changed by `Step` unless
      that failed. */
  function Visited(m: Meta, isArray: bool, action: Action): Meta
  {
    Apply(m, isArray, action).(mark := true)
  }

  /** `m1` differs from `m0` only by objects the walk entered. */
  ghost predicate OnlyVisited(shapes: map<Ref, Shape>, m0: map<Ref, Meta>, m1: map<Ref, Meta>, action: Action)
  {
    && m0.Keys == m1.Keys && m0.Keys <= shapes.Keys
    && forall n :: n in m1 ==>
         if !m0[n].mark && m1[n].mark then m1[n] == Visited(m0[n], shapes[n].isArray, action)
         else m1[n] == m0[n]
  }

  /** Every object the walk entered is reachable from `root` through marked objects. */
  ghost predicate VisitedReachable(shapes: map<Ref, Shape>, m0: map<Ref, Meta>, m1: map<Ref, Meta>, root: Ref)
    requires m0.Keys == m1.Keys
  {
    forall n :: n in m1 && !m0[n].mark && m1[n].mark ==> ReachableThrough(shapes, root, n, Carrying(m1, Mark))
  }

  /** `Step` succeeded on every object the walk entered. */
  ghost predicate VisitsSucceeded(shapes: map<Ref, Shape>, m0: map<Ref, Meta>, m1: map<Ref, Meta>, action: Action)
    requires m0.Keys == m1.Keys && m0.Keys <= shapes.Keys
  {
    forall n :: n in m1 && !m0[n].mark && m1[n].mark ==> Step(m0[n], shapes[n].isArray, action).Ok?
  }

  /** Marked objects outside `stack` have only marked children. */
  ghost predicate MarkedClosed(shapes: map<Ref, Shape>, metas: map<Ref, Meta>, stack: set<Ref>) {
    forall n, c :: n in metas && metas[n].mark && n !in stack && Child(shapes, n, c) ==> c in metas && metas[c].mark
  }

  ghost predicate KidsMarked(kids: seq<Value>, i: int, metas: map<Ref, Meta>) {
    forall j :: 0 <= j < i && j < |kids| && kids[j].Object? ==> kids[j].ref in metas && metas[kids[j].ref].mark
  }

  lemma VisitEnter(shapes: map<Ref, Shape>, m0: map<Ref, Meta>, m1: map<Ref, Meta>, action: Action, stack: set<Ref>, r: Ref)
    requires m0.Keys <= shapes.Keys && r in m0 && !m0[r].mark
    requires m1 == m0[r := Visited(m0[r], shapes[r].isArray, action)]
    requires MarkedClosed(shapes, m0, stack)
    ensures OnlyVisited(shapes, m0, m1, action)
    ensures VisitedReachable(shapes, m0, m1, r)
    ensures Step(m0[r], shapes[r].isArray, action).Ok? ==> VisitsSucceeded(shapes, m0, m1, action)
    ensures MarkedClosed(shapes, m1, stack + {r})
    ensures Unmarked(m1) == Unmarked(m0) - {r}
    ensures Carrying(m1, Mark) == Carrying(m0, Mark) + {r}
  {
    ReachSelf(shapes, r, Carrying(m1, Mark));
  }

  lemma VisitStep(shapes: map<Ref, Shape>, m0: map<Ref, Meta>, m1: map<Ref, Meta>, m2: map<Ref, Meta>,
                  action: Action, r: Ref, kid: Value)
    requires OnlyVisited(shapes, m0, m1, action) && OnlyVisited(shapes, m1, m2, action)
    requires r in m1 && m1[r].mark && kid in shapes[r].values
    requires VisitedReachable(shapes, m0, m1, r)
    requires kid.Object? ==> VisitedReachable(shapes, m1, m2, kid.ref)
    requires !kid.Object? ==> m2 == m1
    ensures OnlyVisited(shapes, m0, m2, action)
    ensures VisitedReachable(shapes, m0, m2, r)
    ensures Carrying(m1, Mark) <= Carrying(m2, Mark) && Unmarked(m2) <= Unmarked(m1)
  {
    forall n | n in m2 && !m0[n].mark && m2[n].mark
      ensures ReachableThrough(shapes, r, n, Carrying(m2, Mark))
    {
      if m1[n].mark {
        ReachMonotonic(shapes, r, n, Carrying(m1, Mark), Carrying(m2, Mark));
      } else {
        ReachPrepend(shapes, r, kid.ref, n, Carrying(m2, Mark));
      }
    }
  }

  lemma VisitsSucceededStep(shapes: map<Ref, Shape>, m0: map<Ref, Meta>, m1: map<Ref, Meta>, m2: map<Ref, Meta>, action: Action)
    requires OnlyVisited(shapes, m0, m1, action) && OnlyVisited(shapes, m1, m2, action)
    requires VisitsSucceeded(shapes, m0, m1, action) && VisitsSucceeded(shapes, m1, m2, action)
    ensures VisitsSucceeded(shapes, m0, m2, action)
  {
  }

  lemma KidsMarkedStep(kids: seq<Value>, i: int, shapes: map<Ref, Shape>, m1: map<Ref, Meta>, m2: map<Ref, Meta>, action: Action)
    requires 0 <= i < |kids| && KidsMarked(kids, i, m1) && OnlyVisited(shapes, m1, m2, action)
    requires kids[i].Object? ==> kids[i].ref in m2 && m2[kids[i].ref].mark
    ensures KidsMarked(kids, i + 1, m2)
  {
  }

  lemma VisitLeave(shapes: map<Ref, Shape>, m: map<Ref, Meta>, stack: set<Ref>, r: Ref)
    requires r in shapes && MarkedClosed(shapes, m, stack + {r})
    requires KidsMarked(shapes[r].values, |shapes[r].values|, m)
    ensures MarkedClosed(shapes, m, stack)
  {
    forall n, c | n in m && m[n].mark && n !in stack && Child(shapes, n, c)
      ensures c in m && m[c].mark
    {
      if n == r {
        var j :| 0 <= j < |shapes[r].values| && shapes[r].values[j] == Object(c);
      }
    }
  }

  lemma VisitCompose(shapes: map<Ref, Shape>, m0: map<Ref, Meta>, m1: map<Ref, Meta>, m2: map<Ref, Meta>, action: Action, r: Ref)
    requires OnlyVisited(shapes, m0, m1, action) && OnlyVisited(shapes, m1, m2, action)
    requires VisitedReachable(shapes, m0, m1, r) && VisitedReachable(shapes, m1, m2, r)
    ensures OnlyVisited(shapes, m0, m2, action)
    ensures VisitedReachable(shapes, m0, m2, r)
    ensures VisitsSucceeded(shapes, m0, m1, action) && VisitsSucceeded(shapes, m1, m2, action) ==> VisitsSucceeded(shapes, m0, m2, action)
  {
    forall n | n in m2 && !m0[n].mark && m2[n].mark
      ensures ReachableThrough(shapes, r, n, Carrying(m2, Mark))
    {
      if m1[n].mark {
        ReachMonotonic(shapes, r, n, Carrying(m1, Mark), Carrying(m2, Mark));
      }
    }
  }

  /** Marking `r` and doing the action on it, which leaves `r` unchanged
      but marked when it fails. */
  method Enter(g: ObjectGraph, r: Ref, action: Action) returns (step: Result<Meta>)
    requires g.Valid() && r in g.shapes
    modifies g`metas
    ensures g.Valid()
    ensures step == Step(old(g.metas[r]), g.shapes[r].isArray, action)
    ensures g.metas == old(g.metas)[r := Visited(old(g.metas[r]), g.shapes[r].isArray, action)]
  {
    var m := g.metas[r];
    step := Step(m, g.shapes[r].isArray, action);
    if step.Error? {
      g.metas := g.metas[r := m.(mark := true)];
    } else {
      g.metas := g.metas[r := step.value.(mark := true)];
    }
  }

  /** The recursion of `restorePrototypesInternal` (and of the save walk):
      skip what is not an object or is marked; mark the object; do the
      action, stopping the whole walk when it fails; then visit the array
      elements or own property values in order. `culprit` names the object
      whose step failed. */
  method MarkWalk(g: ObjectGraph, v: Value, action: Action, ghost stack: set<Ref>) returns (outcome: Result<()>, ghost culprit: Ref)
    requires g.Valid()
    requires v.Object? ==> v.ref in g.shapes
    requires stack <= Carrying(g.metas, Mark)
    requires MarkedClosed(g.shapes, g.metas, stack)
    modifies g`metas
    ensures g.Valid()
    ensures OnlyVisited(g.shapes, old(g.metas), g.metas, action)
    ensures v.Object? ==> VisitedReachable(g.shapes, old(g.metas), g.metas, v.ref)
    ensures !v.Object? ==> g.metas == old(g.metas)
    ensures outcome.Ok? ==>
              && MarkedClosed(g.shapes, g.metas, stack)
              && (v.Object? ==> g.metas[v.ref].mark)
              && VisitsSucceeded(g.shapes, old(g.metas), g.metas, action)
    ensures outcome.Error? ==>
              && culprit in g.metas && !old(g.metas[culprit]).mark && g.metas[culprit].mark
              && Step(old(g.metas[culprit]), g.shapes[culprit].isArray, action) == Error(outcome.message)
    decreases |Unmarked(g.metas)|, 1
  {
    culprit := 0;
    if !v.Object? || g.metas[v.ref].mark {
      return Ok(()), 0;
    }
    var r := v.ref;
    var step := Enter(g, r, action);
    ghost var entered := g.metas;
    VisitEnter(g.shapes, old(g.metas), entered, action, stack, r);
    if step.Error? {
      return Error(step.message), r;
    }
    outcome, culprit := VisitKids(g, r, action, stack, |Unmarked(old(g.metas))|);
    VisitCompose(g.shapes, old(g.metas), entered, g.metas, action, r);
  }

  /** The loop of `restorePrototypesInternal` over the elements or own
      property values of the marked object `r`. */
  method VisitKids(g: ObjectGraph, r: Ref, action: Action, ghost stack: set<Ref>, ghost bound: nat) returns (outcome: Result<()>, ghost culprit: Ref)
    requires g.Valid() && r in g.shapes && g.metas[r].mark
    requires stack + {r} <= Carrying(g.metas, Mark)
    requires MarkedClosed(g.shapes, g.metas, stack + {r})
    requires |Unmarked(g.metas)| < bound
    modifies g`metas
    ensures g.Valid()
    ensures OnlyVisited(g.shapes, old(g.metas), g.metas, action)
    ensures VisitedReachable(g.shapes, old(g.metas), g.metas, r)
    ensures outcome.Ok? ==>
              && MarkedClosed(g.shapes, g.metas, stack)
              && VisitsSucceeded(g.shapes, old(g.metas), g.metas, action)
    ensures outcome.Error? ==>
              && culprit in g.metas && !old(g.metas[culprit]).mark && g.metas[culprit].mark
              && Step(old(g.metas[culprit]), g.shapes[culprit].isArray, action) == Error(outcome.message)
    decreases bound, 0
  {
    culprit := 0;
    var kids := g.shapes[r].values;
    var i := 0;
    assert VisitedReachable(g.shapes, g.metas, g.metas, r);
    while i < |kids|
      invariant 0 <= i <= |kids|
      invariant g.Valid()
      invariant OnlyVisited(g.shapes, old(g.metas), g.metas, action)
      invariant stack + {r} <= Carrying(g.metas, Mark)
      invariant |Unmarked(g.metas)| < bound
      invariant VisitedReachable(g.shapes, old(g.metas), g.metas, r)
      invariant VisitsSucceeded(g.shapes, old(g.metas), g.metas, action)
      invariant MarkedClosed(g.shapes, g.metas, stack + {r})
      invariant KidsMarked(kids, i, g.metas)
    {
      ghost var before := g.metas;
      if kids[i].Object? {
        assert Child(g.shapes, r, kids[i].ref);
      }
      outcome, culprit := MarkWalk(g, kids[i], action, stack + {r});
      VisitStep(g.shapes, old(g.metas), before, g.metas, action, r, kids[i]);
      SubsetCardinality(Unmarked(g.metas), Unmarked(before));
      if outcome.Error? {
        return;
      }
      VisitsSucceededStep(g.shapes, old(g.metas), before, g.metas, action);
      KidsMarkedStep(kids, i, g.shapes, before, g.metas, action);
      i := i + 1;
    }
    VisitLeave(g.shapes, g.metas, stack, r);
    outcome := Ok(());
  }

  // ---------------------------------------------------------------------
  // savePrototypes and restorePrototypes

  /** The attributes after a complete walk from `v`: every object reachable
      from `v` has had the action applied, nothing else has changed. */
  ghost function AfterWalk(shapes: map<Ref, Shape>, metas: map<Ref, Meta>, v: Value, action: Action): map<Ref, Meta>
  {
    map n | n in metas ::
      if v.Object? && n in shapes && Reachable(shapes, v.ref, n) then Apply(metas[n], shapes[n].isArray, action)
      else metas[n]
  }

  lemma AfterWalkOfPrimitive(shapes: map<Ref, Shape>, metas: map<Ref, Meta>, v: Value, action: Action)
    requires !v.Object?
    ensures AfterWalk(shapes, metas, v, action) == metas
  {
  }

  /** Neither walk step sets or removes `__mark`. */
  lemma AfterWalkKeepsMarks(shapes: map<Ref, Shape>, metas: map<Ref, Meta>, v: Value, action: Action)
    ensures Carrying(AfterWalk(shapes, metas, v, action), Mark) == Carrying(metas, Mark)
  {
  }

  /** Saving twice leaves what saving once leaves: the tag depends only on
      the prototype, which the save walk does not change. */
  lemma SaveIdempotent(shapes: map<Ref, Shape>, metas: map<Ref, Meta>, v: Value, stamps: map<Constructor, string>)
    ensures var once := AfterWalk(shapes, metas, v, Tag(stamps));
            AfterWalk(shapes, once, v, Tag(stamps)) == once
  {
  }

  lemma AfterStripOfPrimitive(shapes: map<Ref, Shape>, metas: map<Ref, Meta>, v: Value, a: Attribute)
    requires !v.Object?
    ensures AfterStrip(shapes, metas, v, a) == metas
  {
  }

  /** A walk from an unmarked graph that did not stop marks exactly what is
      reachable, each through marked objects. */
  lemma WalkMarksReachable(shapes: map<Ref, Shape>, m0: map<Ref, Meta>, m1: map<Ref, Meta>, root: Ref, action: Action)
    requires root in shapes && Carrying(m0, Mark) == {}
    requires OnlyVisited(shapes, m0, m1, action)
    requires VisitedReachable(shapes, m0, m1, root)
    requires MarkedClosed(shapes, m1, {}) && root in m1 && m1[root].mark
    ensures forall n :: n in m1 ==> (m1[n].mark <==> Reachable(shapes, root, n))
    ensures forall n :: n in m1 && m1[n].mark ==> ReachableThrough(shapes, root, n, Carrying(m1, Mark))
  {
    forall n | n in m1
      ensures m1[n].mark <==> Reachable(shapes, root, n)
      ensures m1[n].mark ==> ReachableThrough(shapes, root, n, Carrying(m1, Mark))
    {
      if m1[n].mark {
        assert n !in Carrying(m0, Mark);
        ReachMonotonic(shapes, root, n, Carrying(m1, Mark), shapes.Keys);
      }
      if Reachable(shapes, root, n) {
        ClosedSetHoldsReachable(shapes, root, n, shapes.Keys, Carrying(m1, Mark));
      }
    }
  }

  /** ... so the `stripMarks` that follows removes every mark and leaves the
      action's result. */
  lemma WalkThenStrip(shapes: map<Ref, Shape>, m0: map<Ref, Meta>, m1: map<Ref, Meta>, v: Value, action: Action)
    requires v.Object? && v.ref in shapes && Carrying(m0, Mark) == {}
    requires OnlyVisited(shapes, m0, m1, action)
    requires VisitedReachable(shapes, m0, m1, v.ref)
    requires MarkedClosed(shapes, m1, {}) && v.ref in m1 && m1[v.ref].mark
    ensures AfterStrip(shapes, m1, v, Mark) == AfterWalk(shapes, m0, v, action)
  {
    WalkMarksReachable(shapes, m0, m1, v.ref, action);
    forall n | n in m1
      ensures AfterStrip(shapes, m1, v, Mark)[n] == AfterWalk(shapes, m0, v, action)[n]
    {
      StripAfterWalkAt(shapes, m0, m1, v, action, n);
    }
  }

  lemma StripAfterWalkAt(shapes: map<Ref, Shape>, m0: map<Ref, Meta>, m1: map<Ref, Meta>, v: Value, action: Action, n: Ref)
    requires v.Object? && n in m1 && Carrying(m0, Mark) == {}
    requires OnlyVisited(shapes, m0, m1, action)
    requires m1[n].mark <==> Reachable(shapes, v.ref, n)
    requires m1[n].mark ==> ReachableThrough(shapes, v.ref, n, Carrying(m1, Mark))
    ensures AfterStrip(shapes, m1, v, Mark)[n] == AfterWalk(shapes, m0, v, action)[n]
  {
    assert n !in Carrying(m0, Mark);
  }

  /** `savePrototypes` in its corrected form: a walk guarded by `__mark` that
      gives every reachable object its class tag (clearing the tag of
      arrays and plain objects), followed by `stripMarks`. */
  method SavePrototypes(g: ObjectGraph, v: Value) returns (saved: Value)
    requires g.Valid()
    requires v.Object? ==> v.ref in g.shapes
    requires Carrying(g.metas, Mark) == {}
    modifies g`metas
    ensures saved == v && g.Valid() && Carrying(g.metas, Mark) == {}
    ensures g.metas == AfterWalk(g.shapes, old(g.metas), v, Tag(g.stamps))
  {
    ghost var m0 := g.metas;
    var outcome, culprit := MarkWalk(g, v, Tag(g.stamps), {});
    ghost var m1 := g.metas;
    StripMarks(g, v);
    if v.Object? {
      WalkThenStrip(g.shapes, m0, m1, v, Tag(g.stamps));
    } else {
      AfterStripOfPrimitive(g.shapes, m1, v, Mark);
      AfterWalkOfPrimitive(g.shapes, m0, v, Tag(g.stamps));
    }
    AfterWalkKeepsMarks(g.shapes, m0, v, Tag(g.stamps));
    saved := v;
  }

  /** Every object reachable from `v` passes the restore walk's tag check. */
  ghost predicate AllTagsKnown(shapes: map<Ref, Shape>, metas: map<Ref, Meta>, v: Value, registry: map<string, Constructor>) {
    v.Object? ==> forall n :: n in metas && n in shapes && Reachable(shapes, v.ref, n) ==> KnownTag(metas[n], shapes[n].isArray, registry)
  }

  /** A restore walk that did not stop found every reachable tag in the registry. */
  lemma RestoreWalkKnewTags(shapes: map<Ref, Shape>, m0: map<Ref, Meta>, m1: map<Ref, Meta>, v: Value, registry: map<string, Constructor>)
    requires v.Object? && v.ref in shapes && Carrying(m0, Mark) == {}
    requires OnlyVisited(shapes, m0, m1, Restore(registry))
    requires VisitedReachable(shapes, m0, m1, v.ref)
    requires VisitsSucceeded(shapes, m0, m1, Restore(registry))
    requires MarkedClosed(shapes, m1, {}) && v.ref in m1 && m1[v.ref].mark
    ensures AllTagsKnown(shapes, m0, v, registry)
  {
    WalkMarksReachable(shapes, m0, m1, v.ref, Restore(registry));
    forall n | n in m0 && n in shapes && Reachable(shapes, v.ref, n)
      ensures KnownTag(m0[n], shapes[n].isArray, registry)
    {
      assert n !in Carrying(m0, Mark);
      assert Step(m0[n], shapes[n].isArray, Restore(registry)).Ok?;
    }
  }

  /** A restore walk that stopped did so at a reachable object with an unknown tag. */
  lemma RestoreWalkFailed(shapes: map<Ref, Shape>, m0: map<Ref, Meta>, m1: map<Ref, Meta>, v: Value,
                          registry: map<string, Constructor>, culprit: Ref, message: string)
    requires v.Object?
    requires OnlyVisited(shapes, m0, m1, Restore(registry))
    requires VisitedReachable(shapes, m0, m1, v.ref)
    requires culprit in m1 && !m0[culprit].mark && m1[culprit].mark
    requires Step(m0[culprit], shapes[culprit].isArray, Restore(registry)) == Error(message)
    ensures culprit in m0 && culprit in shapes && Reachable(shapes, v.ref, culprit)
    ensures !KnownTag(m0[culprit], shapes[culprit].isArray, registry)
    ensures message == "Unknown prototype " + m0[culprit].className
    ensures !AllTagsKnown(shapes, m0, v, registry)
  {
    ReachMonotonic(shapes, v.ref, culprit, Carrying(m1, Mark), shapes.Keys);
  }

  /** `restorePrototypes`: the restore walk, then `stripMarks`. It fails, with
      the message the code throws, exactly when a reachable object is tagged
      with a name the registry does not hold; the marks the walk set stay. */
  method RestorePrototypes(g: ObjectGraph, registry: map<string, Constructor>, v: Value) returns (result: Result<Value>)
    requires g.Valid()
    requires v.Object? ==> v.ref in g.shapes
    requires Carrying(g.metas, Mark) == {}
    modifies g`metas
    ensures g.Valid() && g.metas.Keys == old(g.metas.Keys)
    ensures result.Ok? <==> AllTagsKnown(g.shapes, old(g.metas), v, registry)
    ensures result.Ok? ==> result.value == v && g.metas == AfterWalk(g.shapes, old(g.metas), v, Restore(registry))
    ensures result.Error? ==>
              exists n :: n in old(g.metas) && n in g.shapes && v.Object? && Reachable(g.shapes, v.ref, n)
                          && !KnownTag(old(g.metas)[n], g.shapes[n].isArray, registry)
                          && result.message == "Unknown prototype " + old(g.metas)[n].className
  {
    ghost var m0 := g.metas;
    var outcome, culprit := MarkWalk(g, v, Restore(registry), {});
    if !v.Object? {
      AfterWalkOfPrimitive(g.shapes, m0, v, Restore(registry));
      return Ok(v);
    }
    if outcome.Error? {
      RestoreWalkFailed(g.shapes, m0, g.metas, v, registry, culprit, outcome.message);
      return Error(outcome.message);
    }
    ghost var m1 := g.metas;
    RestoreWalkKnewTags(g.shapes, m0, m1, v, registry);
    StripMarks(g, v);
    WalkThenStrip(g.shapes, m0, m1, v, Restore(registry));
    result := Ok(v);
  }

  // ---------------------------------------------------------------------
  // savePrototypesInternal as written

  /** `savePrototypesInternal` as the code has it, over the tags alone:
      `classNames` holds each object's `__className` ("" for none) and `tagOf`
      the tag the class rule gives it (`TagFor`, "" for none). Only a tag
      stops the walk; there is no `__mark`. `None` means that `fuel` levels of
      nested calls did not suffice. */
  function SaveInternalAsWritten(shapes: map<Ref, Shape>, classNames: map<Ref, string>, tagOf: map<Ref, string>,
                                 v: Value, fuel: nat): Option<map<Ref, string>>
    decreases fuel, 0
  {
    if fuel == 0 then None
    else if !v.Object? || v.ref !in shapes || v.ref !in classNames || v.ref !in tagOf then Some(classNames)
    else if classNames[v.ref] != "" then Some(classNames)
    else
      var r := v.ref;
      var tagged := if shapes[r].isArray || tagOf[r] == "" then classNames else classNames[r := tagOf[r]];
      SaveChildrenAsWritten(shapes, tagged, tagOf, shapes[r].values, fuel - 1)
  }

  function SaveChildrenAsWritten(shapes: map<Ref, Shape>, classNames: map<Ref, string>, tagOf: map<Ref, string>,
                                 vs: seq<Value>, fuel: nat): Option<map<Ref, string>>
    decreases fuel, |vs| + 1
  {
    if vs == [] then Some(classNames)
    else match SaveInternalAsWritten(shapes, classNames, tagOf, vs[0], fuel)
      case None => None
      case Some(next) => SaveChildrenAsWritten(shapes, next, tagOf, vs[1..], fuel)
  }

  /** A plain object that holds a reference to itself (`o.self = o`) is never
      tagged, so the walk as written never stops on it, whatever the fuel. */
  lemma {:induction false} SaveAsWrittenLoopsOnSelfReference(c: Constructor, stamps: map<Constructor, string>, fuel: nat)
    requires c.name == "Object" && NameStamp(stamps, c) == ""
    ensures SaveInternalAsWritten(map[0 := Shape(false, [Object(0)])], map[0 := ""], map[0 := TagFor(c, stamps)], Object(0), fuel) == None
    decreases fuel
  {
    if fuel > 0 {
      SaveAsWrittenLoopsOnSelfReference(c, stamps, fuel - 1);
    }
  }

  /** An argument array holding an object that still carries a tag from an
      earlier save (a `Citable`, whose `__className` is also a field of its
      own), which holds an object of a class with methods: the walk as
      written stops at the tagged object and never tags the one below it. */
  lemma SaveAsWrittenStopsAtEarlierTag(fuel: nat)
    requires fuel >= 2
    ensures var shapes := map[0 := Shape(true, [Object(1)]), 1 := Shape(false, [Object(2)]), 2 := Shape(false, [])];
            var classNames := map[0 := "", 1 := "Citable", 2 := ""];
            var tagOf := map[0 := "", 1 := "Citable", 2 := "ONodeSet"];
            SaveInternalAsWritten(shapes, classNames, tagOf, Object(0), fuel) == Some(classNames)
  {
    var shapes := map[0 := Shape(true, [Object(1)]), 1 := Shape(false, [Object(2)]), 2 := Shape(false, [])];
    var classNames := map[0 := "", 1 := "Citable", 2 := ""];
    var tagOf := map[0 := "", 1 := "Citable", 2 := "ONodeSet"];
    assert SaveInternalAsWritten(shapes, classNames, tagOf, Object(1), fuel - 1) == Some(classNames);
    assert SaveChildrenAsWritten(shapes, classNames, tagOf, [Object(1)], fuel - 1) == Some(classNames);
  }
}
