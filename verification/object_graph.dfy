/** The JavaScript heap as the worker bridge sees it.

    An object graph is split in two parts. The structure is the own enumerable
    property values of each object (or the elements of each array). The
    protocol attributes are its `__className` tag, its `__mark` and its
    prototype. The serializer and deserializer walks change only the second
    part, so what is reachable from a value never changes while they run. */
module ObjectGraph {

  type Ref = nat

  /** A JavaScript value as the walks see it. Everything that is not an object
      reference is skipped by them: primitives, `null`, `undefined`, functions. */
  datatype Value = Primitive(text: string) | Function | Object(ref: Ref)

  /** The own enumerable property values of an object (the elements of an
      array), in iteration order. */
  datatype Shape = Shape(isArray: bool, values: seq<Value>)

  /** A class, standing also for its `prototype` object. `id` tells classes
      apart; `name` is the constructor's `name`; `hasMethods` says whether
      some prototype of its chain below `Object.prototype` holds a
      function-valued property other than `constructor`; `builtin` says it is
      one of the platform's classes that a structured clone rebuilds as
      such (`Date`, `RegExp`, `Map`, `Set` and the like) instead of copying
      the object's own properties. The `__name` the prototype registry
      writes onto a constructor is kept in the graph's `stamps`. */
  datatype Constructor = Constructor(id: nat, name: string, hasMethods: bool, builtin: bool)

  /** `c.__name`, "" while absent (as every falsy value is to the code). */
  function NameStamp(stamps: map<Constructor, string>, c: Constructor): string {
    if c in stamps then stamps[c] else ""
  }

  /** The protocol attributes of one object: `__className` ("" when absent, as
      every falsy value is to the code), `__mark`, and the prototype. */
  datatype Meta = Meta(className: string, mark: bool, proto: Constructor)

  predicate Child(shapes: map<Ref, Shape>, a: Ref, b: Ref) {
    a in shapes && Object(b) in shapes[a].values
  }

  /** Every reference held by an object points at an object of the graph. */
  ghost predicate Closed(shapes: map<Ref, Shape>) {
    forall a, b :: Child(shapes, a, b) ==> b in shapes
  }

  class ObjectGraph {
    var shapes: map<Ref, Shape>
    var metas: map<Ref, Meta>
    /** The `__name` properties written onto constructors. */
    var stamps: map<Constructor, string>
    var next: Ref

    ghost predicate Valid()
      reads this
    {
      && shapes.Keys == metas.Keys
      && (forall r :: r in shapes ==> r < next)
      && Closed(shapes)
    }

    constructor ()
      ensures Valid() && shapes == map[] && metas == map[] && stamps == map[]
    {
      shapes, metas, stamps, next := map[], map[], map[], 0;
    }

    /** Allocates a fresh object or array with the given property values. */
    method Allocate(shape: Shape, proto: Constructor) returns (r: Ref)
      requires Valid()
      requires forall b :: Object(b) in shape.values ==> b in shapes
      modifies this
      ensures Valid() && r !in old(shapes)
      ensures shapes == old(shapes)[r := shape]
      ensures metas == old(metas)[r := Meta("", false, proto)]
      ensures stamps == old(stamps)
    {
      r := next;
      shapes := shapes[r := shape];
      metas := metas[r := Meta("", false, proto)];
      next := next + 1;
      forall a, b | Child(shapes, a, b)
        ensures b in shapes
      {
        if a != r {
          assert Child(old(shapes), a, b);
        }
      }
    }
  }

  // ---------------------------------------------------------------------
  // Reachability

  ghost predicate IsPath(shapes: map<Ref, Shape>, p: seq<Ref>) {
    && |p| >= 1
    && (forall i :: 0 <= i < |p| ==> p[i] in shapes)
    && (forall i :: 0 <= i < |p| - 1 ==> Child(shapes, p[i], p[i + 1]))
  }

  /** `b` can be reached from `a` along references, every object on the way
      except `b` itself being in `via`. */
  ghost predicate ReachableThrough(shapes: map<Ref, Shape>, a: Ref, b: Ref, via: set<Ref>) {
    exists p :: IsPath(shapes, p) && p[0] == a && p[|p| - 1] == b
                && forall i :: 0 <= i < |p| - 1 ==> p[i] in via
  }

  ghost predicate Reachable(shapes: map<Ref, Shape>, a: Ref, b: Ref) {
    ReachableThrough(shapes, a, b, shapes.Keys)
  }

  lemma ReachSelf(shapes: map<Ref, Shape>, a: Ref, via: set<Ref>)
    requires a in shapes
    ensures ReachableThrough(shapes, a, a, via)
  {
    assert IsPath(shapes, [a]);
  }

  lemma ReachPrepend(shapes: map<Ref, Shape>, a: Ref, b: Ref, c: Ref, via: set<Ref>)
    requires a in via && Child(shapes, a, b)
    requires ReachableThrough(shapes, b, c, via)
    ensures ReachableThrough(shapes, a, c, via)
  {
    var p :| IsPath(shapes, p) && p[0] == b && p[|p| - 1] == c
             && forall i :: 0 <= i < |p| - 1 ==> p[i] in via;
    var q := [a] + p;
    assert forall i :: 0 <= i < |q| - 1 ==> Child(shapes, q[i], q[i + 1]) by {
      forall i | 0 <= i < |q| - 1
        ensures Child(shapes, q[i], q[i + 1])
      {
        if i > 0 {
          assert q[i] == p[i - 1] && q[i + 1] == p[i];
        }
      }
    }
    assert IsPath(shapes, q);
  }

  lemma ReachMonotonic(shapes: map<Ref, Shape>, a: Ref, b: Ref, via: set<Ref>, via': set<Ref>)
    requires via <= via'
    requires ReachableThrough(shapes, a, b, via)
    ensures ReachableThrough(shapes, a, b, via')
  {
  }

  /** A set that holds `a` and, for each of its members in `via`, all their
      children, holds everything reachable from `a` through `via`. */
  lemma {:induction false} ClosedSetHoldsReachable(shapes: map<Ref, Shape>, a: Ref, b: Ref, via: set<Ref>, c: set<Ref>)
    requires a in c
    requires forall n, m :: n in c && n in via && Child(shapes, n, m) ==> m in c
    requires ReachableThrough(shapes, a, b, via)
    ensures b in c
  {
    var p :| IsPath(shapes, p) && p[0] == a && p[|p| - 1] == b
             && forall i :: 0 <= i < |p| - 1 ==> p[i] in via;
    var k := 0;
    while k < |p| - 1
      invariant 0 <= k <= |p| - 1
      invariant p[k] in c
    {
      assert Child(shapes, p[k], p[k + 1]);
      k := k + 1;
    }
  }

  // ---------------------------------------------------------------------
  // The two attributes the walks set and remove

  /** `__mark`, set by a walk on each object it enters, and `__className`. */
  datatype Attribute = Mark | ClassName

  predicate Has(m: Meta, a: Attribute) {
    if a == Mark then m.mark else m.className != ""
  }

  /** `delete` of the attribute. */
  function Without(m: Meta, a: Attribute): Meta {
    if a == Mark then m.(mark := false) else m.(className := "")
  }

  ghost function Carrying(metas: map<Ref, Meta>, a: Attribute): set<Ref> {
    set r | r in metas && Has(metas[r], a)
  }

  ghost function Unmarked(metas: map<Ref, Meta>): set<Ref> {
    set r | r in metas && !metas[r].mark
  }

  lemma SubsetCardinality<T>(a: set<T>, b: set<T>)
    requires a <= b
    ensures |a| <= |b|
  {
    if a != {} {
      var x :| x in a;
      SubsetCardinality(a - {x}, b - {x});
    }
  }

  lemma SubsetSmaller<T>(a: set<T>, b: set<T>, x: T)
    requires a <= b - {x} && x in b
    ensures |a| < |b|
  {
    SubsetCardinality(a, b - {x});
    assert b == (b - {x}) + {x};
  }
}
