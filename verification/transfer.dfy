/** A value crossing between the page and a worker: `savePrototypes` on the
    sender, `postMessage` (a structured clone), then `restorePrototypes` on
    the receiver. The clone keeps an array's or a plain object's own
    properties, `__className` among them, and gives every non-array object
    `Object.prototype`; an object of a built-in class is rebuilt as that
    class, without the properties added to it. */
module Transfer {
  import opened Wrappers
  import opened ObjectGraph
  import opened Serializer

  /** What a structured clone makes of one object's attributes. */
  function CloneMeta(m: Meta, isArray: bool, objectProto: Constructor): Meta {
    if isArray then m
    else if m.proto.builtin then Meta("", false, m.proto)
    else Meta(m.className, m.mark, objectProto)
  }

  /** The attributes a structured clone gives the copy of each object. */
  function Cloned(shapes: map<Ref, Shape>, metas: map<Ref, Meta>, objectProto: Constructor): map<Ref, Meta> {
    map n | n in metas :: CloneMeta(metas[n], n in shapes && shapes[n].isArray, objectProto)
  }

  /** The structure of the copy: a built-in object has none of the
      properties added to it, every other object keeps its own. */
  function ClonedShapes(shapes: map<Ref, Shape>, metas: map<Ref, Meta>): map<Ref, Shape> {
    map n | n in shapes :: if n in metas && !shapes[n].isArray && metas[n].proto.builtin then Shape(false, []) else shapes[n]
  }

  /** The copy holds no reference the original does not. */
  lemma ClonedChild(shapes: map<Ref, Shape>, metas: map<Ref, Meta>, a: Ref, b: Ref)
    requires Child(ClonedShapes(shapes, metas), a, b)
    ensures Child(shapes, a, b)
  {
  }

  /** What is reachable in the copy was reachable in the original. */
  lemma ClonedReach(shapes: map<Ref, Shape>, metas: map<Ref, Meta>, a: Ref, b: Ref)
    requires Reachable(ClonedShapes(shapes, metas), a, b)
    ensures Reachable(shapes, a, b)
  {
    var cs := ClonedShapes(shapes, metas);
    assert cs.Keys == shapes.Keys;
    var p :| IsPath(cs, p) && p[0] == a && p[|p| - 1] == b && forall i :: 0 <= i < |p| - 1 ==> p[i] in cs.Keys;
    forall i | 0 <= i < |p| - 1
      ensures Child(shapes, p[i], p[i + 1])
    {
      ClonedChild(shapes, metas, p[i], p[i + 1]);
    }
    assert IsPath(shapes, p);
  }

  /** `postMessage`: the receiver gets a copy with the same objects. Its
      constructors carry the `__name`s its own registry gave them, which are
      the sender's, both sides running the same registry factory. */
  method StructuredClone(g: ObjectGraph, objectProto: Constructor) returns (copy: ObjectGraph)
    requires g.Valid()
    ensures fresh(copy) && copy.Valid()
    ensures copy.shapes == ClonedShapes(g.shapes, g.metas) && copy.stamps == g.stamps
    ensures copy.metas == Cloned(g.shapes, g.metas, objectProto)
  {
    copy := new ObjectGraph();
    copy.shapes := ClonedShapes(g.shapes, g.metas);
    copy.metas := Cloned(g.shapes, g.metas, objectProto);
    copy.stamps := g.stamps;
    copy.next := g.next;
    forall a, b | Child(copy.shapes, a, b)
      ensures b in copy.shapes
    {
      ClonedChild(g.shapes, g.metas, a, b);
    }
  }

  /** The registry maps "Object" to `Object.prototype`, which is a plain,
      unstamped prototype without methods. */
  predicate RegistryBasics(registry: map<string, Constructor>, stamps: map<Constructor, string>, objectProto: Constructor) {
    && "Object" in registry && registry["Object"] == objectProto
    && objectProto.name == "Object" && NameStamp(stamps, objectProto) == "" && !objectProto.hasMethods
  }

  /** The class carries the `__name` it is registered under. */
  predicate Registered(registry: map<string, Constructor>, stamps: map<Constructor, string>, c: Constructor) {
    var stamp := NameStamp(stamps, c);
    stamp != "" && stamp in registry && registry[stamp] == c
  }

  /** The prototype an object of class `c` should arrive with: its own when
      it is an array, its class has methods or is built in,
      `Object.prototype` otherwise. */
  function Arrived(c: Constructor, isArray: bool, objectProto: Constructor): Constructor {
    if isArray || c.hasMethods || c.builtin then c else objectProto
  }

  /** The classes that must be registered for a round trip: those with
      methods whose objects the clone copies as plain objects. */
  predicate NeedsRegistry(c: Constructor, isArray: bool) {
    !isArray && c.hasMethods && !c.builtin
  }

  /** One object's round trip: the tag the save walk gives it survives the
      clone, or the clone drops it with a built-in object, and the restore
      walk gives back the prototype the object needs. */
  lemma RoundTripObject(m: Meta, isArray: bool, registry: map<string, Constructor>, stamps: map<Constructor, string>, objectProto: Constructor)
    requires RegistryBasics(registry, stamps, objectProto) && !m.mark
    requires NeedsRegistry(m.proto, isArray) ==> Registered(registry, stamps, m.proto)
    ensures var cloned := CloneMeta(Apply(m, isArray, Tag(stamps)), isArray, objectProto);
            && KnownTag(cloned, isArray, registry)
            && Apply(cloned, isArray, Restore(registry)) == Meta("", false, Arrived(m.proto, isArray, objectProto))
  {
  }

  /** The receiving graph before the restore walk, and what it becomes: every
      object reachable in the copy, which was reachable in the original, is
      accepted and gets the prototype `Arrived` gives. */
  lemma TransferredGraph(shapes: map<Ref, Shape>, m0: map<Ref, Meta>, v: Value, registry: map<string, Constructor>,
                         stamps: map<Constructor, string>, objectProto: Constructor)
    requires v.Object? && m0.Keys <= shapes.Keys && Carrying(m0, Mark) == {}
    requires RegistryBasics(registry, stamps, objectProto)
    requires forall n :: n in m0 && Reachable(shapes, v.ref, n) && NeedsRegistry(m0[n].proto, shapes[n].isArray) ==> Registered(registry, stamps, m0[n].proto)
    ensures var saved := AfterWalk(shapes, m0, v, Tag(stamps));
            var copied := ClonedShapes(shapes, saved);
            var cloned := Cloned(shapes, saved, objectProto);
            && Carrying(cloned, Mark) == {}
            && AllTagsKnown(copied, cloned, v, registry)
            && forall n :: n in m0 && Reachable(copied, v.ref, n) ==>
                 AfterWalk(copied, cloned, v, Restore(registry))[n] == Meta("", false, Arrived(m0[n].proto, shapes[n].isArray, objectProto))
  {
    var saved := AfterWalk(shapes, m0, v, Tag(stamps));
    var copied := ClonedShapes(shapes, saved);
    var cloned := Cloned(shapes, saved, objectProto);
    forall n | n in m0
      ensures !cloned[n].mark
      ensures Reachable(copied, v.ref, n) ==>
                && KnownTag(cloned[n], copied[n].isArray, registry)
                && AfterWalk(copied, cloned, v, Restore(registry))[n] == Meta("", false, Arrived(m0[n].proto, shapes[n].isArray, objectProto))
    {
      assert n !in Carrying(m0, Mark);
      if Reachable(copied, v.ref, n) {
        ClonedReach(shapes, saved, v.ref, n);
        assert copied[n].isArray == shapes[n].isArray;
        RoundTripObject(m0[n], shapes[n].isArray, registry, stamps, objectProto);
      }
    }
  }

  /** A value sent from `sender` arrives with every object reachable in the
      copy given the prototype `Arrived` says, without tags or marks,
      provided every class reached that needs the registry is registered.
      The sender's objects keep the tags the save walk gave them. */
  method Transfer(sender: ObjectGraph, v: Value, registry: map<string, Constructor>, objectProto: Constructor)
    returns (receiver: ObjectGraph, result: Result<Value>)
    requires sender.Valid()
    requires v.Object? ==> v.ref in sender.shapes
    requires Carrying(sender.metas, Mark) == {}
    requires RegistryBasics(registry, sender.stamps, objectProto)
    requires v.Object? ==>
               forall n :: n in sender.metas && Reachable(sender.shapes, v.ref, n) && NeedsRegistry(sender.metas[n].proto, sender.shapes[n].isArray)
                 ==> Registered(registry, sender.stamps, sender.metas[n].proto)
    modifies sender`metas
    ensures sender.metas == AfterWalk(sender.shapes, old(sender.metas), v, Tag(sender.stamps))
    ensures fresh(receiver) && receiver.Valid() && receiver.shapes == ClonedShapes(sender.shapes, sender.metas)
    ensures result == Ok(v)
    ensures v.Object? ==> forall n :: n in receiver.metas && Reachable(receiver.shapes, v.ref, n) ==>
              receiver.metas[n] == Meta("", false, Arrived(old(sender.metas[n]).proto, sender.shapes[n].isArray, objectProto))
  {
    ghost var m0 := sender.metas;
    var saved := SavePrototypes(sender, v);
    receiver := StructuredClone(sender, objectProto);
    ghost var cloned := receiver.metas;
    if v.Object? {
      TransferredGraph(sender.shapes, m0, v, registry, sender.stamps, objectProto);
    } else {
      AfterWalkOfPrimitive(sender.shapes, m0, v, Tag(sender.stamps));
    }
    assert AllTagsKnown(receiver.shapes, cloned, v, registry);
    result := RestorePrototypes(receiver, registry, saved);
    assert result.Ok?;
  }

  /** A registered class object holding a `Date` (a `Citable` and its
      `dateCreated`): the save walk tags the `Date` "Date", which no registry
      entry names, yet the value arrives with the `Date` intact, because the
      clone drops the tag. */
  lemma DateArrivesIntact(registry: map<string, Constructor>, stamps: map<Constructor, string>, objectProto: Constructor,
                          citable: Constructor, date: Constructor)
    requires RegistryBasics(registry, stamps, objectProto) && Registered(registry, stamps, citable) && !citable.builtin
    requires date == Constructor(date.id, "Date", true, true) && NameStamp(stamps, date) == "" && "Date" !in registry
    ensures var shapes := map[0 := Shape(false, [Object(1)]), 1 := Shape(false, [])];
            var m0 := map[0 := Meta("", false, citable), 1 := Meta("", false, date)];
            var saved := AfterWalk(shapes, m0, Object(0), Tag(stamps));
            var copied := ClonedShapes(shapes, saved);
            var cloned := Cloned(shapes, saved, objectProto);
            && saved[1].className == "Date"
            && AllTagsKnown(copied, cloned, Object(0), registry)
            && AfterWalk(copied, cloned, Object(0), Restore(registry))[1] == Meta("", false, date)
  {
    var shapes := map[0 := Shape(false, [Object(1)]), 1 := Shape(false, [])];
    var m0 := map[0 := Meta("", false, citable), 1 := Meta("", false, date)];
    ReachSelf(shapes, 0, shapes.Keys);
    ReachSelf(shapes, 1, shapes.Keys);
    ReachPrepend(shapes, 0, 1, 1, shapes.Keys);
    var saved := AfterWalk(shapes, m0, Object(0), Tag(stamps));
    assert saved[0].proto == citable;
    var copied := ClonedShapes(shapes, saved);
    assert Child(copied, 0, 1);
    ReachSelf(copied, 1, copied.Keys);
    ReachPrepend(copied, 0, 1, 1, copied.Keys);
    TransferredGraph(shapes, m0, Object(0), registry, stamps, objectProto);
  }
}
