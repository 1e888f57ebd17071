/** The prototype registry of the worker bridge: the classes whose instances
    may cross between the page and a worker, each under the name the
    serializer tags it with. */
module Registry {
  import opened ObjectGraph
  import opened Dict
  import opened Serializer
  import opened Transfer

  /** The names of the registered classes, in the order the registry lists them. */
  const ListedNames: seq<string> := [
    "Project", "CNode", "NamedNode", "Citable", "FMap", "Class", "Property",
    "PrimaryEndpointConfiguration", "RemoteEndpointConfiguration", "CitableSource",
    "ProjectSourceInfo", "Schema", "ONodeSet", "StringSet", "NodeMap", "DataModel",
    "PropertyAndValue", "Item", "PropertyToValues", "FullRichNodeFromNode"
  ]

  predicate Distinct<T(==)>(xs: seq<T>) {
    forall i, j :: 0 <= i < j < |xs| ==> xs[i] != xs[j]
  }

  /** The object literal `{name0: class0, name1: class1, ...}`. */
  function Literal(names: seq<string>, classes: seq<Constructor>): (d: Dict<Constructor>)
    requires |names| == |classes| && Distinct(names)
    ensures d.Valid() && d.keys == names
    ensures forall i :: 0 <= i < |names| ==> d.entries[names[i]] == classes[i]
  {
    if names == [] then Empty()
    else
      var n := |names| - 1;
      var d := Literal(names[..n], classes[..n]);
      assert names[n] !in d.keys;
      d.SetKeepsValid(names[n], classes[n]);
      d.Set(names[n], classes[n])
  }

  /** The registry factory over the listed `names` and their `classes`.
      Every listed class is stamped with `__name` equal to the name it is
      listed under; `Object` is added afterwards, so it is registered without
      being stamped. The result maps each name, in listing order and then
      "Object", to that class's prototype. */
  method BuildPrototypeMappings(heap: ObjectGraph, names: seq<string>, classes: seq<Constructor>, objectClass: Constructor)
    returns (prototypeMappings: Dict<Constructor>)
    requires |names| == |classes| && Distinct(names) && "Object" !in names
    requires Distinct(classes) && objectClass !in classes
    modifies heap`stamps
    ensures forall i :: 0 <= i < |classes| ==> NameStamp(heap.stamps, classes[i]) == names[i]
    ensures forall c :: c !in classes ==> NameStamp(heap.stamps, c) == NameStamp(old(heap.stamps), c)
    ensures prototypeMappings.Valid() && prototypeMappings.keys == names + ["Object"]
    ensures forall i :: 0 <= i < |classes| ==> prototypeMappings.entries[names[i]] == classes[i]
    ensures prototypeMappings.entries["Object"] == objectClass
  {
    var literal := Literal(names, classes);
    StampNames(heap, literal, classes);
    literal.SetKeepsValid("Object", objectClass);
    var mappings := literal.Set("Object", objectClass);
    prototypeMappings := PrototypesOf(mappings);
    assert mappings.keys[|names|] == "Object";
  }

  /** The second `for..in` loop of the factory: each name is mapped to the
      `prototype` of its class (a `Constructor` stands for both). */
  method PrototypesOf(mappings: Dict<Constructor>) returns (prototypeMappings: Dict<Constructor>)
    requires mappings.Valid()
    ensures prototypeMappings == mappings
  {
    prototypeMappings := Empty();
    var i := 0;
    while i < |mappings.keys|
      invariant 0 <= i <= |mappings.keys|
      invariant prototypeMappings.Valid() && prototypeMappings.keys == mappings.keys[..i]
      invariant forall j :: 0 <= j < i ==> prototypeMappings.entries[mappings.keys[j]] == mappings.entries[mappings.keys[j]]
    {
      var className := mappings.keys[i];
      assert className !in prototypeMappings.keys;
      prototypeMappings.SetKeepsValid(className, mappings.entries[className]);
      prototypeMappings := prototypeMappings.Set(className, mappings.entries[className]);
      i := i + 1;
    }
    assert prototypeMappings.keys == mappings.keys;
    assert prototypeMappings.entries == mappings.entries;
  }

  /** The first `for..in` loop of the factory: each class of the literal
      gets its key as `__name`; no other constructor's `__name` changes. */
  method StampNames(heap: ObjectGraph, mappings: Dict<Constructor>, classes: seq<Constructor>)
    requires |mappings.keys| == |classes| && Distinct(classes)
    requires forall j :: 0 <= j < |classes| ==> mappings.keys[j] in mappings.entries && mappings.entries[mappings.keys[j]] == classes[j]
    modifies heap`stamps
    ensures forall j :: 0 <= j < |classes| ==> NameStamp(heap.stamps, classes[j]) == mappings.keys[j]
    ensures forall c :: c !in classes ==> NameStamp(heap.stamps, c) == NameStamp(old(heap.stamps), c)
  {
    var i := 0;
    while i < |mappings.keys|
      invariant 0 <= i <= |classes|
      invariant forall j :: 0 <= j < i ==> NameStamp(heap.stamps, classes[j]) == mappings.keys[j]
      invariant forall c :: c !in classes[..i] ==> NameStamp(heap.stamps, c) == NameStamp(old(heap.stamps), c)
    {
      var className := mappings.keys[i];
      heap.stamps := heap.stamps[mappings.entries[className] := className];
      assert classes[..i + 1] == classes[..i] + [classes[i]];
      i := i + 1;
    }
    assert classes[..i] == classes;
  }

  /** The position of a listed name in `ListedNames`, -1 for any other string. */
  function ListedIndex(s: string): int {
    if s == "Project" then 0 else if s == "CNode" then 1 else if s == "NamedNode" then 2
    else if s == "Citable" then 3 else if s == "FMap" then 4 else if s == "Class" then 5
    else if s == "Property" then 6 else if s == "PrimaryEndpointConfiguration" then 7
    else if s == "RemoteEndpointConfiguration" then 8 else if s == "CitableSource" then 9
    else if s == "ProjectSourceInfo" then 10 else if s == "Schema" then 11
    else if s == "ONodeSet" then 12 else if s == "StringSet" then 13 else if s == "NodeMap" then 14
    else if s == "DataModel" then 15 else if s == "PropertyAndValue" then 16 else if s == "Item" then 17
    else if s == "PropertyToValues" then 18 else if s == "FullRichNodeFromNode" then 19 else -1
  }

  /** The listed names are twenty distinct, non-empty names, none of them "Object". */
  lemma ListedNamesDistinct()
    ensures |ListedNames| == 20 && Distinct(ListedNames) && "Object" !in ListedNames
    ensures forall i :: 0 <= i < |ListedNames| ==> ListedNames[i] != ""
  {
    assert forall i :: 0 <= i < |ListedNames| ==> ListedIndex(ListedNames[i]) == i;
  }

  /** `workerServicePrototypeMappingConfiguration` on the twenty listed classes. */
  method PrototypeMappingConfiguration(heap: ObjectGraph, classes: seq<Constructor>, objectClass: Constructor)
    returns (prototypeMappings: Dict<Constructor>)
    requires |classes| == |ListedNames| && Distinct(classes) && objectClass !in classes
    modifies heap`stamps
    ensures forall i :: 0 <= i < |classes| ==> NameStamp(heap.stamps, classes[i]) == ListedNames[i]
    ensures forall c :: c !in classes ==> NameStamp(heap.stamps, c) == NameStamp(old(heap.stamps), c)
    ensures prototypeMappings.Valid() && prototypeMappings.keys == ListedNames + ["Object"]
    ensures forall i :: 0 <= i < |classes| ==>
              ListedNames[i] in prototypeMappings.entries && prototypeMappings.entries[ListedNames[i]] == classes[i]
    ensures "Object" in prototypeMappings.entries && prototypeMappings.entries["Object"] == objectClass
  {
    ListedNamesDistinct();
    prototypeMappings := BuildPrototypeMappings(heap, ListedNames, classes, objectClass);
  }

  /** The factory's result is what the round trip through a worker needs: the
      serializer tags each listed class with methods by its listed name, the
      registry resolves that name back to the class, and "Object" resolves to
      the plain prototype. */
  lemma RegistryServesTransfer(classes: seq<Constructor>, objectClass: Constructor, stamps: map<Constructor, string>,
                               prototypeMappings: Dict<Constructor>)
    requires |classes| == |ListedNames|
    requires forall i :: 0 <= i < |classes| ==> NameStamp(stamps, classes[i]) == ListedNames[i]
    requires prototypeMappings.Valid() && prototypeMappings.keys == ListedNames + ["Object"]
    requires forall i :: 0 <= i < |classes| ==> prototypeMappings.entries[ListedNames[i]] == classes[i]
    requires prototypeMappings.entries["Object"] == objectClass
    requires objectClass.name == "Object" && NameStamp(stamps, objectClass) == "" && !objectClass.hasMethods
    ensures RegistryBasics(prototypeMappings.entries, stamps, objectClass)
    ensures forall i :: 0 <= i < |classes| ==> Registered(prototypeMappings.entries, stamps, classes[i])
    ensures forall i :: 0 <= i < |classes| && classes[i].hasMethods ==> TagFor(classes[i], stamps) == ListedNames[i]
  {
    ListedNamesDistinct();
    assert "Object" in prototypeMappings.keys by {
      assert (ListedNames + ["Object"])[|ListedNames|] == "Object";
    }
    forall i | 0 <= i < |classes|
      ensures Registered(prototypeMappings.entries, stamps, classes[i])
    {
      assert ListedNames[i] == prototypeMappings.keys[i];
    }
  }
}
