/** The class tree of the SPARQL tree services: the worker reads the rows of
    the class query into a dictionary of nodes and a dictionary of parent
    sets, then hangs every class under each of its parents and returns the
    classes without parents as roots. Two versions exist; the newer one lets
    `?prefLabel` override `?classLabel`.

    Nodes are shared between the parents holding them, so a node's children
    are written as the class ids of the nodes: once the rows are read there
    is exactly one node per class id. */
module SparqlTree {
  import opened Wrappers
  import opened Text
  import opened Dict
  import opened ObjectGraph
  import opened Serializer
  import opened Dispatcher
  import opened Forwarding

  /** The values a row binds; `?class` is bound in every row the queries return. */
  datatype Binding = Binding(cls: string, classLabel: Option<string>, prefLabel: Option<string>,
                             instances: Option<string>, subClass: Option<string>, superClass: Option<string>)

  /** `TreeNode.instances`: never written, or what `parseInt(…, 10)` gave
      (`None` standing for `NaN`). */
  datatype Count = Unset | Counted(parsed: Option<int>)

  datatype TreeNode = TreeNode(id: string, labelText: string, instances: Count, children: seq<string>)

  /** `new TreeNode(id, label)`. */
  function NewNode(id: string, labelText: string): TreeNode {
    TreeNode(id, labelText, Unset, [])
  }

  /** The services in app/components (with the `?prefLabel` override) and in
      app/scripts (without it). */
  datatype Version = Components | Scripts

  /** What the rows read so far leave: `classes` and `parents`, each parent
      set being the key list of an object used as a set. */
  datatype Collected = Collected(classes: Dict<TreeNode>, parents: Dict<seq<string>>)

  /** The forest: the ids of the roots in order, and every class's node. */
  datatype Forest = Forest(roots: seq<string>, nodes: map<string, TreeNode>)

  ghost predicate Distinct(s: seq<string>) {
    forall i, j :: 0 <= i < j < |s| ==> s[i] != s[j]
  }

  ghost predicate ParentSetsDistinct(parents: Dict<seq<string>>) {
    forall k :: k in parents.entries ==> Distinct(parents.entries[k])
  }

  // ---------------------------------------------------------------------
  // Reading one row

  /** The label a row gives its class's new node, if it creates one. */
  function LabelOf(b: Binding, version: Version): (l: Option<string>)
    ensures l.Some? <==> b.classLabel.Some? || (version.Components? && b.prefLabel.Some?)
    ensures version.Components? && b.prefLabel.Some? ==> l == b.prefLabel
    ensures version.Scripts? || b.prefLabel.None? ==> l == b.classLabel
  {
    if version.Components? && b.prefLabel.Some? then b.prefLabel else b.classLabel
  }

  /** The row records `p` as a parent of `k`. */
  predicate Links(b: Binding, k: string, p: string) {
    || (b.subClass == Some(k) && p == b.cls)
    || (b.cls == k && b.superClass == Some(p))
  }

  /** The row records some parent of `k`. */
  predicate GivesParent(b: Binding, k: string) {
    b.subClass == Some(k) || (b.cls == k && b.superClass.Some?)
  }

  /** `parents[child][parent] = true`, creating `parents[child]` first when absent. */
  function AddParent(parents: Dict<seq<string>>, child: string, parent: string): (r: Dict<seq<string>>)
    requires parents.Valid()
    ensures r.Valid()
    ensures ParentSetsDistinct(parents) ==> ParentSetsDistinct(r)
  {
    match parents.Get(child)
    case None => parents.Set(child, [parent])
    case Some(known) => if parent in known then parents else parents.Set(child, known + [parent])
  }

  /** `parents[child][parent] = true` adds that one pair and no other. */
  lemma AddParentAdds(parents: Dict<seq<string>>, child: string, parent: string, k: string, p: string)
    requires parents.Valid()
    ensures var r := AddParent(parents, child, parent);
            && ((k in r.entries && p in r.entries[k]) <==>
                (k in parents.entries && p in parents.entries[k]) || (k == child && p == parent))
            && (k in r.entries <==> k in parents.entries || k == child)
  {
  }

  /** The classes dictionary after a row's labels: `classLabel` makes a new
      node, then (newer version) `prefLabel` replaces it. */
  function Relabelled(classes: Dict<TreeNode>, b: Binding, version: Version): (r: Dict<TreeNode>)
    requires classes.Valid()
    ensures r.Valid()
    ensures b.cls in r.entries <==> b.cls in classes.entries || LabelOf(b, version).Some?
  {
    var afterClassLabel := if b.classLabel.Some? then classes.Set(b.cls, NewNode(b.cls, b.classLabel.value)) else classes;
    if version.Components? && b.prefLabel.Some? then afterClassLabel.Set(b.cls, NewNode(b.cls, b.prefLabel.value))
    else afterClassLabel
  }

  /** A row's labels give its class a new node carrying the label
      `LabelOf` picks, and leave every other class's node alone. */
  lemma RelabelledNode(classes: Dict<TreeNode>, b: Binding, version: Version, k: string)
    requires classes.Valid()
    ensures var r := Relabelled(classes, b, version);
            && (k in r.entries <==> k in classes.entries || (k == b.cls && LabelOf(b, version).Some?))
            && (k in classes.entries && k != b.cls ==> r.entries[k] == classes.entries[k])
            && (k == b.cls && LabelOf(b, version).Some? ==> r.entries[k] == NewNode(k, LabelOf(b, version).value))
            && (k == b.cls && LabelOf(b, version).None? && k in classes.entries ==> r.entries[k] == classes.entries[k])
  {
  }

  /** `classes[class].instances = parseInt(instances, 10)` when the row
      counts instances; a class without a node is the `TypeError` that
      rejects the whole answer. */
  function CountInstances(classes: Dict<TreeNode>, b: Binding): (r: Result<Dict<TreeNode>>)
    requires classes.Valid()
    ensures r.Error? <==> b.instances.Some? && b.cls !in classes.entries
    ensures r.Ok? ==> r.value.Valid() && r.value.entries.Keys == classes.entries.Keys
  {
    if b.instances.None? then Ok(classes)
    else if b.cls !in classes.entries then Error("TypeError: Cannot set property 'instances' of undefined")
    else Ok(classes.Set(b.cls, classes.entries[b.cls].(instances := Counted(ParseInt(b.instances.value)))))
  }

  /** Counting touches only the row's own class, and only when the row
      counts. */
  lemma CountedNode(classes: Dict<TreeNode>, b: Binding, k: string)
    requires classes.Valid() && CountInstances(classes, b).Ok? && k in classes.entries
    ensures CountInstances(classes, b).value.entries[k] ==
              if k == b.cls && b.instances.Some? then classes.entries[k].(instances := Counted(ParseInt(b.instances.value)))
              else classes.entries[k]
  {
  }

  /** The parent sets after a row's `subClass` and `superClass`. */
  function Linked(parents: Dict<seq<string>>, b: Binding): (r: Dict<seq<string>>)
    requires parents.Valid()
    ensures r.Valid()
    ensures ParentSetsDistinct(parents) ==> ParentSetsDistinct(r)
  {
    var linked := if b.subClass.Some? then AddParent(parents, b.subClass.value, b.cls) else parents;
    if b.superClass.Some? then AddParent(linked, b.cls, b.superClass.value) else linked
  }

  /** A row adds the parent links its two columns name and no other. */
  lemma LinkedAdds(parents: Dict<seq<string>>, b: Binding, k: string, p: string)
    requires parents.Valid()
    ensures var r := Linked(parents, b);
            && ((k in r.entries && p in r.entries[k]) <==>
                (k in parents.entries && p in parents.entries[k]) || Links(b, k, p))
            && (k in r.entries <==> k in parents.entries || GivesParent(b, k))
  {
    var linked := if b.subClass.Some? then AddParent(parents, b.subClass.value, b.cls) else parents;
    if b.subClass.Some? {
      AddParentAdds(parents, b.subClass.value, b.cls, k, p);
    }
    if b.superClass.Some? {
      AddParentAdds(linked, b.cls, b.superClass.value, k, p);
    }
  }

  /** One row of the `forEach`. */
  function Step(c: Collected, b: Binding, version: Version): (r: Result<Collected>)
    requires c.classes.Valid() && c.parents.Valid()
    ensures r.Error? <==> b.instances.Some? && LabelOf(b, version).None? && b.cls !in c.classes.entries
    ensures r.Ok? ==> r.value.classes.Valid() && r.value.parents.Valid()
    ensures r.Ok? && ParentSetsDistinct(c.parents) ==> ParentSetsDistinct(r.value.parents)
  {
    match CountInstances(Relabelled(c.classes, b, version), b)
    case Error(e) => Error(e)
    case Ok(classes) => Ok(Collected(classes, Linked(c.parents, b)))
  }
  /** The first `n` rows read in order; the first failing row fails the whole. */
  function Collect(bindings: seq<Binding>, n: nat, version: Version): (r: Result<Collected>)
    requires n <= |bindings|
    ensures r.Ok? ==> r.value.classes.Valid() && r.value.parents.Valid() && ParentSetsDistinct(r.value.parents)
  {
    if n == 0 then Ok(Collected(Empty(), Empty()))
    else
      match Collect(bindings, n - 1, version)
      case Error(e) => Error(e)
      case Ok(c) => Step(c, bindings[n - 1], version)
  }

  // ---------------------------------------------------------------------
  // What the rows leave, row by row

  predicate Labels(b: Binding, version: Version, k: string) {
    b.cls == k && LabelOf(b, version).Some?
  }

  /** The last of the first `n` rows that gives `k` a new node, or -1. */
  function LastLabelled(bindings: seq<Binding>, n: nat, version: Version, k: string): (r: int)
    requires n <= |bindings|
    ensures -1 <= r < n
    ensures r >= 0 ==> Labels(bindings[r], version, k)
    ensures forall j :: r < j < n ==> !Labels(bindings[j], version, k)
  {
    if n == 0 then -1
    else if Labels(bindings[n - 1], version, k) then n - 1
    else LastLabelled(bindings, n - 1, version, k)
  }

  /** The instance count the last row among `bindings[from..n]` counting
      `k` wrote, `Unset` if none did. */
  function LastCount(bindings: seq<Binding>, from: nat, n: nat, k: string): (r: Count)
    requires from <= n <= |bindings|
    ensures r.Counted? <==> exists j :: from <= j < n && bindings[j].cls == k && bindings[j].instances.Some?
    decreases n
  {
    if n == from then Unset
    else if bindings[n - 1].cls == k && bindings[n - 1].instances.Some? then Counted(ParseInt(bindings[n - 1].instances.value))
    else LastCount(bindings, from, n - 1, k)
  }

  /** A row counting instances of a class no row up to it has labelled. */
  predicate Orphaned(bindings: seq<Binding>, i: nat, version: Version)
    requires i < |bindings|
  {
    bindings[i].instances.Some? && LastLabelled(bindings, i + 1, version, bindings[i].cls) < 0
  }

  /** A class has a node exactly when some row labels it. */
  lemma {:induction false} NodeExists(bindings: seq<Binding>, n: nat, version: Version, k: string)
    requires n <= |bindings| && Collect(bindings, n, version).Ok?
    ensures k in Collect(bindings, n, version).value.classes.entries <==> LastLabelled(bindings, n, version, k) >= 0
  {
    if n > 0 {
      NodeExists(bindings, n - 1, version, k);
      var b := bindings[n - 1];
      var c := Collect(bindings, n - 1, version).value;
      assert Collect(bindings, n, version) == Step(c, b, version);
      RelabelledNode(c.classes, b, version, k);
      if !Labels(b, version, k) {
        assert LastLabelled(bindings, n, version, k) == LastLabelled(bindings, n - 1, version, k);
      }
    }
  }

  /** The node of class `k` is the one its last labelled row created, labelled
      as that row says, carrying the count of the last row from there on
      that counts `k`, and without children. */
  lemma {:induction false} CollectedNodes(bindings: seq<Binding>, n: nat, version: Version, k: string)
    requires n <= |bindings| && Collect(bindings, n, version).Ok?
    requires LastLabelled(bindings, n, version, k) >= 0
    ensures var last := LastLabelled(bindings, n, version, k);
            && k in Collect(bindings, n, version).value.classes.entries
            && Collect(bindings, n, version).value.classes.entries[k]
               == TreeNode(k, LabelOf(bindings[last], version).value, LastCount(bindings, last, n, k), [])
  {
    NodeExists(bindings, n, version, k);
    var b := bindings[n - 1];
    var c := Collect(bindings, n - 1, version).value;
    assert Collect(bindings, n, version) == Step(c, b, version);
    RelabelledNode(c.classes, b, version, k);
    CountedNode(Relabelled(c.classes, b, version), b, k);
    if !Labels(b, version, k) {
      assert LastLabelled(bindings, n, version, k) == LastLabelled(bindings, n - 1, version, k);
      CollectedNodes(bindings, n - 1, version, k);
    }
  }

  /** The rows are rejected exactly when some row counts the instances of a
      class that no row up to and including it has labelled. */
  lemma {:induction false} CollectFails(bindings: seq<Binding>, n: nat, version: Version)
    requires n <= |bindings|
    ensures Collect(bindings, n, version).Error? <==> exists i :: 0 <= i < n && Orphaned(bindings, i, version)
  {
    if n > 0 {
      CollectFails(bindings, n - 1, version);
      if Collect(bindings, n - 1, version).Ok? {
        RowFails(bindings, n, version);
        if Orphaned(bindings, n - 1, version) {
          assert 0 <= n - 1 < n;
        }
      } else {
        var i :| 0 <= i < n - 1 && Orphaned(bindings, i, version);
        assert 0 <= i < n;
      }
    }
  }

  /** After rows that went through, the next row fails exactly when it is
      orphaned. */
  lemma RowFails(bindings: seq<Binding>, n: nat, version: Version)
    requires 0 < n <= |bindings| && Collect(bindings, n - 1, version).Ok?
    ensures Collect(bindings, n, version).Error? <==> Orphaned(bindings, n - 1, version)
  {
    var b := bindings[n - 1];
    var c := Collect(bindings, n - 1, version).value;
    NodeExists(bindings, n - 1, version, b.cls);
    assert Collect(bindings, n, version) == Step(c, b, version);
    if !Labels(b, version, b.cls) {
      assert LastLabelled(bindings, n, version, b.cls) == LastLabelled(bindings, n - 1, version, b.cls);
    }
  }

  /** Some of the first `n` rows records `p` as a parent of `k`. */
  predicate RecordedParent(bindings: seq<Binding>, n: nat, k: string, p: string)
    requires n <= |bindings|
  {
    exists i :: 0 <= i < n && Links(bindings[i], k, p)
  }

  /** Some of the first `n` rows gives `k` a parent. */
  predicate RecordedChild(bindings: seq<Binding>, n: nat, k: string)
    requires n <= |bindings|
  {
    exists i :: 0 <= i < n && GivesParent(bindings[i], k)
  }

  /** The parent sets hold exactly what the `subClass` and `superClass`
      columns say. */
  lemma {:induction false} CollectedParents(bindings: seq<Binding>, n: nat, version: Version, k: string, p: string)
    requires n <= |bindings| && Collect(bindings, n, version).Ok?
    ensures var parents := Collect(bindings, n, version).value.parents;
            (k in parents.entries && p in parents.entries[k]) <==> RecordedParent(bindings, n, k, p)
  {
    if n > 0 {
      CollectedParents(bindings, n - 1, version, k, p);
      var c := Collect(bindings, n - 1, version).value;
      assert Collect(bindings, n, version) == Step(c, bindings[n - 1], version);
      LinkedAdds(c.parents, bindings[n - 1], k, p);
      if RecordedParent(bindings, n, k, p) && !Links(bindings[n - 1], k, p) {
        var i :| 0 <= i < n && Links(bindings[i], k, p);
        assert RecordedParent(bindings, n - 1, k, p);
      }
      if RecordedParent(bindings, n - 1, k, p) {
        var i :| 0 <= i < n - 1 && Links(bindings[i], k, p);
        assert 0 <= i < n;
      }
      if Links(bindings[n - 1], k, p) {
        assert 0 <= n - 1 < n;
      }
    }
  }

  /** A class has a parent set exactly when some row gives it a parent. */
  lemma {:induction false} ParentSetsOf(bindings: seq<Binding>, n: nat, version: Version, k: string)
    requires n <= |bindings| && Collect(bindings, n, version).Ok?
    ensures k in Collect(bindings, n, version).value.parents.entries <==> RecordedChild(bindings, n, k)
  {
    if n > 0 {
      ParentSetsOf(bindings, n - 1, version, k);
      var c := Collect(bindings, n - 1, version).value;
      assert Collect(bindings, n, version) == Step(c, bindings[n - 1], version);
      LinkedAdds(c.parents, bindings[n - 1], k, "");
      if RecordedChild(bindings, n, k) && !GivesParent(bindings[n - 1], k) {
        var i :| 0 <= i < n && GivesParent(bindings[i], k);
        assert RecordedChild(bindings, n - 1, k);
      }
      if RecordedChild(bindings, n - 1, k) {
        var i :| 0 <= i < n - 1 && GivesParent(bindings[i], k);
        assert 0 <= i < n;
      }
      if GivesParent(bindings[n - 1], k) {
        assert 0 <= n - 1 < n;
      }
    }
  }

  // ---------------------------------------------------------------------
  // The forest

  /** `ret`: the ids among `ids`, in order, that have no parent set. */
  function Roots(ids: seq<string>, parents: Dict<seq<string>>): seq<string> {
    if ids == [] then []
    else
      var last := ids[|ids| - 1];
      Roots(ids[..|ids| - 1], parents) + if last in parents.entries then [] else [last]
  }

  /** The ids among `ids`, in order, whose parent set holds `p`. */
  function ChildrenOf(ids: seq<string>, parents: Dict<seq<string>>, p: string): seq<string> {
    if ids == [] then []
    else
      var last := ids[|ids| - 1];
      ChildrenOf(ids[..|ids| - 1], parents, p) + if last in parents.entries && p in parents.entries[last] then [last] else []
  }

  lemma {:induction false} RootsMembers(ids: seq<string>, parents: Dict<seq<string>>)
    ensures forall id :: id in Roots(ids, parents) <==> id in ids && id !in parents.entries
  {
    if ids != [] {
      RootsMembers(ids[..|ids| - 1], parents);
      assert ids == ids[..|ids| - 1] + [ids[|ids| - 1]];
    }
  }

  lemma {:induction false} ChildrenMembers(ids: seq<string>, parents: Dict<seq<string>>, p: string)
    ensures forall id :: id in ChildrenOf(ids, parents, p) <==> id in ids && id in parents.entries && p in parents.entries[id]
  {
    if ids != [] {
      ChildrenMembers(ids[..|ids| - 1], parents, p);
      assert ids == ids[..|ids| - 1] + [ids[|ids| - 1]];
    }
  }

  /** A class appears among a parent's children at most once. */
  lemma {:induction false} ChildrenOnce(ids: seq<string>, parents: Dict<seq<string>>, p: string)
    requires Distinct(ids)
    ensures Distinct(ChildrenOf(ids, parents, p))
  {
    if ids != [] {
      var init := ids[..|ids| - 1];
      assert Distinct(init);
      ChildrenOnce(init, parents, p);
      ChildrenMembers(init, parents, p);
      assert ids[|ids| - 1] !in init;
    }
  }

  /** Every parent named for a class with a node has a node itself. */
  predicate ParentsKnown(classes: Dict<TreeNode>, parents: Dict<seq<string>>) {
    forall id, pid :: id in classes.entries && id in parents.entries && pid in parents.entries[id] ==> pid in classes.entries
  }

  /** Every node has, after its own children, the classes recorded under it,
      in the order of the classes dictionary. */
  ghost predicate Grown(classes: Dict<TreeNode>, parents: Dict<seq<string>>, nodes: map<string, TreeNode>) {
    && nodes.Keys == classes.entries.Keys
    && forall x :: x in nodes ==>
         nodes[x] == classes.entries[x].(children := classes.entries[x].children + ChildrenOf(classes.keys, parents, x))
  }

  /** The inner `for..in`: pushes the node of `id` onto the children of each
      of `pids`; a parent without a node is the `TypeError`. */
  method Adopt(nodes: map<string, TreeNode>, id: string, pids: seq<string>) returns (result: Result<map<string, TreeNode>>)
    requires Distinct(pids)
    ensures result.Ok? <==> forall pid :: pid in pids ==> pid in nodes
    ensures result.Ok? ==> result.value.Keys == nodes.Keys
    ensures result.Ok? ==> forall x :: x in nodes ==>
              result.value[x] == nodes[x].(children := nodes[x].children + if x in pids then [id] else [])
  {
    var grown := nodes;
    var j := 0;
    while j < |pids|
      invariant 0 <= j <= |pids|
      invariant forall pid :: pid in pids[..j] ==> pid in nodes
      invariant grown.Keys == nodes.Keys
      invariant forall x :: x in nodes ==>
                  grown[x] == nodes[x].(children := nodes[x].children + if x in pids[..j] then [id] else [])
    {
      var pid := pids[j];
      if pid !in grown {
        return Error("TypeError: Cannot read property 'children' of undefined");
      }
      assert pid !in pids[..j];
      grown := grown[pid := grown[pid].(children := grown[pid].children + [id])];
      assert pids[..j + 1] == pids[..j] + [pid];
      j := j + 1;
    }
    assert pids[..j] == pids;
    result := Ok(grown);
  }

  /** Taking one more id adds it to the roots or to the children of each of
      its parents. */
  lemma ForestGrows(ids: seq<string>, i: nat, parents: Dict<seq<string>>)
    requires i < |ids|
    ensures Roots(ids[..i + 1], parents) == Roots(ids[..i], parents) + if ids[i] in parents.entries then [] else [ids[i]]
    ensures forall p :: ChildrenOf(ids[..i + 1], parents, p)
                        == ChildrenOf(ids[..i], parents, p) + if ids[i] in parents.entries && p in parents.entries[ids[i]] then [ids[i]] else []
  {
    assert ids[..i + 1][..i] == ids[..i];
  }

  /** The `for (let id in classes)` loop has taken the first `i` classes. */
  ghost predicate PlacedUpTo(classes: Dict<TreeNode>, parents: Dict<seq<string>>, i: nat,
                             roots: seq<string>, nodes: map<string, TreeNode>) {
    && i <= |classes.keys|
    && roots == Roots(classes.keys[..i], parents)
    && nodes.Keys == classes.entries.Keys
    && (forall x :: x in nodes ==>
          nodes[x] == classes.entries[x].(children := classes.entries[x].children + ChildrenOf(classes.keys[..i], parents, x)))
    && (forall id, pid :: id in classes.keys[..i] && id in parents.entries && pid in parents.entries[id] ==> pid in classes.entries)
  }

  /** A class without a parent set becomes the next root. */
  lemma RootPlaced(classes: Dict<TreeNode>, parents: Dict<seq<string>>, i: nat, roots: seq<string>, nodes: map<string, TreeNode>)
    requires i < |classes.keys| && classes.keys[i] !in parents.entries
    requires PlacedUpTo(classes, parents, i, roots, nodes)
    ensures PlacedUpTo(classes, parents, i + 1, roots + [classes.keys[i]], nodes)
  {
    ForestGrows(classes.keys, i, parents);
    assert classes.keys[..i + 1] == classes.keys[..i] + [classes.keys[i]];
    forall x | x in nodes
      ensures ChildrenOf(classes.keys[..i + 1], parents, x) == ChildrenOf(classes.keys[..i], parents, x)
    {
      assert ChildrenOf(classes.keys[..i], parents, x) + [] == ChildrenOf(classes.keys[..i], parents, x);
    }
  }

  /** A class with a parent set, once adopted by each of its parents, joins
      their children. */
  lemma ChildPlaced(classes: Dict<TreeNode>, parents: Dict<seq<string>>, i: nat, roots: seq<string>,
                    nodes: map<string, TreeNode>, adopted: map<string, TreeNode>)
    requires i < |classes.keys| && classes.keys[i] in parents.entries
    requires PlacedUpTo(classes, parents, i, roots, nodes)
    requires forall pid :: pid in parents.entries[classes.keys[i]] ==> pid in nodes
    requires adopted.Keys == nodes.Keys
    requires forall x :: x in nodes ==>
               adopted[x] == nodes[x].(children := nodes[x].children + if x in parents.entries[classes.keys[i]] then [classes.keys[i]] else [])
    ensures PlacedUpTo(classes, parents, i + 1, roots, adopted)
  {
    var id := classes.keys[i];
    ForestGrows(classes.keys, i, parents);
    assert classes.keys[..i + 1] == classes.keys[..i] + [id];
    forall x | x in nodes
      ensures adopted[x] == classes.entries[x].(children := classes.entries[x].children + ChildrenOf(classes.keys[..i + 1], parents, x))
    {
      var before := classes.entries[x].children + ChildrenOf(classes.keys[..i], parents, x);
      var added := if x in parents.entries[id] then [id] else [];
      assert adopted[x].children == before + added;
      assert before + added == classes.entries[x].children + ChildrenOf(classes.keys[..i + 1], parents, x);
    }
    assert roots + [] == roots;
  }

  /** One turn of the loop: the `i`-th class becomes a root or a child of
      each of its parents. */
  method Place(classes: Dict<TreeNode>, parents: Dict<seq<string>>, i: nat, roots: seq<string>, nodes: map<string, TreeNode>)
    returns (result: Result<(seq<string>, map<string, TreeNode>)>)
    requires classes.Valid() && ParentSetsDistinct(parents) && i < |classes.keys|
    requires PlacedUpTo(classes, parents, i, roots, nodes)
    ensures result.Error? ==> !ParentsKnown(classes, parents)
    ensures result.Ok? ==> PlacedUpTo(classes, parents, i + 1, result.value.0, result.value.1)
  {
    var id := classes.keys[i];
    if id !in parents.entries {
      RootPlaced(classes, parents, i, roots, nodes);
      return Ok((roots + [id], nodes));
    }
    var adopted := Adopt(nodes, id, parents.entries[id]);
    if adopted.Error? {
      var pid :| pid in parents.entries[id] && pid !in nodes;
      assert id in classes.entries;
      return Error(adopted.message);
    }
    ChildPlaced(classes, parents, i, roots, nodes, adopted.value);
    result := Ok((roots, adopted.value));
  }

  /** The `for (let id in classes)` loop. */
  method BuildForest(classes: Dict<TreeNode>, parents: Dict<seq<string>>) returns (result: Result<Forest>)
    requires classes.Valid() && ParentSetsDistinct(parents)
    ensures result.Ok? <==> ParentsKnown(classes, parents)
    ensures result.Ok? ==> result.value.roots == Roots(classes.keys, parents)
    ensures result.Ok? ==> Grown(classes, parents, result.value.nodes)
  {
    var roots: seq<string> := [];
    var nodes := classes.entries;
    var i := 0;
    while i < |classes.keys|
      invariant PlacedUpTo(classes, parents, i, roots, nodes)
    {
      var placed := Place(classes, parents, i, roots, nodes);
      if placed.Error? {
        return Error(placed.message);
      }
      roots, nodes := placed.value.0, placed.value.1;
      i := i + 1;
    }
    assert classes.keys[..i] == classes.keys;
    result := Ok(Forest(roots, nodes));
  }

  // ---------------------------------------------------------------------
  // The services

  /** The body of the `forEach`: one row. */
  method ReadRow(classes: Dict<TreeNode>, parents: Dict<seq<string>>, b: Binding, version: Version)
    returns (result: Result<Collected>)
    requires classes.Valid() && parents.Valid()
    ensures result == Step(Collected(classes, parents), b, version)
  {
    var nodes := classes;
    if b.classLabel.Some? {
      nodes := nodes.Set(b.cls, NewNode(b.cls, b.classLabel.value));
    }
    if version.Components? && b.prefLabel.Some? {
      nodes := nodes.Set(b.cls, NewNode(b.cls, b.prefLabel.value));
    }
    assert nodes == Relabelled(classes, b, version);
    if b.instances.Some? {
      if b.cls !in nodes.entries {
        return Error("TypeError: Cannot set property 'instances' of undefined");
      }
      nodes := nodes.Set(b.cls, nodes.entries[b.cls].(instances := Counted(ParseInt(b.instances.value))));
    }
    var linked := parents;
    if b.subClass.Some? {
      linked := AddParent(linked, b.subClass.value, b.cls);
    }
    if b.superClass.Some? {
      linked := AddParent(linked, b.cls, b.superClass.value);
    }
    result := Ok(Collected(nodes, linked));
  }

  /** The `forEach` over the rows; the `TypeError` of a row ends it. */
  method CollectRows(bindings: seq<Binding>, version: Version) returns (result: Result<Collected>)
    ensures result == Collect(bindings, |bindings|, version)
  {
    result := Ok(Collected(Empty(), Empty()));
    var i := 0;
    while i < |bindings| && result.Ok?
      invariant 0 <= i <= |bindings|
      invariant result == Collect(bindings, i, version)
    {
      result := ReadNext(bindings, i, version, result.value);
      i := i + 1;
    }
    if result.Error? {
      StaysFailed(bindings, i, |bindings|, version);
    }
  }

  /** Row `i` read onto what the rows before it left. */
  method ReadNext(bindings: seq<Binding>, i: nat, version: Version, collected: Collected) returns (read: Result<Collected>)
    requires i < |bindings| && Collect(bindings, i, version) == Ok(collected)
    ensures read == Collect(bindings, i + 1, version)
  {
    CollectNext(bindings, i, version);
    read := ReadRow(collected.classes, collected.parents, bindings[i], version);
  }

  /** Reading row `i` continues from what the rows before it left. */
  lemma CollectNext(bindings: seq<Binding>, i: nat, version: Version)
    requires i < |bindings| && Collect(bindings, i, version).Ok?
    ensures Collect(bindings, i, version).value.classes.Valid() && Collect(bindings, i, version).value.parents.Valid()
    ensures Collect(bindings, i + 1, version) == Step(Collect(bindings, i, version).value, bindings[i], version)
  {
  }

  /** Once a row fails, reading more rows does not change the error. */
  lemma {:induction false} StaysFailed(bindings: seq<Binding>, i: nat, n: nat, version: Version)
    requires i <= n <= |bindings| && Collect(bindings, i, version).Error?
    ensures Collect(bindings, n, version) == Collect(bindings, i, version)
    decreases n
  {
    if n > i {
      StaysFailed(bindings, i, n - 1, version);
    }
  }

  /** `SparqlTreeWorkerService.getTree` once the answer has arrived: the rows
      are read, then the forest is built. */
  method GetTree(bindings: seq<Binding>, version: Version) returns (result: Result<Forest>)
    ensures result.Ok? <==> && Collect(bindings, |bindings|, version).Ok?
                            && ParentsKnown(Collect(bindings, |bindings|, version).value.classes,
                                            Collect(bindings, |bindings|, version).value.parents)
    ensures result.Ok? ==> var c := Collect(bindings, |bindings|, version).value;
                           && result.value.roots == Roots(c.classes.keys, c.parents)
                           && Grown(c.classes, c.parents, result.value.nodes)
  {
    var collected := CollectRows(bindings, version);
    if collected.Error? {
      return Error(collected.message);
    }
    result := BuildForest(collected.value.classes, collected.value.parents);
  }

  /** The roots in terms of the rows: the labelled classes no row gives a
      parent. */
  lemma RootsOfRows(bindings: seq<Binding>, version: Version, id: string)
    requires Collect(bindings, |bindings|, version).Ok?
    ensures var c := Collect(bindings, |bindings|, version).value;
            id in Roots(c.classes.keys, c.parents) <==>
              LastLabelled(bindings, |bindings|, version, id) >= 0 && !RecordedChild(bindings, |bindings|, id)
  {
    var c := Collect(bindings, |bindings|, version).value;
    NodeExists(bindings, |bindings|, version, id);
    ParentSetsOf(bindings, |bindings|, version, id);
    RootsMembers(c.classes.keys, c.parents);
  }

  /** The children of `p` in terms of the rows: the labelled classes some
      row puts under `p`, each once. */
  lemma ChildrenOfRows(bindings: seq<Binding>, version: Version, p: string, id: string)
    requires Collect(bindings, |bindings|, version).Ok?
    ensures var c := Collect(bindings, |bindings|, version).value;
            && (id in ChildrenOf(c.classes.keys, c.parents, p) <==>
                  LastLabelled(bindings, |bindings|, version, id) >= 0 && RecordedParent(bindings, |bindings|, id, p))
            && Distinct(ChildrenOf(c.classes.keys, c.parents, p))
  {
    var c := Collect(bindings, |bindings|, version).value;
    NodeExists(bindings, |bindings|, version, id);
    CollectedParents(bindings, |bindings|, version, id, p);
    ChildrenMembers(c.classes.keys, c.parents, p);
    ChildrenOnce(c.classes.keys, c.parents, p);
  }

  /** `SparqlTreeService.getTree` on the page. */
  method ForwardGetTree(workers: WorkerService, heap: ObjectGraph, endpoint: string, query: string,
                        arrayProto: Constructor, withCanceller: bool)
    returns (id: nat, args: Value)
    requires workers.Valid() && workers.poolSize > 0
    requires heap.Valid() && Carrying(heap.metas, Mark) == {}
    modifies workers, heap
    ensures workers.Valid() && heap.Valid() && Carrying(heap.metas, Mark) == {}
    ensures args.Object? && args.ref !in old(heap.shapes)
    ensures heap.shapes == old(heap.shapes)[args.ref := EndpointAndQuery(endpoint, query)]
    ensures heap.metas == AfterWalk(heap.shapes, old(heap.metas)[args.ref := Meta("", false, arrayProto)], args, Tag(heap.stamps))
    ensures id == old(|workers.deferreds|) && workers.deferreds == old(workers.deferreds) + [true]
    ensures workers.currentWorker == (old(workers.currentWorker) + 1) % workers.poolSize
    ensures workers.outboxes == old(workers.outboxes)[old(workers.currentWorker) :=
              old(workers.outboxes[workers.currentWorker]) + [Request(id, "sparqlTreeWorkerService", "getTree", args)]]
    ensures workers.cancellers == if withCanceller then old(workers.cancellers)[id := One(old(workers.currentWorker))] else old(workers.cancellers)
    ensures workers.events == old(workers.events)
  {
    id, args := CallWithEndpoint(workers, heap, "sparqlTreeWorkerService", "getTree", endpoint, query, arrayProto, withCanceller);
  }
}
