/** Writing a project as Turtle. A project is a citable that also names
    the schemas, authority endpoints and archive endpoints it uses, the
    endpoints and graph its own data lives in, and the queries it runs.
    `Project.toTurtle` registers the `fibra` and `void` prefixes, seeds the
    project's fragment with its type, lets the citable part write its lines
    and holders, and then appends the project's own statements. */
module Projects {
  import opened Wrappers
  import opened Text
  import opened Dict
  import opened Turtle
  import Configuration

  const VoidNs: string := "http://rdfs.org/ns/void#"

  /** A schema or remote endpoint as a project lists it: its id and where
      its description is read from. */
  datatype Reference = Reference(id: string, sourceEndpoint: Option<string>, sourceGraph: Option<string>)

  /** A project: the citable part, the namespaces and queries (strings the
      project always has), the endpoints and graph (which may be left
      unset), the three lists, and where the project itself is read from. */
  datatype Project = Project(
    base: Citable,
    instanceNS: string, schemaNS: string,
    autocompletionQuery: string, treeQuery: string, itemQuery: string,
    deleteItemQuery: string, classQuery: string, propertyQuery: string,
    endpoint: Option<string>, graphStoreEndpoint: Option<string>, updateEndpoint: Option<string>,
    graph: Option<string>,
    authorityEndpoints: seq<Reference>, archiveEndpoints: seq<Reference>, schemas: seq<Reference>,
    sourceEndpoint: Option<string>, sourceGraph: Option<string>)

  // ---------------------------------------------------------------------
  // Remote endpoints and the template

  /** `remoteEndpoints()`: the archive endpoints, then the authority
      endpoints. */
  function RemoteEndpoints(p: Project): (r: seq<Reference>)
    ensures |r| == |p.archiveEndpoints| + |p.authorityEndpoints|
    ensures forall i :: 0 <= i < |p.archiveEndpoints| ==> r[i] == p.archiveEndpoints[i]
    ensures forall j :: 0 <= j < |p.authorityEndpoints| ==> r[|p.archiveEndpoints| + j] == p.authorityEndpoints[j]
    ensures forall e :: e in r <==> e in p.archiveEndpoints || e in p.authorityEndpoints
  {
    p.archiveEndpoints + p.authorityEndpoints
  }

  /** `asTemplate()`: a fresh primary endpoint configuration made with no
      arguments, carrying the project's six queries and nothing else. */
  method AsTemplate(p: Project) returns (t: Configuration.EndpointConfiguration)
    ensures fresh(t) && fresh(t.dataModelConfiguration)
    ensures t.id == None && t.title == None && t.endpoint == None && t.updateEndpoint == None
    ensures t.cssClass == "" && t.dataModelConfiguration.selectedTypes == [] && t.dataModelConfiguration.typeConstraints == ""
    ensures t.autocompletionQuery == Some(p.autocompletionQuery) && t.itemQuery == Some(p.itemQuery)
    ensures t.deleteItemQuery == Some(p.deleteItemQuery) && t.treeQuery == Some(p.treeQuery)
    ensures t.propertyQuery == Some(p.propertyQuery) && t.classQuery == Some(p.classQuery)
  {
    t := new Configuration.EndpointConfiguration.Primary(None, None, None, None);
    t.autocompletionQuery := Some(p.autocompletionQuery);
    t.itemQuery := Some(p.itemQuery);
    t.deleteItemQuery := Some(p.deleteItemQuery);
    t.treeQuery := Some(p.treeQuery);
    t.propertyQuery := Some(p.propertyQuery);
    t.classQuery := Some(p.classQuery);
  }

  // ---------------------------------------------------------------------
  // References read from elsewhere

  /** The test of the `filter`: the reference is read from another endpoint
      or another graph than the project (an unset one differs from a set
      one). */
  predicate ReadElsewhere(r: Reference, sourceEndpoint: Option<string>, sourceGraph: Option<string>) {
    r.sourceEndpoint != sourceEndpoint || sourceGraph != r.sourceGraph
  }

  /** The references kept by the `filter`, in their order. */
  function Elsewhere(rs: seq<Reference>, sourceEndpoint: Option<string>, sourceGraph: Option<string>): (ds: seq<Reference>)
    ensures |ds| <= |rs|
  {
    if rs == [] then []
    else
      var rest := Elsewhere(rs[..|rs| - 1], sourceEndpoint, sourceGraph);
      if ReadElsewhere(rs[|rs| - 1], sourceEndpoint, sourceGraph) then rest + [rs[|rs| - 1]] else rest
  }

  /** The `filter` keeps exactly the references read from elsewhere. */
  lemma {:induction false} ElsewhereMembers(rs: seq<Reference>, se: Option<string>, sg: Option<string>, r: Reference)
    ensures r in Elsewhere(rs, se, sg) <==> r in rs && ReadElsewhere(r, se, sg)
  {
    if rs != [] {
      var init := rs[..|rs| - 1];
      ElsewhereMembers(init, se, sg, r);
      assert rs == init + [rs[|rs| - 1]];
    }
  }

  /** Filtering a list made of two parts filters each part, keeping their
      order. */
  lemma {:induction false} ElsewhereAppend(rs: seq<Reference>, ss: seq<Reference>, se: Option<string>, sg: Option<string>)
    ensures Elsewhere(rs + ss, se, sg) == Elsewhere(rs, se, sg) + Elsewhere(ss, se, sg)
    decreases |ss|
  {
    if ss == [] {
      assert rs + ss == rs;
    } else {
      var init := ss[..|ss| - 1];
      var last := ss[|ss| - 1];
      ElsewhereAppend(rs, init, se, sg);
      assert (rs + ss)[..|rs + ss| - 1] == rs + init;
      assert (rs + ss)[|rs + ss| - 1] == last;
      var a := Elsewhere(rs, se, sg);
      var b := Elsewhere(init, se, sg);
      if ReadElsewhere(last, se, sg) {
        assert a + b + [last] == a + (b + [last]);
      }
    }
  }

  /** References all read from the project's own endpoint and graph give no
      reference block; references all read from elsewhere are all kept. */
  lemma {:induction false} ElsewhereExtremes(rs: seq<Reference>, se: Option<string>, sg: Option<string>)
    ensures (forall r :: r in rs ==> !ReadElsewhere(r, se, sg)) ==> Elsewhere(rs, se, sg) == []
    ensures (forall r :: r in rs ==> ReadElsewhere(r, se, sg)) ==> Elsewhere(rs, se, sg) == rs
  {
    if rs != [] {
      var init := rs[..|rs| - 1];
      ElsewhereExtremes(init, se, sg);
      assert rs == init + [rs[|rs| - 1]];
    }
  }

  // ---------------------------------------------------------------------
  // The text of the project's statements

  function RefIds(rs: seq<Reference>): (ids: seq<string>)
    ensures |ids| == |rs| && forall i :: 0 <= i < |rs| ==> ids[i] == rs[i].id
  {
    seq(|rs|, i requires 0 <= i < |rs| => rs[i].id)
  }

  /** The start of a list statement, `fibra:<name> `. */
  function ListHead(name: string): string {
    "\n  fibra:" + name + " "
  }

  /** The list statement: every id in angle brackets, comma-separated, and
      the statement closed by ` ;`. */
  function ListLine(name: string, ids: seq<string>): string {
    ListHead(name) + Join(Bracketed(ids), ", ") + " ;"
  }

  /** The opening of a reference block: the referenced id and its endpoint. */
  function BlockOpen(name: string, r: Reference): string {
    "\n  fibra:" + name + "Reference [\n    rdf:value <" + r.id + "> ;\n    void:sparqlEndpoint <" + JsText(r.sourceEndpoint) + "> ;"
  }

  function BlockGraph(g: string): string {
    "\n    fibra:graph <" + g + ">"
  }

  const BlockClose: string := "\n  ] ;"

  /** The graph of a reference is written only when it is set. */
  function BlockGraphLine(r: Reference): string {
    if Truthy(r.sourceGraph) then BlockGraph(r.sourceGraph.value) else ""
  }

  /** The `...Reference [ ... ] ;` block of one reference. */
  function RefBlock(name: string, r: Reference): string {
    BlockOpen(name, r) + BlockGraphLine(r) + BlockClose
  }

  /** The blocks the `forEach` after the `filter` appends. */
  function RefBlocks(name: string, rs: seq<Reference>): string {
    if rs == [] then "" else RefBlocks(name, rs[..|rs| - 1]) + RefBlock(name, rs[|rs| - 1])
  }

  /** What one of the three list sections appends: nothing for an empty
      list; otherwise the list statement and a block per reference read
      from elsewhere. */
  function Section(name: string, rs: seq<Reference>, se: Option<string>, sg: Option<string>): string {
    if |rs| == 0 then "" else ListLine(name, RefIds(rs)) + RefBlocks(name, Elsewhere(rs, se, sg))
  }

  function Sections(p: Project): string {
    Section("schema", p.schemas, p.sourceEndpoint, p.sourceGraph)
    + Section("authorityEndpoint", p.authorityEndpoints, p.sourceEndpoint, p.sourceGraph)
    + Section("archiveEndpoint", p.archiveEndpoints, p.sourceEndpoint, p.sourceGraph)
  }

  function GraphText(g: string): string {
    "\n  fibra:graph <" + g + "> ;"
  }

  /** The project's graph is written only when it is set. */
  function GraphLine(graph: Option<string>): string {
    if Truthy(graph) then GraphText(graph.value) else ""
  }

  /** The query, endpoint and schema-namespace statements, each string
      quoted by `quote` (`stringToSPARQLString`). */
  function QueryHead(p: Project, quote: string -> string): string {
    "\n  fibra:autocompletionQuery " + quote(p.autocompletionQuery) + " ;"
    + "\n  fibra:treeQuery " + quote(p.treeQuery) + " ;"
    + "\n  fibra:itemQuery " + quote(p.itemQuery) + " ;"
    + "\n  fibra:deleteItemQuery " + quote(p.deleteItemQuery) + " ;"
    + "\n  fibra:classQuery " + quote(p.classQuery) + " ;"
    + "\n  fibra:propertyQuery " + quote(p.propertyQuery) + " ;"
    + "\n  void:sparqlEndpoint <" + JsText(p.endpoint) + "> ;"
    + "\n  fibra:updateEndpoint <" + JsText(p.updateEndpoint) + "> ;"
    + "\n  fibra:graphStoreEndpoint <" + JsText(p.graphStoreEndpoint) + "> ;"
    + "\n  fibra:schemaNS " + quote(p.schemaNS) + " ;"
  }

  /** The last statement, which closes the fragment with ` .`. */
  function InstanceNsLine(p: Project, quote: string -> string): string {
    "\n  fibra:instanceNS " + quote(p.instanceNS) + " ."
  }

  function QueryLines(p: Project, quote: string -> string): string {
    QueryHead(p, quote) + InstanceNsLine(p, quote)
  }

  /** Everything the project appends after the citable part. */
  function ProjectLines(p: Project, quote: string -> string): string {
    Sections(p) + GraphLine(p.graph) + QueryLines(p, quote)
  }

  /** The fragment the project is seeded with. */
  function Seed(id: string): string {
    "<" + id + "> a fibra:Project ;"
  }

  // ---------------------------------------------------------------------
  // The effect of `Project.toTurtle`

  /** The prefixes after `toTurtle`: untouched when the project already has
      a fragment, otherwise `fibra` and `void` set and then the citable's. */
  function ProjectPrefixes(p: Project, prefixes: Dict<string>, frags: Dict<string>): Dict<string> {
    if p.base.id in frags.entries then prefixes
    else CitablePrefixes(prefixes.Set("fibra", FibraNs).Set("void", VoidNs))
  }

  /** The fragments after `toTurtle`: untouched when the project already has
      a fragment; otherwise the project is seeded, written as a citable, and
      its own statements are appended to its fragment. */
  function ProjectFragments(p: Project, frags: Dict<string>, quote: string -> string): Dict<string> {
    var id := p.base.id;
    if id in frags.entries then frags
    else Serialise(p.base, frags.Set(id, Seed(id))).Set(id, CitableText(p.base, Seed(id)) + ProjectLines(p, quote))
  }

  /** After one `toTurtle` the project has a fragment, so a second call
      changes neither the prefixes nor the fragments. */
  lemma ProjectTwice(p: Project, prefixes: Dict<string>, frags: Dict<string>, quote: string -> string)
    ensures var r := ProjectFragments(p, frags, quote);
            && p.base.id in r.entries
            && ProjectFragments(p, r, quote) == r
            && ProjectPrefixes(p, ProjectPrefixes(p, prefixes, frags), r) == ProjectPrefixes(p, prefixes, frags)
  {
  }

  /** `needle` occurs somewhere in `hay`. */
  ghost predicate Mentions(hay: string, needle: string) {
    exists k :: Occurs(needle, hay, k)
  }

  predicate EndsWith(s: string, t: string) {
    |t| <= |s| && s[|s| - |t|..] == t
  }

  predicate StartsWith(s: string, t: string) {
    |t| <= |s| && s[..|t|] == t
  }

  /** The first `toTurtle` of a project: the fragments stay a proper map
      holding the ones there were, the holders written and the project; the
      ones there were are unchanged; the project's fragment starts with its
      type statement and ends with the `instanceNS` statement closed by
      ` .`. */
  lemma ProjectFirst(p: Project, frags: Dict<string>, quote: string -> string)
    requires frags.Valid() && p.base.id !in frags.entries
    ensures var r := ProjectFragments(p, frags, quote);
            var seeded := frags.Set(p.base.id, Seed(p.base.id));
            && r.Valid()
            && (forall k :: k in r.entries <==> k in frags.entries || k in HolderCalls(p.base, seeded) || k == p.base.id)
            && (forall k :: k in frags.entries ==> r.entries[k] == frags.entries[k])
            && StartsWith(r.entries[p.base.id], Seed(p.base.id))
            && EndsWith(r.entries[p.base.id], InstanceNsLine(p, quote))
  {
    var id := p.base.id;
    var seeded := frags.Set(id, Seed(id));
    frags.SetKeepsValid(id, Seed(id));
    assert seeded.Get(id) == Some(Seed(id));
    SerialiseOnce(p.base, seeded);
    SerialiseKeeps(p.base, seeded);
    var s := Serialise(p.base, seeded);
    var own := CitableText(p.base, Seed(id));
    s.SetKeepsValid(id, own + ProjectLines(p, quote));
    StartOfAppend(own, ProjectLines(p, quote), Seed(id));
    EndOfLines(p, quote, own);
  }

  lemma StartOfAppend(a: string, b: string, t: string)
    requires StartsWith(a, t)
    ensures StartsWith(a + b, t)
  {
    assert (a + b)[..|t|] == a[..|t|];
  }

  /** The project's lines, after whatever precedes them, end with the
      `instanceNS` statement. */
  lemma EndOfLines(p: Project, quote: string -> string, own: string)
    ensures EndsWith(own + ProjectLines(p, quote), InstanceNsLine(p, quote))
  {
    var last := InstanceNsLine(p, quote);
    var front := own + Sections(p) + GraphLine(p.graph) + QueryHead(p, quote);
    RegroupFour(own, Sections(p), GraphLine(p.graph), QueryHead(p, quote), last);
    assert (front + last)[|front + last| - |last|..] == last;
  }

  lemma RegroupFour(a: string, b: string, c: string, d: string, e: string)
    ensures a + (b + c + (d + e)) == a + b + c + d + e
  {
  }

  /** Into an empty builder the project's prefixes go in the order they
      are first set: `fibra` and `void`, then the citable's other five. */
  lemma ProjectPrefixOrder(p: Project)
    ensures var q := ProjectPrefixes(p, Empty(), Empty());
            && q.Valid()
            && q.keys == ["fibra", "void", "skos", "dcterms", "foaf", "rdf", "xsd"]
            && q.entries["fibra"] == FibraNs && q.entries["void"] == VoidNs
  {
    var p2 := Empty<string>().Set("fibra", FibraNs).Set("void", VoidNs);
    ProjectPrefixStart();
    CitablePrefixesValid(p2);
    CitablePrefixesEntries(p2);
    CitablePrefixKeysAfter(p2);
  }

  lemma ProjectPrefixStart()
    ensures var p2 := Empty<string>().Set("fibra", FibraNs).Set("void", VoidNs);
            && p2.Valid() && p2.keys == ["fibra", "void"] && p2.entries["void"] == VoidNs
            && p2.entries.Keys == {"fibra", "void"}
  {
    var p1 := Empty<string>().Set("fibra", FibraNs);
    Empty<string>().SetKeepsValid("fibra", FibraNs);
    p1.SetKeepsValid("void", VoidNs);
  }

  /** The citable's prefixes set after `fibra` and `void`: `fibra` keeps
      its place and the five others follow. */
  lemma CitablePrefixKeysAfter(p2: Dict<string>)
    requires p2.keys == ["fibra", "void"] && p2.entries.Keys == {"fibra", "void"}
    ensures CitablePrefixes(p2).keys == ["fibra", "void", "skos", "dcterms", "foaf", "rdf", "xsd"]
  {
    var p3 := p2.Set("skos", SkosNs);
    assert "skos" !in p2.entries;
    var p4 := p3.Set("dcterms", DctermsNs);
    assert "dcterms" !in p3.entries;
    var p5 := p4.Set("foaf", FoafNs);
    assert "foaf" !in p4.entries;
    var p6 := p5.Set("fibra", FibraNs);
    assert "fibra" in p5.entries;
    var p7 := p6.Set("rdf", RdfNs);
    assert "rdf" !in p6.entries;
    assert "xsd" !in p7.entries;
    assert p7.Set("xsd", XsdNs).keys == ["fibra", "void"] + ["skos"] + ["dcterms"] + ["foaf"] + ["rdf"] + ["xsd"];
  }

  // ---------------------------------------------------------------------
  // Properties of the sections

  /** A section is empty exactly when its list is; otherwise it starts with
      the list statement, which names every reference, and holds a
      reference block for each reference read from elsewhere. */
  lemma SectionShape(name: string, rs: seq<Reference>, se: Option<string>, sg: Option<string>)
    ensures Section(name, rs, se, sg) == "" <==> rs == []
    ensures rs != [] ==> StartsWith(Section(name, rs, se, sg), ListLine(name, RefIds(rs)))
    ensures forall i :: 0 <= i < |rs| ==> Mentions(Section(name, rs, se, sg), Bracket(rs[i].id))
  {
    if rs != [] {
      var line := ListLine(name, RefIds(rs));
      var blocks := RefBlocks(name, Elsewhere(rs, se, sg));
      assert |line| > 0;
      StartOfAppend(line, blocks, line);
      assert StartsWith(line, line);
    }
    forall i | 0 <= i < |rs|
      ensures Mentions(Section(name, rs, se, sg), Bracket(rs[i].id))
    {
      SectionNames(name, rs, se, sg, i);
    }
  }

  lemma SectionNames(name: string, rs: seq<Reference>, se: Option<string>, sg: Option<string>, i: nat)
    requires i < |rs|
    ensures Mentions(Section(name, rs, se, sg), Bracket(rs[i].id))
  {
    var line := ListLine(name, RefIds(rs));
    var blocks := RefBlocks(name, Elsewhere(rs, se, sg));
    ListLineNames(name, RefIds(rs), i);
    var k :| Occurs(Bracket(rs[i].id), line, k);
    OccursInLonger(Bracket(rs[i].id), line, blocks, k);
    assert Section(name, rs, se, sg) == line + blocks;
    assert Occurs(Bracket(rs[i].id), Section(name, rs, se, sg), k);
  }

  /** The list statement names every id in angle brackets. */
  lemma ListLineNames(name: string, ids: seq<string>, i: nat)
    requires i < |ids|
    ensures exists k :: Occurs(Bracket(ids[i]), ListLine(name, ids), k)
  {
    var middle := Join(Bracketed(ids), ", ");
    var head := ListHead(name);
    JoinOccurs(Bracketed(ids), ", ", i);
    var k :| Occurs(Bracket(ids[i]), middle, k);
    OccursInLonger(Bracket(ids[i]), middle, " ;", k);
    OccursAfter(Bracket(ids[i]), head, middle + " ;", k);
    assert ListLine(name, ids) == head + (middle + " ;");
  }

  lemma OccursInLonger(needle: string, a: string, b: string, k: int)
    requires Occurs(needle, a, k)
    ensures Occurs(needle, a + b, k)
  {
    assert (a + b)[k..k + |needle|] == a[k..k + |needle|];
  }

  lemma OccursAfter(needle: string, a: string, b: string, k: int)
    requires Occurs(needle, b, k)
    ensures Occurs(needle, a + b, |a| + k)
  {
    assert (a + b)[|a| + k..|a| + k + |needle|] == b[k..k + |needle|];
  }

  /** Every reference read from elsewhere has its block in the section. */
  lemma SectionBlocks(name: string, rs: seq<Reference>, se: Option<string>, sg: Option<string>, r: Reference)
    requires r in rs && ReadElsewhere(r, se, sg)
    ensures Mentions(Section(name, rs, se, sg), RefBlock(name, r))
  {
    var ds := Elsewhere(rs, se, sg);
    ElsewhereMembers(rs, se, sg, r);
    var j :| 0 <= j < |ds| && ds[j] == r;
    RefBlocksHold(name, ds, j);
    var k :| Occurs(RefBlock(name, r), RefBlocks(name, ds), k);
    var line := ListLine(name, RefIds(rs));
    OccursAfter(RefBlock(name, r), line, RefBlocks(name, ds), k);
    assert Section(name, rs, se, sg) == line + RefBlocks(name, ds);
    assert Occurs(RefBlock(name, r), Section(name, rs, se, sg), |line| + k);
  }

  lemma {:induction false} RefBlocksHold(name: string, ds: seq<Reference>, j: nat)
    requires j < |ds|
    ensures exists k :: Occurs(RefBlock(name, ds[j]), RefBlocks(name, ds), k)
    decreases |ds|
  {
    var init := ds[..|ds| - 1];
    var before := RefBlocks(name, init);
    var last := RefBlock(name, ds[|ds| - 1]);
    assert RefBlocks(name, ds) == before + last;
    if j == |ds| - 1 {
      assert (before + last)[|before|..|before| + |last|] == last;
      assert Occurs(last, before + last, |before|);
    } else {
      RefBlocksHold(name, init, j);
      assert init[j] == ds[j];
      var k :| Occurs(RefBlock(name, init[j]), before, k);
      OccursInLonger(RefBlock(name, ds[j]), before, last, k);
      assert Occurs(RefBlock(name, ds[j]), RefBlocks(name, ds), k);
    }
  }

  /** A reference block starts with the referenced id and its endpoint and
      ends with ` ] ;`; the graph line is written between them exactly
      when the reference's graph is set. */
  lemma RefBlockShape(name: string, r: Reference)
    ensures StartsWith(RefBlock(name, r), BlockOpen(name, r))
    ensures EndsWith(RefBlock(name, r), BlockClose)
    ensures Truthy(r.sourceGraph) ==> Occurs(BlockGraph(r.sourceGraph.value), RefBlock(name, r), |BlockOpen(name, r)|)
    ensures !Truthy(r.sourceGraph) ==> |RefBlock(name, r)| == |BlockOpen(name, r)| + |BlockClose|
  {
    var open := BlockOpen(name, r);
    var middle := BlockGraphLine(r);
    var block := open + middle + BlockClose;
    assert block[..|open|] == open;
    assert block[|block| - |BlockClose|..] == BlockClose;
    assert block[|open|..|open| + |middle|] == middle;
  }

  // ---------------------------------------------------------------------
  // The method

  /** `project.toTurtle(tb)`. */
  method ProjectToTurtle(p: Project, tb: TurtleBuilder, quote: string -> string)
    modifies tb
    ensures tb.prefixes == ProjectPrefixes(p, old(tb.prefixes), old(tb.fragmentsById))
    ensures tb.fragmentsById == ProjectFragments(p, old(tb.fragmentsById), quote)
  {
    var id := p.base.id;
    if !tb.fragmentsById.Has(id) {
      ghost var seeded := tb.fragmentsById.Set(id, Seed(id));
      tb.prefixes := tb.prefixes.Set("fibra", FibraNs);
      tb.prefixes := tb.prefixes.Set("void", VoidNs);
      tb.fragmentsById := tb.fragmentsById.Set(id, Seed(id));
      CitableToTurtle(p.base, tb);
      assert seeded.Get(id) == Some(Seed(id));
      var f := JsText(tb.fragmentsById.Get(id));
      f := AppendLines(f, p, quote);
      tb.fragmentsById := tb.fragmentsById.Set(id, f);
    }
  }

  /** The project's own statements appended to its fragment. */
  method AppendLines(f: string, p: Project, quote: string -> string) returns (g: string)
    ensures g == f + ProjectLines(p, quote)
  {
    g := AppendSection(f, "schema", p.schemas, p.sourceEndpoint, p.sourceGraph);
    g := AppendSection(g, "authorityEndpoint", p.authorityEndpoints, p.sourceEndpoint, p.sourceGraph);
    g := AppendSection(g, "archiveEndpoint", p.archiveEndpoints, p.sourceEndpoint, p.sourceGraph);
    if Truthy(p.graph) {
      g := g + GraphText(p.graph.value);
    }
    g := g + QueryLines(p, quote);
    AppendThree(f, Section("schema", p.schemas, p.sourceEndpoint, p.sourceGraph),
                Section("authorityEndpoint", p.authorityEndpoints, p.sourceEndpoint, p.sourceGraph),
                Section("archiveEndpoint", p.archiveEndpoints, p.sourceEndpoint, p.sourceGraph));
    AppendThree(f, Sections(p), GraphLine(p.graph), QueryLines(p, quote));
  }

  /** One list section: the references of a non-empty list, the trailing
      `, ` turned into ` ;`, then a block per reference read from
      elsewhere. */
  method AppendSection(f: string, name: string, rs: seq<Reference>, se: Option<string>, sg: Option<string>) returns (g: string)
    ensures g == f + Section(name, rs, se, sg)
  {
    if |rs| > 0 {
      var ids := RefIds(rs);
      g := AppendRefs(f + ListHead(name), ids);
      g := DropLastTwo(g) + " ;";
      CloseRefList(f + ListHead(name), ids);
      AppendThree(f, ListHead(name), Join(Bracketed(ids), ", "), " ;");
      var ds := Elsewhere(rs, se, sg);
      g := AppendBlocks(g, name, ds);
      AppendTwo(f, ListLine(name, ids), RefBlocks(name, ds));
    } else {
      g := f;
    }
  }

  /** The `forEach` appending `<id>, ` per reference. */
  method AppendRefs(f: string, ids: seq<string>) returns (g: string)
    ensures g == f + RefList(ids)
  {
    g := f;
    var i := 0;
    while i < |ids|
      invariant 0 <= i <= |ids|
      invariant g == f + RefList(ids[..i])
    {
      g := g + RefItem(ids[i]);
      TakeOneMore(ids, i);
      RefListSnoc(ids[..i], ids[i]);
      AppendTwo(f, RefList(ids[..i]), RefItem(ids[i]));
      i := i + 1;
    }
    assert ids[..i] == ids;
  }

  /** The `forEach` appending the block of each reference kept by the
      `filter`. */
  method AppendBlocks(f: string, name: string, ds: seq<Reference>) returns (g: string)
    ensures g == f + RefBlocks(name, ds)
  {
    g := f;
    var i := 0;
    while i < |ds|
      invariant 0 <= i <= |ds|
      invariant g == f + RefBlocks(name, ds[..i])
    {
      g := AppendBlock(g, name, ds[i]);
      assert ds[..i + 1][..i] == ds[..i];
      AppendTwo(f, RefBlocks(name, ds[..i]), RefBlock(name, ds[i]));
      i := i + 1;
    }
    assert ds[..i] == ds;
  }

  /** One reference block, its graph line only when the graph is set. */
  method AppendBlock(f: string, name: string, r: Reference) returns (g: string)
    ensures g == f + RefBlock(name, r)
  {
    g := f + BlockOpen(name, r);
    if Truthy(r.sourceGraph) {
      g := g + BlockGraph(r.sourceGraph.value);
    }
    g := g + BlockClose;
    AppendThree(f, BlockOpen(name, r), BlockGraphLine(r), BlockClose);
  }
}
