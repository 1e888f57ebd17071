/** The endpoint configuration the application starts with: a primary
    endpoint, the authority and archive endpoints it searches, each with a
    data-model configuration whose selected types give a SPARQL filter, and
    a CSS class per remote endpoint, `source0`, `source1`, … in order. */
module Configuration {
  import opened Wrappers
  import opened Text

  /** A node with the Turtle form its `toCanonical()` gives. */
  datatype Term = Term(value: string, canonical: string)

  /** `new NamedNode(iri)`: an IRI, written `<iri>`. */
  function NamedNode(iri: string): (t: Term)
    ensures t.value == iri && t.canonical == "<" + iri + ">"
  {
    Term(iri, "<" + iri + ">")
  }

  function Canonicals(ts: seq<Term>): (cs: seq<string>)
    ensures |cs| == |ts| && forall i :: 0 <= i < |ts| ==> cs[i] == ts[i].canonical
  {
    seq(|ts|, i requires 0 <= i < |ts| => ts[i].canonical)
  }

  const FilterOpen: string := "FILTER (?groupId IN ("

  /** The filter `updateFilter` computes: nothing when no type is selected,
      otherwise the canonical forms of the types, comma-separated, inside an
      `IN` test on `?groupId`. */
  function TypeConstraints(ts: seq<Term>): string {
    if |ts| == 0 then "" else FilterOpen + Join(Canonicals(ts), ", ") + "))"
  }

  /** The filter is empty exactly when no type is selected; otherwise it is
      an `IN` test on `?groupId`. */
  lemma TypeConstraintsEmpty(ts: seq<Term>)
    ensures TypeConstraints(ts) == "" <==> ts == []
    ensures ts != [] ==>
              var r := TypeConstraints(ts);
              |r| >= |FilterOpen| + 2 && r[..|FilterOpen|] == FilterOpen && r[|r| - 2..] == "))"
  {
    if ts != [] {
      var r := TypeConstraints(ts);
      var middle := Join(Canonicals(ts), ", ");
      assert |FilterOpen| == 21;
      assert r == FilterOpen + (middle + "))");
      assert r[|r| - 2..] == (middle + "))")[|middle|..];
    }
  }

  /** The `IN` test mentions every selected type. */
  lemma TypeConstraintsMention(ts: seq<Term>, i: nat)
    requires i < |ts|
    ensures exists k :: Occurs(ts[i].canonical, TypeConstraints(ts), k)
  {
    var r := TypeConstraints(ts);
    var middle := Join(Canonicals(ts), ", ");
    var c := ts[i].canonical;
    assert r == FilterOpen + middle + "))";
    JoinOccurs(Canonicals(ts), ", ", i);
    var k :| Occurs(c, middle, k);
    assert r[|FilterOpen| + k..|FilterOpen| + k + |c|] == middle[k..k + |c|];
    assert Occurs(c, r, |FilterOpen| + k);
  }

  class DataModelConfiguration {
    var typeConstraints: string
    var selectedTypes: seq<Term>

    /** The filter matches the selected types. */
    predicate Consistent()
      reads this
    {
      typeConstraints == TypeConstraints(selectedTypes)
    }

    constructor()
      ensures typeConstraints == "" && selectedTypes == [] && Consistent()
    {
      typeConstraints := "";
      selectedTypes := [];
    }

    /** `setSelectedTypes`: the selection is replaced and the filter
        recomputed. */
    method SetSelectedTypes(ts: seq<Term>)
      modifies this
      ensures selectedTypes == ts && Consistent()
    {
      selectedTypes := ts;
      UpdateFilter();
    }

    /** `updateFilter`. */
    method UpdateFilter()
      modifies this`typeConstraints
      ensures Consistent()
    {
      if |selectedTypes| == 0 {
        typeConstraints := "";
      } else {
        typeConstraints := FilterOpen + Join(Canonicals(selectedTypes), ", ") + "))";
      }
    }
  }

  /** An endpoint configuration. A primary endpoint also has an update
      endpoint; the query fields are the ones `Project.asTemplate` sets on
      the object it makes, absent otherwise. */
  class EndpointConfiguration {
    var cssClass: string
    const id: Option<string>
    const title: Option<string>
    const endpoint: Option<Term>
    const updateEndpoint: Option<Term>
    const dataModelConfiguration: DataModelConfiguration
    var autocompletionQuery: Option<string>
    var itemQuery: Option<string>
    var deleteItemQuery: Option<string>
    var treeQuery: Option<string>
    var propertyQuery: Option<string>
    var classQuery: Option<string>

    /** None of the query fields is set. */
    predicate NoQueries()
      reads this
    {
      autocompletionQuery == None && itemQuery == None && deleteItemQuery == None
      && treeQuery == None && propertyQuery == None && classQuery == None
    }

    /** `new EndpointConfiguration(id, title, endpoint, selectedTypes)`: no
        class yet, and the selected types applied to a fresh data-model
        configuration. */
    constructor (id: string, title: string, endpoint: Term, selectedTypes: seq<Term>)
      ensures this.id == Some(id) && this.title == Some(title) && this.endpoint == Some(endpoint)
      ensures cssClass == "" && updateEndpoint == None && NoQueries()
      ensures fresh(dataModelConfiguration)
      ensures dataModelConfiguration.selectedTypes == selectedTypes && dataModelConfiguration.Consistent()
    {
      cssClass := "";
      this.id := Some(id);
      this.title := Some(title);
      this.endpoint := Some(endpoint);
      updateEndpoint := None;
      autocompletionQuery := None;
      itemQuery := None;
      deleteItemQuery := None;
      treeQuery := None;
      propertyQuery := None;
      classQuery := None;
      var dm := new DataModelConfiguration();
      dm.SetSelectedTypes(selectedTypes);
      dataModelConfiguration := dm;
    }

    /** `new PrimaryEndpointConfiguration(id, title, endpoint, updateEndpoint)`,
        any argument possibly left out: the update endpoint defaults to the
        endpoint, and no type is selected. */
    constructor Primary(id: Option<string>, title: Option<string>, endpoint: Option<Term>, updateEndpoint: Option<Term>)
      ensures this.id == id && this.title == title && this.endpoint == endpoint
      ensures this.updateEndpoint == (if updateEndpoint.Some? then updateEndpoint else endpoint)
      ensures cssClass == "" && NoQueries()
      ensures fresh(dataModelConfiguration)
      ensures dataModelConfiguration.selectedTypes == [] && dataModelConfiguration.typeConstraints == ""
    {
      cssClass := "";
      this.id := id;
      this.title := title;
      this.endpoint := endpoint;
      this.updateEndpoint := if updateEndpoint.Some? then updateEndpoint else endpoint;
      autocompletionQuery := None;
      itemQuery := None;
      deleteItemQuery := None;
      treeQuery := None;
      propertyQuery := None;
      classQuery := None;
      var dm := new DataModelConfiguration();
      dm.SetSelectedTypes([]);
      dataModelConfiguration := dm;
    }
  }

  class Configuration {
    var preferredLanguage: string
    var primaryEndpoint: EndpointConfiguration?
    var authorityEndpoints: seq<EndpointConfiguration>
    var archiveEndpoints: seq<EndpointConfiguration>
    const globalDataModelConfiguration: DataModelConfiguration
    var instanceNS: Option<string>
    var instanceGraph: Option<string>
    var schemaNS: Option<string>
    var schemaGraph: Option<string>
    var prefixes: string

    /** `new Configuration()`: English, no endpoints, nothing set. */
    constructor()
      ensures preferredLanguage == "\"en\"" && prefixes == ""
      ensures primaryEndpoint == null && authorityEndpoints == [] && archiveEndpoints == []
      ensures instanceNS == None && instanceGraph == None && schemaNS == None && schemaGraph == None
      ensures fresh(globalDataModelConfiguration)
      ensures globalDataModelConfiguration.selectedTypes == [] && globalDataModelConfiguration.typeConstraints == ""
    {
      preferredLanguage := "\"en\"";
      primaryEndpoint := null;
      authorityEndpoints := [];
      archiveEndpoints := [];
      globalDataModelConfiguration := new DataModelConfiguration();
      instanceNS := None;
      instanceGraph := None;
      schemaNS := None;
      schemaGraph := None;
      prefixes := "";
    }

    /** `remoteEndpoints()`: the archives, then the authorities. */
    function RemoteEndpoints(): (r: seq<EndpointConfiguration>)
      reads this
      ensures |r| == |archiveEndpoints| + |authorityEndpoints|
      ensures forall i :: 0 <= i < |archiveEndpoints| ==> r[i] == archiveEndpoints[i]
      ensures forall j :: 0 <= j < |authorityEndpoints| ==> r[|archiveEndpoints| + j] == authorityEndpoints[j]
    {
      archiveEndpoints + authorityEndpoints
    }

    /** `allEndpoints()`: the remote endpoints with the primary one pushed
        last onto a fresh array; no list of the configuration changes. */
    method AllEndpoints() returns (all: seq<EndpointConfiguration?>)
      ensures |all| == |archiveEndpoints| + |authorityEndpoints| + 1
      ensures forall i :: 0 <= i < |all| - 1 ==> all[i] == RemoteEndpoints()[i]
      ensures all[|all| - 1] == primaryEndpoint
      ensures forall e :: e in all <==> e in archiveEndpoints || e in authorityEndpoints || e == primaryEndpoint
    {
      var allEndpoints: seq<EndpointConfiguration?> := archiveEndpoints + authorityEndpoints;
      allEndpoints := allEndpoints + [primaryEndpoint];
      all := allEndpoints;
    }

    /** Installs the primary endpoint and the numbered authorities and
        archives. */
    method SetEndpoints(primary: EndpointConfiguration, authorities: seq<EndpointConfiguration>, archives: seq<EndpointConfiguration>)
      requires ClassesFrom(authorities, 0) && ClassesFrom(archives, |authorities|)
      requires HasIds(authorities, AuthorityIds) && HasIds(archives, ArchiveIds)
      modifies this`primaryEndpoint, this`authorityEndpoints, this`archiveEndpoints
      ensures primaryEndpoint == primary && authorityEndpoints == authorities && archiveEndpoints == archives
      ensures Numbered() && HasIds(authorityEndpoints, AuthorityIds) && HasIds(archiveEndpoints, ArchiveIds)
    {
      primaryEndpoint := primary;
      authorityEndpoints := authorities;
      archiveEndpoints := archives;
    }

    /** The instance and schema namespaces and graphs of Fibra. */
    method SetFibraNamespaces()
      modifies this`instanceNS, this`instanceGraph, this`schemaNS, this`schemaGraph
      ensures && instanceNS == Some(FibraInstanceNs) && instanceGraph == Some(FibraInstanceGraph)
              && schemaNS == Some(FibraSchemaNs) && schemaGraph == Some(FibraSchemaNs)
    {
      instanceNS := Some(FibraInstanceNs);
      instanceGraph := Some(FibraInstanceGraph);
      schemaNS := Some(FibraSchemaNs);
      schemaGraph := Some(FibraSchemaNs);
    }

    /** Authority `i` has the class of position `i`, archive `j` the one of
        position `|authorityEndpoints| + j`. */
    predicate Numbered()
      reads this`authorityEndpoints, this`archiveEndpoints, authorityEndpoints`cssClass, archiveEndpoints`cssClass
    {
      ClassesFrom(authorityEndpoints, 0) && ClassesFrom(archiveEndpoints, |authorityEndpoints|)
    }

    /** Remote endpoint `k` has the class of its numbering position. */
    lemma RemoteClassAt(k: nat) returns (p: nat)
      requires Numbered() && k < |RemoteEndpoints()|
      ensures RemoteEndpoints()[k].cssClass == SourceClass(p)
      ensures k < |archiveEndpoints| ==> p == |authorityEndpoints| + k
      ensures k >= |archiveEndpoints| ==> p == k - |archiveEndpoints|
    {
      var n := |archiveEndpoints|;
      if k < n {
        p := |authorityEndpoints| + k;
        assert RemoteEndpoints()[k] == archiveEndpoints[k];
      } else {
        p := k - n;
        assert RemoteEndpoints()[k] == authorityEndpoints[k - n];
      }
    }

    /** Numbered this way, no two remote endpoints share a class. */
    lemma NumberedClassesDistinct()
      requires Numbered()
      ensures var r := RemoteEndpoints();
              forall i, j :: 0 <= i < j < |r| ==> r[i].cssClass != r[j].cssClass
    {
      var r := RemoteEndpoints();
      var n := |archiveEndpoints|;
      var m := |authorityEndpoints|;
      forall i, j | 0 <= i < j < |r|
        ensures r[i].cssClass != r[j].cssClass
      {
        var a := RemoteClassAt(i);
        var b := RemoteClassAt(j);
        SourceClassInjective(a, b);
      }
    }
  }

  /** The class `forEach((e, i) => e.class = 'source' + (offset + i))` gives. */
  function SourceClass(n: nat): string {
    "source" + NatToDecimal(n)
  }

  /** Different positions give different classes. */
  lemma SourceClassInjective(a: nat, b: nat)
    ensures SourceClass(a) == SourceClass(b) ==> a == b
  {
    if SourceClass(a) == SourceClass(b) {
      assert NatToDecimal(a) == SourceClass(a)[6..] && NatToDecimal(b) == SourceClass(b)[6..];
      NatToDecimalInjective(a, b);
    }
  }

  /** Endpoint `i` of the list has the class of position `offset + i`. */
  predicate ClassesFrom(es: seq<EndpointConfiguration>, offset: nat)
    reads es`cssClass
  {
    forall i {:trigger es[i].cssClass} :: 0 <= i < |es| ==> es[i].cssClass == SourceClass(offset + i)
  }

  /** Endpoint `i` of the list gets the class of position `offset + i`. */
  method NumberEndpoints(es: seq<EndpointConfiguration>, offset: nat)
    requires forall i, j :: 0 <= i < j < |es| ==> es[i] != es[j]
    modifies es`cssClass
    ensures ClassesFrom(es, offset)
  {
    var i := 0;
    while i < |es|
      invariant 0 <= i <= |es|
      invariant forall k :: 0 <= k < i ==> es[k].cssClass == SourceClass(offset + k)
    {
      es[i].cssClass := SourceClass(offset + i);
      i := i + 1;
    }
  }

  /** The type terms the built-in endpoints select: the Getty person,
      group, administrative-place and physical/administrative-place
      concepts, and the CIDOC-CRM person, place and group classes. */
  datatype TypeTerms = TypeTerms(gettyPerson: Term, gettyGroup: Term, gettyAdminPlace: Term, gettyPhysAdminPlace: Term,
                                 cidocPerson: Term, cidocPlace: Term, cidocGroup: Term)

  const AuthorityIds := ["ulan", "lcnames", "viaf", "tgn", "geonames"]
  const ArchiveIds := ["sdfb", "emlo", "procope", "fbtee", "schoenberg"]
  const GettySparql := "http://ldf.fi/corsproxy/vocab.getty.edu/sparql"
  const LcnamesSparql := "http://ldf.fi/lcnames/sparql"
  const ViafSparql := "http://ldf.fi/viaf/sparql"
  const GeonamesSparql := "http://ldf.fi/geonames/sparql"
  const SdfbSparql := "http://ldf.fi/sdfb/sparql"
  const EmloSparql := "http://ldf.fi/emlo/sparql"
  const ProcopeSparql := "http://ldf.fi/procope/sparql"
  const FbteeSparql := "http://ldf.fi/fbtee/sparql"
  const SchoenbergSparql := "http://ldf.fi/schoenberg/sparql"

  /** The endpoint has the id, title and SPARQL endpoint, and its data model
      selects the types. */
  predicate Describes(e: EndpointConfiguration, id: string, title: string, url: string, types: seq<Term>)
    reads e.dataModelConfiguration`selectedTypes
  {
    e.id == Some(id) && e.title == Some(title) && e.endpoint == Some(NamedNode(url))
    && e.dataModelConfiguration.selectedTypes == types
  }

  /** The five authorities in the order the service lists them: ULAN and
      TGN on the Getty endpoint selecting Getty person and group, and
      administrative and physical place concepts; LC Names, VIAF and GeoNames
      on their own endpoints selecting no types. */
  predicate AuthoritiesDescribed(es: seq<EndpointConfiguration>, types: TypeTerms)
    reads (set e | e in es :: e.dataModelConfiguration)`selectedTypes
  {
    match types
    case TypeTerms(person, group, adminPlace, physAdminPlace, _, _, _) =>
      && |es| == 5
      && Describes(es[0], "ulan", "ULAN", GettySparql, [person, group])
      && Describes(es[1], "lcnames", "LC Names", LcnamesSparql, [])
      && Describes(es[2], "viaf", "VIAF", ViafSparql, [])
      && Describes(es[3], "tgn", "TGN", GettySparql, [adminPlace, physAdminPlace])
      && Describes(es[4], "geonames", "GeoNames", GeonamesSparql, [])
  }

  /** The five archives in the order the service lists them, each on its own
      endpoint and selecting the CIDOC-CRM person, place and group classes. */
  predicate ArchivesDescribed(es: seq<EndpointConfiguration>, types: TypeTerms)
    reads (set e | e in es :: e.dataModelConfiguration)`selectedTypes
  {
    match types
    case TypeTerms(_, _, _, _, person, place, group) =>
      && |es| == 5
      && Describes(es[0], "sdfb", "SDFB", SdfbSparql, [person, place, group])
      && Describes(es[1], "emlo", "EMLO", EmloSparql, [person, place, group])
      && Describes(es[2], "procope", "Procope", ProcopeSparql, [person, place, group])
      && Describes(es[3], "fbtee", "FBTEE", FbteeSparql, [person, place, group])
      && Describes(es[4], "schoenberg", "Schoenberg", SchoenbergSparql, [person, place, group])
  }

  /** The endpoints carry the given ids, in order. */
  predicate HasIds(es: seq<EndpointConfiguration>, ids: seq<string>)
  {
    |es| == |ids| && forall i {:trigger es[i].id} :: 0 <= i < |es| ==> es[i].id == Some(ids[i])
  }

  lemma DistinctFive(es: seq<EndpointConfiguration>)
    requires |es| == 5
    requires es[0] != es[1] && es[0] != es[2] && es[0] != es[3] && es[0] != es[4]
    requires es[1] != es[2] && es[1] != es[3] && es[1] != es[4]
    requires es[2] != es[3] && es[2] != es[4] && es[3] != es[4]
    ensures forall i, j :: 0 <= i < j < |es| ==> es[i] != es[j]
  {
  }

  /** The five authority endpoints, in the order the service lists them:
      ULAN and TGN on the Getty endpoint selecting Getty person and group,
      and administrative and physical place concepts; LC Names, VIAF and
      GeoNames selecting no types. */
  method BuiltinAuthorities(types: TypeTerms) returns (es: seq<EndpointConfiguration>)
    ensures HasIds(es, AuthorityIds)
    ensures fresh(set e | e in es)
    ensures forall i, j :: 0 <= i < j < |es| ==> es[i] != es[j]
    ensures AuthoritiesDescribed(es, types)
  {
    var getty := NamedNode(GettySparql);
    var ulan := new EndpointConfiguration("ulan", "ULAN", getty, [types.gettyPerson, types.gettyGroup]);
    var tgn := new EndpointConfiguration("tgn", "TGN", getty, [types.gettyAdminPlace, types.gettyPhysAdminPlace]);
    var viaf := new EndpointConfiguration("viaf", "VIAF", NamedNode(ViafSparql), []);
    var lcnames := new EndpointConfiguration("lcnames", "LC Names", NamedNode(LcnamesSparql), []);
    var geonames := new EndpointConfiguration("geonames", "GeoNames", NamedNode(GeonamesSparql), []);
    es := [ulan, lcnames, viaf, tgn, geonames];
    DistinctFive(es);
  }

  /** The five archive endpoints, in the order the service lists them, each
      selecting the CIDOC-CRM person, place and group classes. */
  method BuiltinArchives(types: TypeTerms) returns (es: seq<EndpointConfiguration>)
    ensures HasIds(es, ArchiveIds)
    ensures fresh(set e | e in es)
    ensures forall i, j :: 0 <= i < j < |es| ==> es[i] != es[j]
    ensures ArchivesDescribed(es, types)
  {
    var cidoc := [types.cidocPerson, types.cidocPlace, types.cidocGroup];
    var emlo := new EndpointConfiguration("emlo", "EMLO", NamedNode(EmloSparql), cidoc);
    var sdfb := new EndpointConfiguration("sdfb", "SDFB", NamedNode(SdfbSparql), cidoc);
    var procope := new EndpointConfiguration("procope", "Procope", NamedNode(ProcopeSparql), cidoc);
    var fbtee := new EndpointConfiguration("fbtee", "FBTEE", NamedNode(FbteeSparql), cidoc);
    var schoenberg := new EndpointConfiguration("schoenberg", "Schoenberg", NamedNode(SchoenbergSparql), cidoc);
    es := [sdfb, emlo, procope, fbtee, schoenberg];
    DistinctFive(es);
  }

  /** Numbers the authorities from 0, builds the archives and numbers them
      after the authorities. */
  method NumberedRemotes(types: TypeTerms, authorities: seq<EndpointConfiguration>) returns (archives: seq<EndpointConfiguration>)
    requires HasIds(authorities, AuthorityIds)
    requires forall i, j :: 0 <= i < j < |authorities| ==> authorities[i] != authorities[j]
    modifies authorities
    ensures HasIds(authorities, AuthorityIds) && HasIds(archives, ArchiveIds)
    ensures fresh(set e | e in archives)
    ensures ClassesFrom(authorities, 0) && ClassesFrom(archives, |authorities|)
    ensures forall e :: e in authorities ==> unchanged(e.dataModelConfiguration)
    ensures ArchivesDescribed(archives, types)
  {
    NumberEndpoints(authorities, 0);
    archives := BuiltinArchives(types);
    NumberEndpoints(archives, |authorities|);
  }

  const LocalId := "local"
  const LocalTitle := "Local"
  const FibraSparql := "http://ldf.fi/fibra/sparql"
  const FibraInstanceNs := "http://ldf.fi/fibra/"
  const FibraInstanceGraph := "http://ldf.fi/fibra/main/"
  const FibraSchemaNs := "http://ldf.fi/fibra/schema#"

  /** The local primary endpoint, queried and updated at the Fibra SPARQL
      endpoint. */
  method LocalPrimary() returns (p: EndpointConfiguration)
    ensures fresh(p)
    ensures p.id == Some(LocalId) && p.title == Some(LocalTitle)
    ensures p.endpoint == Some(NamedNode(FibraSparql)) && p.updateEndpoint == Some(NamedNode(FibraSparql))
    ensures p.cssClass == "" && p.NoQueries()
    ensures p.dataModelConfiguration.selectedTypes == [] && p.dataModelConfiguration.typeConstraints == ""
  {
    var sparql := NamedNode(FibraSparql);
    p := new EndpointConfiguration.Primary(Some(LocalId), Some(LocalTitle), Some(sparql), Some(sparql));
  }

  /** The authorities and the archives, numbered in that order. */
  method BuiltinRemotes(types: TypeTerms) returns (authorities: seq<EndpointConfiguration>, archives: seq<EndpointConfiguration>)
    ensures fresh(set e | e in authorities) && fresh(set e | e in archives)
    ensures HasIds(authorities, AuthorityIds) && HasIds(archives, ArchiveIds)
    ensures ClassesFrom(authorities, 0) && ClassesFrom(archives, |authorities|)
    ensures AuthoritiesDescribed(authorities, types)
    ensures ArchivesDescribed(archives, types)
  {
    authorities := BuiltinAuthorities(types);
    archives := NumberedRemotes(types, authorities);
  }

  /** The local primary endpoint and the numbered built-in authorities and
      archives, installed in the configuration. */
  method InstallBuiltinEndpoints(c: Configuration, types: TypeTerms)
    modifies c`primaryEndpoint, c`authorityEndpoints, c`archiveEndpoints
    ensures && c.primaryEndpoint != null && fresh(c.primaryEndpoint)
            && c.primaryEndpoint.id == Some(LocalId) && c.primaryEndpoint.title == Some(LocalTitle)
            && c.primaryEndpoint.endpoint == Some(NamedNode(FibraSparql))
            && c.primaryEndpoint.updateEndpoint == Some(NamedNode(FibraSparql))
            && c.primaryEndpoint.cssClass == "" && c.primaryEndpoint.dataModelConfiguration.selectedTypes == []
    ensures AuthoritiesDescribed(c.authorityEndpoints, types)
    ensures ArchivesDescribed(c.archiveEndpoints, types)
    ensures c.Numbered()
  {
    var primary := LocalPrimary();
    var authorities, archives := BuiltinRemotes(types);
    c.SetEndpoints(primary, authorities, archives);
  }

  /** The built-in configuration: the local primary endpoint, five
      authorities and five archives numbered `source0` to `source9`, English
      as preferred language, an empty global data model, and the Fibra
      namespaces and graphs. */
  method BuiltinConfiguration(types: TypeTerms) returns (c: Configuration)
    ensures fresh(c)
    ensures && c.primaryEndpoint != null && c.primaryEndpoint.id == Some(LocalId) && c.primaryEndpoint.title == Some(LocalTitle)
            && c.primaryEndpoint.endpoint == Some(NamedNode(FibraSparql))
            && c.primaryEndpoint.updateEndpoint == Some(NamedNode(FibraSparql))
            && c.primaryEndpoint.cssClass == "" && c.primaryEndpoint.dataModelConfiguration.selectedTypes == []
    ensures AuthoritiesDescribed(c.authorityEndpoints, types)
    ensures ArchivesDescribed(c.archiveEndpoints, types)
    ensures c.Numbered()
    ensures c.preferredLanguage == "\"en\"" && c.prefixes == ""
    ensures c.globalDataModelConfiguration.selectedTypes == [] && c.globalDataModelConfiguration.typeConstraints == ""
    ensures && c.instanceNS == Some(FibraInstanceNs) && c.instanceGraph == Some(FibraInstanceGraph)
            && c.schemaNS == Some(FibraSchemaNs) && c.schemaGraph == Some(FibraSchemaNs)
  {
    c := new Configuration();
    c.SetFibraNamespaces();
    InstallBuiltinEndpoints(c, types);
  }

  /** The service holds the built-in configuration. */
  class ConfigurationService {
    const configuration: Configuration

    constructor(types: TypeTerms)
      ensures fresh(configuration)
      ensures && configuration.primaryEndpoint != null && configuration.primaryEndpoint.id == Some(LocalId) && configuration.primaryEndpoint.title == Some(LocalTitle)
              && configuration.primaryEndpoint.endpoint == Some(NamedNode(FibraSparql))
              && configuration.primaryEndpoint.updateEndpoint == Some(NamedNode(FibraSparql))
              && configuration.primaryEndpoint.cssClass == "" && configuration.primaryEndpoint.dataModelConfiguration.selectedTypes == []
      ensures AuthoritiesDescribed(configuration.authorityEndpoints, types)
      ensures ArchivesDescribed(configuration.archiveEndpoints, types)
      ensures configuration.Numbered()
      ensures configuration.preferredLanguage == "\"en\"" && configuration.prefixes == ""
      ensures configuration.globalDataModelConfiguration.selectedTypes == [] && configuration.globalDataModelConfiguration.typeConstraints == ""
      ensures && configuration.instanceNS == Some(FibraInstanceNs) && configuration.instanceGraph == Some(FibraInstanceGraph)
              && configuration.schemaNS == Some(FibraSchemaNs) && configuration.schemaGraph == Some(FibraSchemaNs)
    {
      var c := BuiltinConfiguration(types);
      configuration := c;
    }
  }
}
