/** Writing citables as Turtle. `Citable.toTurtle` registers its prefixes
    and writes one fragment per subject into a builder: the fragment already
    seeded under the citable's id is extended with a line per label, the
    creation date, a line per description, the homepage and the rights
    holders. A rights holder that has no fragment yet is seeded as a
    `foaf:Agent` and written in turn. The `toTurtle` of the utilities then
    joins the prefixes and fragments into one document. */
module Turtle {
  import opened Wrappers
  import opened Text
  import opened Dict
  import opened FirstSeen

  const SkosNs: string := "http://www.w3.org/2004/02/skos/core#"
  const DctermsNs: string := "http://purl.org/dc/terms/"
  const FoafNs: string := "http://xmlns.com/foaf/0.1/"
  const FibraNs: string := "http://hdlab.stanford.edu/fibra/ontology#"
  const RdfNs: string := "http://www.w3.org/1999/02/22-rdf-syntax-ns#"
  const XsdNs: string := "http://www.w3.org/2001/XMLSchema#"

  /** A literal with the Turtle form its `toCanonical()` gives. */
  datatype Literal = Literal(value: string, canonical: string)

  datatype CitableSource = CitableSource(sparqlEndpoint: Option<string>, graph: Option<string>)

  /** A citable: the labels and descriptions in the order their node sets
      hold them, `created` the ISO text of its creation date. */
  datatype Citable = Citable(id: string, className: string, source: CitableSource,
                             labels: seq<Literal>, url: Option<string>, descriptions: seq<Literal>,
                             rightsHolders: seq<Citable>, created: string)

  /** `new Citable(id)` created at `created`: no source endpoint, no labels,
      descriptions, homepage or rights holders, and the class name
      `'Citable'`. */
  function NewCitable(id: string, created: string): (c: Citable)
    ensures c.id == id && c.className == "Citable" && c.created == created
    ensures c.source == CitableSource(None, None) && c.url == None
    ensures c.labels == [] && c.descriptions == [] && c.rightsHolders == []
  {
    Citable(id, "Citable", CitableSource(None, None), [], None, [], [], created)
  }

  /** The text JavaScript makes of a string that may be `undefined`. */
  function JsText(s: Option<string>): string {
    match s
    case Some(t) => t
    case None => "undefined"
  }

  /** A string that may be `undefined` used as a condition. */
  predicate Truthy(s: Option<string>) {
    s.Some? && s.value != ""
  }

  /** The builder both serialisers write into: the prefixes by name and the
      fragments by subject id, each in insertion order. */
  class TurtleBuilder {
    var prefixes: Dict<string>
    var fragmentsById: Dict<string>

    constructor()
      ensures prefixes == Empty() && fragmentsById == Empty()
    {
      prefixes := Empty();
      fragmentsById := Empty();
    }
  }

  // ---------------------------------------------------------------------
  // The prefixes

  const CitablePrefixNames: seq<string> := ["skos", "dcterms", "foaf", "fibra", "rdf", "xsd"]

  function CitablePrefixes(p: Dict<string>): Dict<string> {
    p.Set("skos", SkosNs).Set("dcterms", DctermsNs).Set("foaf", FoafNs)
     .Set("fibra", FibraNs).Set("rdf", RdfNs).Set("xsd", XsdNs)
  }

  /** The six prefixes are set, to their namespaces, and nothing else
      changes. */
  lemma CitablePrefixesEntries(p: Dict<string>)
    ensures forall k :: k in CitablePrefixes(p).entries <==> k in p.entries || k in CitablePrefixNames
    ensures forall k :: k in p.entries && k !in CitablePrefixNames ==> CitablePrefixes(p).entries[k] == p.entries[k]
    ensures var e := CitablePrefixes(p).entries;
            e["skos"] == SkosNs && e["dcterms"] == DctermsNs && e["foaf"] == FoafNs
            && e["fibra"] == FibraNs && e["rdf"] == RdfNs && e["xsd"] == XsdNs
  {
    var e := p.entries["skos" := SkosNs]["dcterms" := DctermsNs]["foaf" := FoafNs]
             ["fibra" := FibraNs]["rdf" := RdfNs]["xsd" := XsdNs];
    assert CitablePrefixes(p).entries == e;
  }

  /** The prefixes stay a proper map. */
  lemma CitablePrefixesValid(p: Dict<string>)
    requires p.Valid()
    ensures CitablePrefixes(p).Valid()
  {
    var p1 := p.Set("skos", SkosNs);
    var p2 := p1.Set("dcterms", DctermsNs);
    var p3 := p2.Set("foaf", FoafNs);
    var p4 := p3.Set("fibra", FibraNs);
    var p5 := p4.Set("rdf", RdfNs);
    p.SetKeepsValid("skos", SkosNs);
    p1.SetKeepsValid("dcterms", DctermsNs);
    p2.SetKeepsValid("foaf", FoafNs);
    p3.SetKeepsValid("fibra", FibraNs);
    p4.SetKeepsValid("rdf", RdfNs);
    p5.SetKeepsValid("xsd", XsdNs);
  }

  /** Into an empty builder the prefixes go in the order they are set. */
  lemma CitablePrefixesOrder()
    ensures CitablePrefixes(Empty()).keys == CitablePrefixNames
  {
    var p1 := Empty<string>().Set("skos", SkosNs);
    assert p1.keys == ["skos"];
    var p2 := p1.Set("dcterms", DctermsNs);
    assert p2.keys == ["skos", "dcterms"];
    var p3 := p2.Set("foaf", FoafNs);
    assert p3.keys == ["skos", "dcterms", "foaf"];
    var p4 := p3.Set("fibra", FibraNs);
    assert p4.keys == ["skos", "dcterms", "foaf", "fibra"];
    var p5 := p4.Set("rdf", RdfNs);
    assert p5.keys == ["skos", "dcterms", "foaf", "fibra", "rdf"];
  }

  /** Setting the six prefixes again changes nothing, whatever was there. */
  lemma CitablePrefixesTwice(p: Dict<string>)
    ensures CitablePrefixes(CitablePrefixes(p)) == CitablePrefixes(p)
  {
    var q := CitablePrefixes(p);
    SetSameKeeps(q, "skos", SkosNs);
    SetSameKeeps(q, "dcterms", DctermsNs);
    SetSameKeeps(q, "foaf", FoafNs);
    SetSameKeeps(q, "fibra", FibraNs);
    SetSameKeeps(q, "rdf", RdfNs);
    SetSameKeeps(q, "xsd", XsdNs);
  }

  /** Setting a key to the value it already has changes nothing. */
  lemma SetSameKeeps(d: Dict<string>, k: string, v: string)
    requires k in d.entries && d.entries[k] == v
    ensures d.Set(k, v) == d
  {
    assert d.entries[k := v] == d.entries;
  }

  // ---------------------------------------------------------------------
  // The lines of a fragment

  /** A statement of a fragment ends with ` ;`. */
  predicate EndsStatement(f: string) {
    |f| >= 2 && f[|f| - 2..] == " ;"
  }

  /** `f` is `start` with statements appended. */
  predicate Extends(f: string, start: string) {
    |start| <= |f| && f[..|start|] == start && EndsStatement(f)
  }

  /** The statement written for a literal. */
  function LiteralText(l: Literal, predicateName: string): string {
    "\n" + predicateName + " " + l.canonical + " ;"
  }

  /** A literal with an empty value writes nothing. */
  function LiteralLine(l: Literal, predicateName: string): string {
    if l.value != "" then LiteralText(l, predicateName) else ""
  }

  /** The lines the `each` loop over labels (or descriptions) appends. */
  function LiteralLines(ls: seq<Literal>, predicateName: string): string {
    if ls == [] then "" else LiteralLines(ls[..|ls| - 1], predicateName) + LiteralLine(ls[|ls| - 1], predicateName)
  }

  /** The number of literals with a non-empty value. */
  function NonEmptyCount(ls: seq<Literal>): nat {
    if ls == [] then 0 else NonEmptyCount(ls[..|ls| - 1]) + (if ls[|ls| - 1].value != "" then 1 else 0)
  }

  /** One line per literal with a value and none for the empty ones: the
      lines are exactly as many as the non-empty literals. */
  lemma {:induction false} LiteralLinesCount(ls: seq<Literal>, predicateName: string)
    requires '\n' !in predicateName
    requires forall i :: 0 <= i < |ls| ==> '\n' !in ls[i].canonical
    ensures multiset(LiteralLines(ls, predicateName))['\n'] == NonEmptyCount(ls)
    ensures LiteralLines(ls, predicateName) == [] <==> NonEmptyCount(ls) == 0
  {
    if ls != [] {
      var init := ls[..|ls| - 1];
      var l := ls[|ls| - 1];
      LiteralLinesCount(init, predicateName);
      if l.value != "" {
        assert multiset(LiteralText(l, predicateName))['\n'] == 1 by {
          assert multiset(LiteralText(l, predicateName)) ==
                 multiset("\n") + multiset(predicateName) + multiset(" ") + multiset(l.canonical) + multiset(" ;");
        }
      }
    }
  }

  lemma {:induction false} LiteralLinesEnd(ls: seq<Literal>, predicateName: string)
    ensures LiteralLines(ls, predicateName) == [] || EndsStatement(LiteralLines(ls, predicateName))
  {
    if ls != [] {
      LiteralLinesEnd(ls[..|ls| - 1], predicateName);
      EndsClose("\n" + predicateName + " " + ls[|ls| - 1].canonical);
      EndsAppend(LiteralLines(ls[..|ls| - 1], predicateName), LiteralLine(ls[|ls| - 1], predicateName));
    }
  }

  /** Appending statements (or nothing) keeps a text ending with a
      statement. */
  lemma EndsAppend(a: string, b: string)
    requires a == [] || EndsStatement(a)
    requires b == [] || EndsStatement(b)
    ensures a + b == [] || EndsStatement(a + b)
  {
    if b != [] {
      assert (a + b)[|a + b| - 2..] == b[|b| - 2..];
    }
  }

  /** Any text closed by ` ;` ends with a statement. */
  lemma EndsClose(x: string)
    ensures EndsStatement(x + " ;")
  {
  }

  function CreatedLine(created: string): string {
    "\ndcterms:created \"" + created + "\"^^xsd:dateTime ;"
  }

  function HomepageText(url: string): string {
    "\nfoaf:homepage <" + url + "> ;"
  }

  function HomepageLine(url: Option<string>): string {
    if Truthy(url) then HomepageText(url.value) else ""
  }

  /** The label, creation, description and homepage lines. */
  function OwnLines(c: Citable): string {
    LiteralLines(c.labels, "skos:prefLabel") + CreatedLine(c.created)
    + LiteralLines(c.descriptions, "dcterms:description") + HomepageLine(c.url)
  }

  // ---------------------------------------------------------------------
  // Lists of references

  function Bracket(id: string): string {
    "<" + id + ">"
  }

  function Bracketed(ids: seq<string>): (bs: seq<string>)
    ensures |bs| == |ids| && forall i :: 0 <= i < |ids| ==> bs[i] == Bracket(ids[i])
  {
    seq(|ids|, i requires 0 <= i < |ids| => Bracket(ids[i]))
  }

  /** `<id>, `. */
  function RefItem(id: string): string {
    Bracket(id) + ", "
  }

  /** What the `forEach` appending `<id>, ` per id leaves. */
  function RefList(ids: seq<string>): string {
    if ids == [] then "" else RefItem(ids[0]) + RefList(ids[1..])
  }

  lemma {:induction false} RefListSnoc(ids: seq<string>, x: string)
    ensures RefList(ids + [x]) == RefList(ids) + RefItem(x)
  {
    if ids != [] {
      assert (ids + [x])[1..] == ids[1..] + [x];
      RefListSnoc(ids[1..], x);
    } else {
      assert ([] + [x])[1..] == [];
    }
  }

  lemma {:induction false} RefListJoin(ids: seq<string>)
    requires ids != []
    ensures RefList(ids) == Join(Bracketed(ids), ", ") + ", "
  {
    if |ids| > 1 {
      RefListJoin(ids[1..]);
      assert Bracketed(ids)[1..] == Bracketed(ids[1..]);
    }
  }

  /** Replacing the trailing `, ` by ` ;` turns the appended references into
      the comma-separated list closed by ` ;`. */
  lemma CloseRefList(pre: string, ids: seq<string>)
    requires ids != []
    ensures DropLastTwo(pre + RefList(ids)) + " ;" == pre + Join(Bracketed(ids), ", ") + " ;"
  {
    RefListJoin(ids);
    var s := pre + Join(Bracketed(ids), ", ");
    assert pre + RefList(ids) == s + ", ";
    assert (s + ", ")[..|s + ", "| - 2] == s;
  }

  // ---------------------------------------------------------------------
  // The rights holders

  function Ids(hs: seq<Citable>): (ids: seq<string>)
    ensures |ids| == |hs| && forall i :: 0 <= i < |hs| ==> ids[i] == hs[i].id
  {
    seq(|hs|, i requires 0 <= i < |hs| => hs[i].id)
  }

  /** The fragment a rights holder is seeded with. */
  function AgentHeader(id: string): string {
    "<" + id + "> a foaf:Agent ;"
  }

  function AssertionBlock(id: string, index: nat): string {
    "\nfibra:qualifiedAssertion [\n  rdf:predicate dcterms:rightsHolder ;\n  rdf:object <" + id
    + "> ;\n  fibra:order " + NatToDecimal(index) + " ;\n] ;"
  }

  /** The `fibra:qualifiedAssertion` blocks of the first `n` holders, each
      with its index as `fibra:order`. */
  function Assertions(ids: seq<string>, n: nat): string
    requires n <= |ids|
  {
    if n == 0 then "" else Assertions(ids, n - 1) + AssertionBlock(ids[n - 1], n - 1)
  }

  lemma {:induction false} AssertionsEnd(ids: seq<string>, n: nat)
    requires n <= |ids|
    ensures Assertions(ids, n) == [] || EndsStatement(Assertions(ids, n))
  {
    if n > 0 {
      AssertionsEnd(ids, n - 1);
      EndsClose("\nfibra:qualifiedAssertion [\n  rdf:predicate dcterms:rightsHolder ;\n  rdf:object <" + ids[n - 1]
                + "> ;\n  fibra:order " + NatToDecimal(n - 1) + " ;\n]");
      EndsAppend(Assertions(ids, n - 1), AssertionBlock(ids[n - 1], n - 1));
    }
  }

  /** The rights-holder line, and the qualified assertions when there is
      more than one holder. */
  function HolderLine(ids: seq<string>): string {
    "\ndcterms:rightsHolder " + Join(Bracketed(ids), ", ") + " ;"
  }

  function HolderLines(ids: seq<string>): string {
    if ids == [] then ""
    else HolderLine(ids) + (if |ids| > 1 then Assertions(ids, |ids|) else "")
  }

  /** The fragment `Citable.toTurtle` stores for `c`, from the one it found. */
  function CitableText(c: Citable, start: string): string {
    start + (OwnLines(c) + HolderLines(Ids(c.rightsHolders)))
  }

  /** The stored fragment is the one found, extended with statements. */
  lemma CitableTextExtends(c: Citable, start: string)
    ensures Extends(CitableText(c, start), start)
  {
    var ids := Ids(c.rightsHolders);
    OwnLinesEnd(c);
    HolderLinesEnd(ids);
    EndsAppend(OwnLines(c), HolderLines(ids));
    ExtendsAfter(start, OwnLines(c) + HolderLines(ids));
  }

  lemma ExtendsAfter(start: string, tail: string)
    requires EndsStatement(tail)
    ensures Extends(start + tail, start)
  {
    EndsAfter(start, tail);
  }

  lemma EndsAfter(a: string, b: string)
    requires EndsStatement(b)
    ensures EndsStatement(a + b)
  {
    assert (a + b)[|a + b| - 2..] == b[|b| - 2..];
  }

  /** The creation line is always written, so a citable's own lines end
      with a statement. */
  lemma OwnLinesEnd(c: Citable)
    ensures EndsStatement(OwnLines(c))
  {
    LiteralLinesEnd(c.descriptions, "dcterms:description");
    var a := LiteralLines(c.labels, "skos:prefLabel");
    var b := CreatedLine(c.created);
    var d := LiteralLines(c.descriptions, "dcterms:description");
    var e := HomepageLine(c.url);
    CreatedLineEnds(c.created);
    HomepageLineEnds(c.url);
    EndsAfter(a, b);
    EndsAppend(a + b, d);
    EndsAppend(a + b + d, e);
  }

  lemma CreatedLineEnds(created: string)
    ensures EndsStatement(CreatedLine(created))
  {
    EndsClose("\ndcterms:created \"" + created + "\"^^xsd:dateTime");
  }

  lemma HomepageLineEnds(url: Option<string>)
    ensures HomepageLine(url) == [] || EndsStatement(HomepageLine(url))
  {
    if Truthy(url) {
      EndsClose("\nfoaf:homepage <" + url.value + ">");
    }
  }

  lemma HolderLinesEnd(ids: seq<string>)
    ensures HolderLines(ids) == [] || EndsStatement(HolderLines(ids))
  {
    if ids != [] {
      EndsClose("\ndcterms:rightsHolder " + Join(Bracketed(ids), ", "));
      AssertionsEnd(ids, |ids|);
      EndsAppend(HolderLine(ids), if |ids| > 1 then Assertions(ids, |ids|) else "");
    }
  }

  // ---------------------------------------------------------------------
  // The fragments written

  /** The fragments after `Citable.toTurtle(c, tb)`: the holders are handled
      first, then the fragment of `c` is written. */
  function Serialise(c: Citable, frags: Dict<string>): Dict<string> {
    SerialiseWith(c, frags, CitableText)
  }

  /** The holders handled, then the fragment of `c` written by `write`. */
  function SerialiseWith(c: Citable, frags: Dict<string>, write: (Citable, string) -> string): Dict<string> {
    HoldersRun(c, |c.rightsHolders|, frags, write).frags.Set(c.id, write(c, JsText(frags.Get(c.id))))
  }

  /** Where handling the holders has got to: the fragments so far and the
      ids whose `toTurtle` has run, in the order the calls started. */
  datatype Progress = Progress(frags: Dict<string>, calls: seq<string>)

  /** The first `n` holders of `c` handled in turn: a holder with a fragment
      already is left alone; any other is seeded as an agent, its own
      holders are handled, and its fragment is written, `write` giving it
      from the one found (`CitableText` for `Citable.toTurtle`; the walk's
      bookkeeping does not depend on the text). */
  function HoldersRun(c: Citable, n: nat, frags: Dict<string>, write: (Citable, string) -> string): Progress
    requires n <= |c.rightsHolders|
    decreases c, n
  {
    if n == 0 then Progress(frags, [])
    else
      var before := HoldersRun(c, n - 1, frags, write);
      var rh := c.rightsHolders[n - 1];
      if rh.id in before.frags.entries then before
      else
        var header := AgentHeader(rh.id);
        var inner := HoldersRun(rh, |rh.rightsHolders|, before.frags.Set(rh.id, header), write);
        Progress(inner.frags.Set(rh.id, write(rh, header)), before.calls + [rh.id] + inner.calls)
  }

  /** Handling holders never changes a fragment that was there. */
  lemma {:induction false} HoldersPreserve(c: Citable, n: nat, frags: Dict<string>, write: (Citable, string) -> string)
    requires n <= |c.rightsHolders|
    ensures var r := HoldersRun(c, n, frags, write).frags;
            forall k :: k in frags.entries ==> k in r.entries && r.entries[k] == frags.entries[k]
    decreases c, n
  {
    if n > 0 {
      HoldersPreserve(c, n - 1, frags, write);
      var before := HoldersRun(c, n - 1, frags, write);
      var rh := c.rightsHolders[n - 1];
      if rh.id !in before.frags.entries {
        var d1 := before.frags.Set(rh.id, AgentHeader(rh.id));
        HoldersPreserve(rh, |rh.rightsHolders|, d1, write);
        var inner := HoldersRun(rh, |rh.rightsHolders|, d1, write).frags;
        forall k | k in frags.entries
          ensures k != rh.id && k in inner.entries && inner.entries[k] == frags.entries[k]
        {
          assert k in before.frags.entries && d1.entries[k] == before.frags.entries[k];
        }
      }
    }
  }

  /** Handling holders adds one fragment per holder call, after the existing
      ones. */
  lemma {:induction false} HoldersKeys(c: Citable, n: nat, frags: Dict<string>, write: (Citable, string) -> string)
    requires n <= |c.rightsHolders|
    ensures var run := HoldersRun(c, n, frags, write);
            run.frags.keys == frags.keys + run.calls
    decreases c, n, 1
  {
    if n > 0 {
      HoldersKeys(c, n - 1, frags, write);
      var before := HoldersRun(c, n - 1, frags, write);
      if c.rightsHolders[n - 1].id !in before.frags.entries {
        KeysFresh(c, n, frags, write);
      }
    }
  }

  /** The step of `HoldersKeys` for a holder that is written. */
  lemma {:induction false} KeysFresh(c: Citable, n: nat, frags: Dict<string>, write: (Citable, string) -> string)
    requires 0 < n <= |c.rightsHolders|
    requires var before := HoldersRun(c, n - 1, frags, write);
             c.rightsHolders[n - 1].id !in before.frags.entries && before.frags.keys == frags.keys + before.calls
    ensures var run := HoldersRun(c, n, frags, write);
            run.frags.keys == frags.keys + run.calls
    decreases c, n, 0
  {
    var before := HoldersRun(c, n - 1, frags, write);
    var rh := c.rightsHolders[n - 1];
    var d1 := before.frags.Set(rh.id, AgentHeader(rh.id));
    HoldersKeys(rh, |rh.rightsHolders|, d1, write);
    HoldersPreserve(rh, |rh.rightsHolders|, d1, write);
    var inner := HoldersRun(rh, |rh.rightsHolders|, d1, write);
    var last := inner.frags.Set(rh.id, write(rh, AgentHeader(rh.id)));
    assert rh.id in inner.frags.entries;
    assert HoldersRun(c, n, frags, write) == Progress(last, before.calls + [rh.id] + inner.calls);
    calc {
      last.keys;
      inner.frags.keys;
      d1.keys + inner.calls;
      frags.keys + before.calls + [rh.id] + inner.calls;
      { CallsAssoc(frags.keys, before.calls, rh.id, inner.calls); }
      frags.keys + (before.calls + [rh.id] + inner.calls);
    }
  }

  lemma CallsAssoc(a: seq<string>, b: seq<string>, x: string, d: seq<string>)
    ensures a + b + [x] + d == a + (b + [x] + d)
  {
  }

  /** Handling holders keeps the fragments a proper map. */
  lemma {:induction false} HoldersValid(c: Citable, n: nat, frags: Dict<string>, write: (Citable, string) -> string)
    requires n <= |c.rightsHolders| && frags.Valid()
    ensures HoldersRun(c, n, frags, write).frags.Valid()
    decreases c, n
  {
    if n > 0 {
      HoldersValid(c, n - 1, frags, write);
      var before := HoldersRun(c, n - 1, frags, write);
      var rh := c.rightsHolders[n - 1];
      if rh.id !in before.frags.entries {
        var d1 := before.frags.Set(rh.id, AgentHeader(rh.id));
        before.frags.SetKeepsValid(rh.id, AgentHeader(rh.id));
        HoldersValid(rh, |rh.rightsHolders|, d1, write);
        var inner := HoldersRun(rh, |rh.rightsHolders|, d1, write);
        inner.frags.SetKeepsValid(rh.id, write(rh, AgentHeader(rh.id)));
      }
    }
  }

  /** Every holder whose `toTurtle` has run is its agent header extended
      with statements. */
  ghost predicate AllWritten(run: Progress) {
    forall k :: k in run.calls ==> k in run.frags.entries && Extends(run.frags.entries[k], AgentHeader(k))
  }

  /** Every holder written is its agent header extended with statements. */
  lemma {:induction false} HoldersExtend(c: Citable, n: nat, frags: Dict<string>, write: (Citable, string) -> string)
    requires n <= |c.rightsHolders| && frags.Valid()
    requires WritesStatements(write)
    ensures AllWritten(HoldersRun(c, n, frags, write))
    decreases c, n, 1
  {
    if n > 0 {
      HoldersExtend(c, n - 1, frags, write);
      var before := HoldersRun(c, n - 1, frags, write);
      if c.rightsHolders[n - 1].id !in before.frags.entries {
        ExtendFresh(c, n, frags, write);
      }
    }
  }

  /** The step of `HoldersExtend` for a holder that is written. */
  lemma {:induction false} ExtendFresh(c: Citable, n: nat, frags: Dict<string>, write: (Citable, string) -> string)
    requires 0 < n <= |c.rightsHolders| && frags.Valid()
    requires WritesStatements(write)
    requires var before := HoldersRun(c, n - 1, frags, write);
             c.rightsHolders[n - 1].id !in before.frags.entries && AllWritten(before)
    ensures AllWritten(HoldersRun(c, n, frags, write))
    decreases c, n, 0
  {
    var before := HoldersRun(c, n - 1, frags, write);
    var rh := c.rightsHolders[n - 1];
    var header := AgentHeader(rh.id);
    var d1 := before.frags.Set(rh.id, header);
    HoldersValid(c, n - 1, frags, write);
    before.frags.SetKeepsValid(rh.id, header);
    HoldersExtend(rh, |rh.rightsHolders|, d1, write);
    VisitSeparates(rh, d1, write);
    HoldersPreserve(rh, |rh.rightsHolders|, d1, write);
    var inner := HoldersRun(rh, |rh.rightsHolders|, d1, write);
    var last := inner.frags.Set(rh.id, write(rh, header));
    WrittenCarried(before.frags, d1, before.calls);
    WrittenCarried(d1, inner.frags, before.calls);
    WrittenSet(inner.frags, before.calls, rh.id, write(rh, header));
    WrittenSet(inner.frags, inner.calls, rh.id, write(rh, header));
    assert Extends(last.entries[rh.id], AgentHeader(rh.id));
    WrittenJoin(last, before.calls, rh.id, inner.calls);
    assert HoldersRun(c, n, frags, write) == Progress(last, before.calls + [rh.id] + inner.calls);
  }

  /** Holders written in `d` stay written in a `e` that keeps every entry
      of `d`. */
  lemma WrittenCarried(d: Dict<string>, e: Dict<string>, calls: seq<string>)
    requires forall k :: k in calls ==> k in d.entries && Extends(d.entries[k], AgentHeader(k))
    requires forall k :: k in d.entries ==> k in e.entries && e.entries[k] == d.entries[k]
    ensures forall k :: k in calls ==> k in e.entries && Extends(e.entries[k], AgentHeader(k))
  {
  }

  /** Setting a key none of the holders has keeps them written. */
  lemma WrittenSet(d: Dict<string>, calls: seq<string>, id: string, v: string)
    requires forall k :: k in calls ==> k in d.entries && Extends(d.entries[k], AgentHeader(k))
    requires id !in calls
    ensures var e := d.Set(id, v);
            forall k :: k in calls ==> k in e.entries && Extends(e.entries[k], AgentHeader(k))
  {
  }

  lemma WrittenJoin(d: Dict<string>, a: seq<string>, id: string, b: seq<string>)
    requires forall k :: k in a ==> k in d.entries && Extends(d.entries[k], AgentHeader(k))
    requires forall k :: k in b ==> k in d.entries && Extends(d.entries[k], AgentHeader(k))
    requires id in d.entries && Extends(d.entries[id], AgentHeader(id))
    ensures forall k :: k in a + [id] + b ==> k in d.entries && Extends(d.entries[k], AgentHeader(k))
  {
  }

  /** The holders written below a freshly seeded holder are not that holder. */
  lemma VisitSeparates(rh: Citable, d1: Dict<string>, write: (Citable, string) -> string)
    requires d1.Valid() && rh.id in d1.entries
    ensures forall k :: k in HoldersRun(rh, |rh.rightsHolders|, d1, write).calls ==> k != rh.id
  {
    HoldersKeys(rh, |rh.rightsHolders|, d1, write);
    HoldersValid(rh, |rh.rightsHolders|, d1, write);
    var inner := HoldersRun(rh, |rh.rightsHolders|, d1, write);
    assert NoDuplicates(d1.keys + inner.calls);
    DistinctParts(d1.keys, inner.calls);
    assert rh.id in d1.keys;
  }

  /** The ids whose `toTurtle` runs while the holders of `c` are handled. */
  function HolderCalls(c: Citable, frags: Dict<string>): seq<string> {
    HoldersRun(c, |c.rightsHolders|, frags, CitableText).calls
  }

  /** `write` extends the fragment it is given with statements. */
  ghost predicate WritesStatements(write: (Citable, string) -> string) {
    forall x, start :: Extends(write(x, start), start)
  }

  lemma CitableTextWrites()
    ensures WritesStatements(CitableText)
  {
    forall x, start
      ensures Extends(CitableText(x, start), start)
    {
      CitableTextExtends(x, start);
    }
  }

  /** After `Citable.toTurtle(c, tb)` the fragments stay a proper map, holding
      the ones there were, the holders written and `c`; the fragment under
      `c.id` is the one found (the text `undefined` when there was none)
      extended with statements. */
  lemma SerialiseOnce(c: Citable, frags: Dict<string>)
    requires frags.Valid()
    ensures var r := Serialise(c, frags);
            && r.Valid()
            && (forall k :: k in r.entries <==> k in frags.entries || k in HolderCalls(c, frags) || k == c.id)
            && r.entries[c.id] == CitableText(c, JsText(frags.Get(c.id)))
            && Extends(r.entries[c.id], JsText(frags.Get(c.id)))
  {
    var n := |c.rightsHolders|;
    HoldersKeys(c, n, frags, CitableText);
    HoldersValid(c, n, frags, CitableText);
    var h := HoldersRun(c, n, frags, CitableText).frags;
    h.SetKeepsValid(c.id, CitableText(c, JsText(frags.Get(c.id))));
    CitableTextExtends(c, JsText(frags.Get(c.id)));
  }

  /** Every holder is written at most once, and only when it had no
      fragment. */
  lemma SerialiseCallsFresh(c: Citable, frags: Dict<string>)
    requires frags.Valid()
    ensures NoDuplicates(HolderCalls(c, frags))
    ensures forall k :: k in HolderCalls(c, frags) ==> k !in frags.entries
  {
    RunCallsFresh(c, |c.rightsHolders|, frags, CitableText);
  }

  lemma RunCallsFresh(c: Citable, n: nat, frags: Dict<string>, write: (Citable, string) -> string)
    requires n <= |c.rightsHolders| && frags.Valid()
    ensures var calls := HoldersRun(c, n, frags, write).calls;
            NoDuplicates(calls) && forall k :: k in calls ==> k !in frags.entries
  {
    HoldersKeys(c, n, frags, write);
    HoldersValid(c, n, frags, write);
    DistinctParts(frags.keys, HoldersRun(c, n, frags, write).calls);
  }

  /** The two parts of a list without repeats have none and share none. */
  lemma DistinctParts(a: seq<string>, b: seq<string>)
    requires NoDuplicates(a + b)
    ensures NoDuplicates(b)
    ensures forall k :: k in b ==> k !in a
  {
    forall i, j | 0 <= i < j < |b|
      ensures b[i] != b[j]
    {
      assert (a + b)[|a| + i] == b[i] && (a + b)[|a| + j] == b[j];
    }
    forall i, j | 0 <= i < |a| && 0 <= j < |b|
      ensures a[i] != b[j]
    {
      assert (a + b)[i] == a[i] && (a + b)[|a| + j] == b[j];
    }
  }

  /** Every holder written, unless it is `c` itself, is its agent header
      extended with statements. */
  lemma SerialiseHolders(c: Citable, frags: Dict<string>)
    requires frags.Valid()
    ensures var r := Serialise(c, frags);
            forall k :: k in HolderCalls(c, frags) && k != c.id ==> k in r.entries && Extends(r.entries[k], AgentHeader(k))
  {
    CitableTextWrites();
    WrittenHolders(c, frags, CitableText);
  }

  /** No fragment that was there changes, except the one of `c`. */
  lemma SerialiseKeeps(c: Citable, frags: Dict<string>)
    ensures var r := Serialise(c, frags);
            forall k :: k in frags.entries && k != c.id ==> k in r.entries && r.entries[k] == frags.entries[k]
  {
    HoldersPreserve(c, |c.rightsHolders|, frags, CitableText);
  }

  lemma WrittenHolders(c: Citable, frags: Dict<string>, write: (Citable, string) -> string)
    requires frags.Valid()
    requires WritesStatements(write)
    ensures var run := HoldersRun(c, |c.rightsHolders|, frags, write);
            var r := SerialiseWith(c, frags, write);
            forall k :: k in run.calls && k != c.id ==> k in r.entries && Extends(r.entries[k], AgentHeader(k))
  {
    HoldersExtend(c, |c.rightsHolders|, frags, write);
  }

  /** `Citable.toTurtle(c, tb)`. */
  method CitableToTurtle(c: Citable, tb: TurtleBuilder)
    modifies tb
    ensures tb.prefixes == CitablePrefixes(old(tb.prefixes))
    ensures tb.fragmentsById == Serialise(c, old(tb.fragmentsById))
    decreases c, 3
  {
    ghost var frags := tb.fragmentsById;
    ghost var q := tb.prefixes;
    tb.prefixes := tb.prefixes.Set("skos", SkosNs);
    tb.prefixes := tb.prefixes.Set("dcterms", DctermsNs);
    tb.prefixes := tb.prefixes.Set("foaf", FoafNs);
    tb.prefixes := tb.prefixes.Set("fibra", FibraNs);
    tb.prefixes := tb.prefixes.Set("rdf", RdfNs);
    tb.prefixes := tb.prefixes.Set("xsd", XsdNs);
    var f := JsText(tb.fragmentsById.Get(c.id));
    ghost var start := f;
    f := AppendOwnLines(f, c);
    var ids := Ids(c.rightsHolders);
    if |c.rightsHolders| > 0 {
      f := WriteHolders(c, tb, f, q);
    } else {
      assert f + HolderLines(ids) == f;
    }
    AppendTwo(start, OwnLines(c), HolderLines(ids));
    tb.fragmentsById := tb.fragmentsById.Set(c.id, f);
  }

  /** The label, creation, description and homepage lines appended. */
  method AppendOwnLines(f: string, c: Citable) returns (g: string)
    ensures g == f + OwnLines(c)
  {
    g := AppendLiterals(f, c.labels, "skos:prefLabel");
    g := g + CreatedLine(c.created);
    g := AppendLiterals(g, c.descriptions, "dcterms:description");
    if Truthy(c.url) {
      g := g + HomepageText(c.url.value);
    }
    AppendFour(f, LiteralLines(c.labels, "skos:prefLabel"), CreatedLine(c.created),
               LiteralLines(c.descriptions, "dcterms:description"), HomepageLine(c.url));
  }

  lemma TakeOneMore(s: seq<string>, i: nat)
    requires i < |s|
    ensures s[..i + 1] == s[..i] + [s[i]]
  {
  }

  lemma AppendTwo(f: string, a: string, b: string)
    ensures f + a + b == f + (a + b)
  {
  }

  lemma AppendThree(f: string, a: string, b: string, d: string)
    ensures f + a + b + d == f + (a + b + d)
  {
  }

  lemma AppendFour(f: string, a: string, b: string, d: string, e: string)
    ensures f + a + b + d + e == f + (a + b + d + e)
  {
  }

  /** The rights-holder part of `Citable.toTurtle`: the list of references,
      with every holder that has no fragment yet seeded as an agent and
      written, then the qualified assertions when there is more than one
      holder. */
  method WriteHolders(c: Citable, tb: TurtleBuilder, f: string, ghost q: Dict<string>) returns (g: string)
    requires |c.rightsHolders| > 0
    requires tb.prefixes == CitablePrefixes(q)
    modifies tb
    ensures tb.prefixes == old(tb.prefixes)
    ensures tb.fragmentsById == HoldersRun(c, |c.rightsHolders|, old(tb.fragmentsById), CitableText).frags
    ensures g == f + HolderLines(Ids(c.rightsHolders))
    decreases c, 2
  {
    var refs := ReferenceHolders(c, tb, f + "\ndcterms:rightsHolder ", q);
    g := CloseHolders(f, refs, Ids(c.rightsHolders));
  }

  /** The last `, ` of the references replaced by ` ;`, then the qualified
      assertions when there is more than one holder. */
  method CloseHolders(f: string, refs: string, ids: seq<string>) returns (g: string)
    requires ids != [] && refs == f + "\ndcterms:rightsHolder " + RefList(ids)
    ensures g == f + HolderLines(ids)
  {
    g := DropLastTwo(refs) + " ;";
    CloseHolderLine(f, ids);
    if |ids| > 1 {
      g := AppendAssertions(g, ids);
      AppendTwo(f, HolderLine(ids), Assertions(ids, |ids|));
    } else {
      assert g + "" == g;
    }
  }

  /** The references appended after `dcterms:rightsHolder`, with the last
      `, ` replaced by ` ;`, make the rights-holder line. */
  lemma CloseHolderLine(f: string, ids: seq<string>)
    requires ids != []
    ensures DropLastTwo(f + "\ndcterms:rightsHolder " + RefList(ids)) + " ;" == f + HolderLine(ids)
  {
    CloseRefList(f + "\ndcterms:rightsHolder ", ids);
    AppendThree(f, "\ndcterms:rightsHolder ", Join(Bracketed(ids), ", "), " ;");
  }

  /** The `forEach` over the holders: `<id>, ` per holder, and a holder
      that has no fragment yet is seeded as an agent and written. */
  method ReferenceHolders(c: Citable, tb: TurtleBuilder, f: string, ghost q: Dict<string>) returns (g: string)
    requires tb.prefixes == CitablePrefixes(q)
    modifies tb
    ensures tb.prefixes == old(tb.prefixes)
    ensures tb.fragmentsById == HoldersRun(c, |c.rightsHolders|, old(tb.fragmentsById), CitableText).frags
    ensures g == f + RefList(Ids(c.rightsHolders))
    decreases c, 1
  {
    ghost var frags := tb.fragmentsById;
    var hs := c.rightsHolders;
    var ids := Ids(hs);
    g := f;
    var i := 0;
    while i < |hs|
      invariant 0 <= i <= |hs|
      invariant tb.prefixes == CitablePrefixes(q)
      invariant tb.fragmentsById == HoldersRun(c, i, frags, CitableText).frags
      invariant g == f + RefList(ids[..i])
    {
      g := AppendRef(f, g, ids, i);
      VisitHolder(c, i, tb, q, frags);
      i := i + 1;
    }
    assert ids[..i] == ids;
  }

  /** `<id>, ` appended for the holder at `i`. */
  method AppendRef(f: string, g: string, ids: seq<string>, i: nat) returns (h: string)
    requires i < |ids| && g == f + RefList(ids[..i])
    ensures h == f + RefList(ids[..i + 1])
  {
    h := g + RefItem(ids[i]);
    TakeOneMore(ids, i);
    RefListSnoc(ids[..i], ids[i]);
    AppendTwo(f, RefList(ids[..i]), RefItem(ids[i]));
  }

  /** The holder at `i`: when it has no fragment yet, it is seeded as an
      agent and written. */
  method VisitHolder(c: Citable, i: nat, tb: TurtleBuilder, ghost q: Dict<string>, ghost frags: Dict<string>)
    requires i < |c.rightsHolders|
    requires tb.prefixes == CitablePrefixes(q)
    requires tb.fragmentsById == HoldersRun(c, i, frags, CitableText).frags
    modifies tb
    ensures tb.prefixes == CitablePrefixes(q)
    ensures tb.fragmentsById == HoldersRun(c, i + 1, frags, CitableText).frags
    decreases c, 0
  {
    var rh := c.rightsHolders[i];
    RunStep(c, i, frags, CitableText);
    if !tb.fragmentsById.Has(rh.id) {
      SerialiseSeeded(rh, tb.fragmentsById, CitableText);
      tb.fragmentsById := tb.fragmentsById.Set(rh.id, AgentHeader(rh.id));
      CitableToTurtle(rh, tb);
      CitablePrefixesTwice(q);
    }
  }

  /** Writing a holder just seeded as an agent extends its agent header. */
  lemma SerialiseSeeded(rh: Citable, d: Dict<string>, write: (Citable, string) -> string)
    ensures var d1 := d.Set(rh.id, AgentHeader(rh.id));
            SerialiseWith(rh, d1, write) == HoldersRun(rh, |rh.rightsHolders|, d1, write).frags.Set(rh.id, write(rh, AgentHeader(rh.id)))
  {
    assert d.Set(rh.id, AgentHeader(rh.id)).Get(rh.id) == Some(AgentHeader(rh.id));
  }

  /** One more holder handled. */
  lemma RunStep(c: Citable, i: nat, frags: Dict<string>, write: (Citable, string) -> string)
    requires i < |c.rightsHolders|
    ensures var before := HoldersRun(c, i, frags, write).frags;
            var rh := c.rightsHolders[i];
            var d1 := before.Set(rh.id, AgentHeader(rh.id));
            HoldersRun(c, i + 1, frags, write).frags ==
              if rh.id in before.entries then before
              else HoldersRun(rh, |rh.rightsHolders|, d1, write).frags.Set(rh.id, write(rh, AgentHeader(rh.id)))
  {
  }

  /** The `each` loop over labels or descriptions. */
  method AppendLiterals(f: string, ls: seq<Literal>, predicateName: string) returns (g: string)
    ensures g == f + LiteralLines(ls, predicateName)
  {
    g := f;
    var i := 0;
    while i < |ls|
      invariant 0 <= i <= |ls|
      invariant g == f + LiteralLines(ls[..i], predicateName)
    {
      var l := ls[i];
      if l.value != "" {
        g := g + LiteralText(l, predicateName);
      }
      LiteralLinesStep(ls, i, predicateName);
      AppendTwo(f, LiteralLines(ls[..i], predicateName), LiteralLine(l, predicateName));
      i := i + 1;
    }
    assert ls[..i] == ls;
  }

  lemma LiteralLinesStep(ls: seq<Literal>, i: nat, predicateName: string)
    requires i < |ls|
    ensures LiteralLines(ls[..i + 1], predicateName) == LiteralLines(ls[..i], predicateName) + LiteralLine(ls[i], predicateName)
  {
    assert ls[..i + 1][..i] == ls[..i];
  }

  /** The `forEach` writing one qualified assertion per holder. */
  method AppendAssertions(f: string, ids: seq<string>) returns (g: string)
    ensures g == f + Assertions(ids, |ids|)
  {
    g := f;
    var index := 0;
    while index < |ids|
      invariant 0 <= index <= |ids|
      invariant g == f + Assertions(ids, index)
    {
      g := g + AssertionBlock(ids[index], index);
      AppendTwo(f, Assertions(ids, index), AssertionBlock(ids[index], index));
      index := index + 1;
    }
  }

  // ---------------------------------------------------------------------
  // Joining prefixes and fragments into one document

  function PrefixLine(name: string, ns: string): string {
    "@prefix " + name + ": <" + ns + "> .\n"
  }

  /** The `@prefix` lines of the first `n` prefixes, in key order. */
  function PrefixLines(prefixes: Dict<string>, n: nat): string
    requires prefixes.Valid() && n <= |prefixes.keys|
  {
    if n == 0 then ""
    else PrefixLines(prefixes, n - 1) + PrefixLine(prefixes.keys[n - 1], prefixes.entries[prefixes.keys[n - 1]])
  }

  /** A fragment with its last two characters replaced by ` .` and a blank
      line. */
  function Block(f: string): string {
    DropLastTwo(f) + " .\n\n"
  }

  function Blocks(fs: seq<string>): string {
    if fs == [] then "" else Blocks(fs[..|fs| - 1]) + Block(fs[|fs| - 1])
  }

  /** `toTurtle(prefixes, m)`: the prefix lines, then the fragments in map
      order. */
  function Document(prefixes: Dict<string>, fragments: Dict<string>): string
    requires prefixes.Valid() && fragments.Valid()
  {
    PrefixLines(prefixes, |prefixes.keys|) + Blocks(fragments.Values())
  }

  /** A fragment that ends with a statement is closed by turning its final
      `;` into `.`. */
  lemma BlockClosesStatement(f: string)
    requires EndsStatement(f)
    ensures Block(f) == f[..|f| - 1] + ".\n\n"
  {
    assert f[..|f| - 1] == f[..|f| - 2] + " ";
  }

  /** `toTurtle(prefixes, m)` of the utilities. */
  method ToTurtle(prefixes: Dict<string>, m: Dict<string>) returns (s: string)
    requires prefixes.Valid() && m.Valid()
    ensures s == Document(prefixes, m)
  {
    var head := JoinPrefixes(prefixes);
    var blocks := JoinBlocks(m.Values());
    s := head + blocks;
  }

  /** The `for..in` loop over the prefixes. */
  method JoinPrefixes(prefixes: Dict<string>) returns (s: string)
    requires prefixes.Valid()
    ensures s == PrefixLines(prefixes, |prefixes.keys|)
  {
    s := "";
    var i := 0;
    while i < |prefixes.keys|
      invariant 0 <= i <= |prefixes.keys|
      invariant s == PrefixLines(prefixes, i)
    {
      var key := prefixes.keys[i];
      s := s + PrefixLine(key, prefixes.entries[key]);
      i := i + 1;
    }
  }

  /** The `forEach` over the fragments, each closed as a block. */
  method JoinBlocks(values: seq<string>) returns (s: string)
    ensures s == Blocks(values)
  {
    s := "";
    var j := 0;
    while j < |values|
      invariant 0 <= j <= |values|
      invariant s == Blocks(values[..j])
    {
      s := s + Block(values[j]);
      assert values[..j + 1][..j] == values[..j];
      j := j + 1;
    }
    assert values[..j] == values;
  }

  /** `citableToTurtle(c)`: a fresh builder, `c` written into it, the whole
      joined. */
  method CitableDocument(c: Citable) returns (s: string)
    ensures CitablePrefixes(Empty()).Valid() && Serialise(c, Empty()).Valid()
    ensures s == Document(CitablePrefixes(Empty()), Serialise(c, Empty()))
  {
    var tb := new TurtleBuilder();
    CitableToTurtle(c, tb);
    CitablePrefixesValid(Empty());
    SerialiseOnce(c, Empty());
    s := ToTurtle(tb.prefixes, tb.fragmentsById);
  }

  /** The six `@prefix` lines of a citable, in the order they are set. */
  const CitablePrefixHead: string :=
    PrefixLine("skos", SkosNs) + PrefixLine("dcterms", DctermsNs) + PrefixLine("foaf", FoafNs)
    + PrefixLine("fibra", FibraNs) + PrefixLine("rdf", RdfNs) + PrefixLine("xsd", XsdNs)

  lemma CitablePrefixLines()
    ensures CitablePrefixes(Empty()).Valid()
    ensures PrefixLines(CitablePrefixes(Empty()), |CitablePrefixes(Empty()).keys|) == CitablePrefixHead
  {
    CitablePrefixesValid(Empty());
    CitablePrefixesOrder();
    CitablePrefixesEntries(Empty());
    SixPrefixLines(CitablePrefixes(Empty()));
  }

  /** Any proper map with the six prefixes, in order, gives the six lines. */
  lemma SixPrefixLines(p: Dict<string>)
    requires p.Valid() && p.keys == CitablePrefixNames
    requires var e := p.entries;
             && "skos" in e && e["skos"] == SkosNs && "dcterms" in e && e["dcterms"] == DctermsNs
             && "foaf" in e && e["foaf"] == FoafNs && "fibra" in e && e["fibra"] == FibraNs
             && "rdf" in e && e["rdf"] == RdfNs && "xsd" in e && e["xsd"] == XsdNs
    ensures PrefixLines(p, |p.keys|) == CitablePrefixHead
  {
    assert PrefixLines(p, 1) == PrefixLine("skos", SkosNs);
    assert PrefixLines(p, 2) == PrefixLines(p, 1) + PrefixLine("dcterms", DctermsNs);
    assert PrefixLines(p, 3) == PrefixLines(p, 2) + PrefixLine("foaf", FoafNs);
    assert PrefixLines(p, 4) == PrefixLines(p, 3) + PrefixLine("fibra", FibraNs);
    assert PrefixLines(p, 5) == PrefixLines(p, 4) + PrefixLine("rdf", RdfNs);
    assert PrefixLines(p, 6) == PrefixLines(p, 5) + PrefixLine("xsd", XsdNs);
  }

  /** The fragments of a citable written into an empty builder are runs of
      statements; the citable's own, seeded by nobody, starts with the text
      `undefined`. */
  lemma SerialiseFresh(c: Citable)
    ensures var r := Serialise(c, Empty());
            && r.Valid()
            && (forall k :: k in r.entries ==> EndsStatement(r.entries[k]))
            && Extends(r.entries[c.id], "undefined")
  {
    SerialiseOnce(c, Empty());
    SerialiseHolders(c, Empty());
    assert Empty<string>().Get(c.id) == None;
  }

  /** The document of a single citable starts with the six prefix lines in
      order, and every fragment in it is a run of statements; the citable's
      own fragment starts with the text `undefined`. */
  lemma CitableDocumentShape(c: Citable)
    ensures CitablePrefixes(Empty()).Valid() && Serialise(c, Empty()).Valid()
    ensures var doc := Document(CitablePrefixes(Empty()), Serialise(c, Empty()));
            |CitablePrefixHead| <= |doc| && doc[..|CitablePrefixHead|] == CitablePrefixHead
    ensures var r := Serialise(c, Empty());
            (forall k :: k in r.entries ==> EndsStatement(r.entries[k]))
            && Extends(r.entries[c.id], "undefined")
  {
    CitablePrefixLines();
    SerialiseFresh(c);
    var m := Serialise(c, Empty());
    PrefixOfAppend(CitablePrefixHead, Blocks(m.Values()));
  }

  lemma PrefixOfAppend(a: string, b: string)
    ensures (a + b)[..|a|] == a
  {
  }
}
