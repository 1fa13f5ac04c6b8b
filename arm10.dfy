/**
 * The Analysis Results Metadata 1.0 extension (src/parser/arm.10.ts): result
 * displays, the analysis results of each display, and the analysis datasets
 * of each result, each kept as an ordered map in document order. The mapper
 * is called with a version tag; the 2.0 and 2.1 branches differ only in the
 * document-reference mapper they call.
 */
module Arm10 {
  import opened Base
  import opened Tree
  import opened OrderedMaps
  import opened DefineCore
  import Define20Core
  import Define21Core

  datatype DefineVersion = V20 | V21

  function VersionTag(v: DefineVersion): string {
    if v == V20 then "2.0" else "2.1"
  }

  /** The tag the ARM mapper branches on: "2.0" or "2.1"; any other is an error. */
  function ParseVersion(tag: string): (r: Result<DefineVersion>)
    ensures r.Ok? <==> tag == "2.0" || tag == "2.1"
    ensures r.Ok? ==> VersionTag(r.value) == tag
    ensures r.Err? ==> r.error == Thrown("Unsupported defineVer: " + tag)
  {
    if tag == "2.0" then Ok(V20)
    else if tag == "2.1" then Ok(V21)
    else Err(Thrown("Unsupported defineVer: " + tag))
  }

  /** The document-reference mapper of each version. */
  function DocumentRefs(v: DefineVersion, raw: Option<Node>): Result<seq<DocumentRef>> {
    if v == V20 then Define20Core.ParseDocumentRefs(raw) else Define21Core.ParseDocumentRefs(raw)
  }

  /** The two branches read the same references, the 2.0 one without page titles. */
  lemma DocumentRefsBranches(raw: Option<Node>)
    ensures DocumentRefs(V20, raw) == LiftAll(DocumentRefs(V21, raw), Define21Core.WithoutTitles)
  {
    Define21Core.DocumentRefsVersions(raw);
  }

  // ------------------------------------------------------ analysis datasets

  datatype AnalysisDataset = AnalysisDataset(itemGroupOid: Attr, whereClauseRefs: Option<seq<Attr>>, analysisVariables: Option<seq<Attr>>)

  /** The where-clause references and analysis variables are attached only
      when those children exist, one entry per child: the `whereClauseOid`,
      respectively `itemOid`, attribute of that child. */
  function ParseAnalysisDataset(n: Node): (r: Result<AnalysisDataset>)
    ensures Lookup(n, "$").None? ==> r == Err(TypeError)
    ensures r.Ok? ==> r.value.itemGroupOid == AttrAt(n, "itemGroupOid")
    ensures r.Ok? ==> (r.value.whereClauseRefs.Some? <==> Truthy(Lookup(n, "whereClauseRef")))
                      && (r.value.analysisVariables.Some? <==> Truthy(Lookup(n, "analysisVariable")))
    ensures r.Ok? && r.value.whereClauseRefs.Some? ==>
              Ok(r.value.whereClauseRefs.value) == MapAttr(Lookup(n, "whereClauseRef"), "whereClauseOid")
    ensures r.Ok? && r.value.analysisVariables.Some? ==>
              Ok(r.value.analysisVariables.value) == MapAttr(Lookup(n, "analysisVariable"), "itemOid")
    ensures (Lookup(n, "$").Some? && Truthy(Lookup(n, "whereClauseRef"))
             && MapAttr(Lookup(n, "whereClauseRef"), "whereClauseOid").Err?) ==> r == Err(TypeError)
    ensures (Lookup(n, "$").Some?
             && !(Truthy(Lookup(n, "whereClauseRef")) && MapAttr(Lookup(n, "whereClauseRef"), "whereClauseOid").Err?)
             && Truthy(Lookup(n, "analysisVariable"))
             && MapAttr(Lookup(n, "analysisVariable"), "itemOid").Err?) ==> r == Err(TypeError)
  {
    var itemGroupOid :- AttrOf(n, "itemGroupOid");
    var whereClauseRefs :- WhenPresent(Lookup(n, "whereClauseRef"), v => MapAttr(v, "whereClauseOid"));
    var analysisVariables :- WhenPresent(Lookup(n, "analysisVariable"), v => MapAttr(v, "itemOid"));
    Ok(AnalysisDataset(itemGroupOid, whereClauseRefs, analysisVariables))
  }

  /** The child names an analysis dataset is written with. */
  const AnalysisDatasetChildren := ["$", "whereClauseRef", "analysisVariable"]

  /** A child element carrying one reference in its `name` attribute. */
  function RefElement(name: string, a: Attr): Node {
    BagOnly(Obj(Fields([name], [AttrNode(a)])))
  }

  function RefsNode(name: string, refs: Option<seq<Attr>>): Option<Node> {
    if refs.Some? then Some(Arr(WriteAll(refs.value, a => RefElement(name, a)))) else None
  }

  function AnalysisDatasetElement(d: AnalysisDataset): Node {
    Obj(Fields(AnalysisDatasetChildren, [Some(Obj(Fields(["itemGroupOid"], [AttrNode(d.itemGroupOid)]))),
                                         RefsNode("whereClauseOid", d.whereClauseRefs),
                                         RefsNode("itemOid", d.analysisVariables)]))
  }

  /** The references read back from their child elements are those written. */
  lemma RefsRoundTrip(name: string, refs: seq<Attr>)
    ensures MapAttr(RefsNode(name, Some(refs)), name) == Ok(refs)
  {
    var items := WriteAll(refs, a => RefElement(name, a));
    WriteAllAt(refs, a => RefElement(name, a));
    forall i | 0 <= i < |items| ensures Lookup(items[i], "$").Some? && AttrAt(items[i], name) == refs[i] {
      BagOnlyReads(Obj(Fields([name], [AttrNode(refs[i])])));
      FindFields([name], [AttrNode(refs[i])], 0);
    }
    var r := MapAttr(Some(Arr(items)), name);
    assert r.Ok?;
    assert r.value == refs;
  }

  /** An analysis dataset is read back from the element it is written as. */
  lemma AnalysisDatasetRoundTrip(d: AnalysisDataset)
    ensures ParseAnalysisDataset(AnalysisDatasetElement(d)) == Ok(d)
  {
    var values := [Some(Obj(Fields(["itemGroupOid"], [AttrNode(d.itemGroupOid)]))),
                   RefsNode("whereClauseOid", d.whereClauseRefs), RefsNode("itemOid", d.analysisVariables)];
    FindFields(AnalysisDatasetChildren, values, 0);
    FindFields(AnalysisDatasetChildren, values, 1);
    FindFields(AnalysisDatasetChildren, values, 2);
    FindFields(["itemGroupOid"], [AttrNode(d.itemGroupOid)], 0);
    if d.whereClauseRefs.Some? {
      RefsRoundTrip("whereClauseOid", d.whereClauseRefs.value);
    }
    if d.analysisVariables.Some? {
      RefsRoundTrip("itemOid", d.analysisVariables.value);
    }
  }

  /** Every dataset is filed under its item group OID; none is skipped. */
  function AnalysisDatasetEntry(n: Node): (r: Result<Option<(string, AnalysisDataset)>>)
    ensures ParseAnalysisDataset(n).Err? ==> r == Err(ParseAnalysisDataset(n).error)
    ensures r.Ok? ==> r.value.Some? && r.value.value.0 == Show(r.value.value.1.itemGroupOid)
                      && Ok(r.value.value.1) == ParseAnalysisDataset(n)
  {
    var d :- ParseAnalysisDataset(n);
    Ok(Some((Show(d.itemGroupOid), d)))
  }

  datatype AnalysisDatasets = AnalysisDatasets(datasets: OrderedMap<AnalysisDataset>, commentOid: Attr)

  /** `raw[0].analysisDataset.forEach(...)`, with the comment OID of the
      wrapper only when present: undefined, a missing first element or a
      first element without an `analysisDataset` array is a TypeError. */
  function ParseAnalysisDatasets(raw: Option<Node>): (r: Result<AnalysisDatasets>)
    ensures raw.None? || Index0(raw.value).None? ==> r == Err(TypeError)
    ensures raw.Some? && Index0(raw.value).Some? ==>
              var list := Lookup(Index0(raw.value).value, "analysisDataset");
              && (!(list.Some? && list.value.Arr?) ==> r == Err(TypeError))
              && (list.Some? && list.value.Arr? && Build(list.value.items, AnalysisDatasetEntry).Err? ==>
                    r == Err(Build(list.value.items, AnalysisDatasetEntry).error))
    ensures r.Ok? ==> raw.Some? && Index0(raw.value).Some?
    ensures r.Ok? ==>
              var first := Index0(raw.value).value;
              var list := Lookup(first, "analysisDataset");
              && list.Some? && list.value.Arr?
              && Ok(r.value.datasets) == Build(list.value.items, AnalysisDatasetEntry)
              && r.value.commentOid == IfPresent(AttrAt(first, "commentOid"))
  {
    var first :- At0(raw);
    var list :- Get(first, "analysisDataset");
    var nodes :- AsArray(list);
    var datasets :- Build(nodes, AnalysisDatasetEntry);
    Ok(AnalysisDatasets(datasets, IfPresent(AttrAt(first.value, "commentOid"))))
  }

  /** Datasets are kept in document order, one per element, each under its item group OID. */
  lemma AnalysisDatasetsInOrder(nodes: seq<Node>)
    requires Build(nodes, AnalysisDatasetEntry).Ok?
    ensures var m := Build(nodes, AnalysisDatasetEntry).value;
            && |m.order| == |nodes|
            && forall i :: 0 <= i < |nodes| ==> m.order[i] == Show(ParseAnalysisDataset(nodes[i]).value.itemGroupOid)
  {
    EntriesAllKept(nodes, AnalysisDatasetEntry);
  }

  // ------------------------------------------- documentation and program code

  datatype Documentation = Documentation(description: seq<TranslatedText>, documents: Option<seq<DocumentRef>>)

  /** `raw[0]`'s description, required, and its document references when
      present: undefined, a missing first element or a missing description
      is a TypeError. */
  function ParseDocumentation(v: DefineVersion, raw: Option<Node>): (r: Result<Documentation>)
    ensures raw.None? || Index0(raw.value).None? ==> r == Err(TypeError)
    ensures raw.Some? && Index0(raw.value).Some? && ParseTexts(Lookup(Index0(raw.value).value, "description")).Err? ==>
              r == Err(ParseTexts(Lookup(Index0(raw.value).value, "description")).error)
    ensures raw.Some? && Index0(raw.value).Some? && Lookup(Index0(raw.value).value, "description").None? ==> r == Err(TypeError)
    ensures r.Ok? ==> raw.Some? && Index0(raw.value).Some?
    ensures r.Ok? ==>
              var first := Index0(raw.value).value;
              && Ok(r.value.description) == ParseTexts(Lookup(first, "description"))
              && (r.value.documents.Some? <==> Truthy(Lookup(first, "documentRef")))
              && (r.value.documents.Some? ==> Ok(r.value.documents.value) == DocumentRefs(v, Lookup(first, "documentRef")))
  {
    var first :- At0(raw);
    var description :- Get(first, "description");
    var texts :- ParseTexts(description);
    var documents :- WhenPresent(Lookup(first.value, "documentRef"), d => DocumentRefs(v, d));
    Ok(Documentation(texts, documents))
  }

  /** The documentation as the 2.0 branch reads it: the 2.1 reading without page titles. */
  function DocumentationWithoutTitles(d: Documentation): Documentation {
    match d.documents
    case None => d
    case Some(ds) => d.(documents := Some(seq(|ds|, i requires 0 <= i < |ds| => Define21Core.WithoutTitles(ds[i]))))
  }

  /** The two branches read the same documentation and fail alike; the 2.0
      one drops the page titles. */
  lemma DocumentationBranches(raw: Option<Node>)
    ensures ParseDocumentation(V20, raw) == Lift(ParseDocumentation(V21, raw), DocumentationWithoutTitles)
  {
    if raw.Some? && Index0(raw.value).Some? {
      var refs := Lookup(Index0(raw.value).value, "documentRef");
      DocumentRefsBranches(refs);
      var r21 := ParseDocumentation(V21, raw);
      if r21.Ok? && r21.value.documents.Some? {
        var ds := r21.value.documents.value;
        assert DocumentRefs(V21, refs) == Ok(ds);
        assert LiftAll(Ok(ds), Define21Core.WithoutTitles).value == seq(|ds|, i requires 0 <= i < |ds| => Define21Core.WithoutTitles(ds[i]));
      }
    }
  }

  datatype ProgrammingCode = ProgrammingCode(context: Attr, code: Option<Node>, documents: Option<seq<DocumentRef>>)

  /** The first programming-code element's context and code are read only
      when it has attributes; its document references whenever present. */
  function ParseProgrammingCode(v: DefineVersion, raw: Option<Node>): (r: Result<ProgrammingCode>)
    ensures At0(raw).Ok? && At0(raw).value.None? ==> r == Err(TypeError)
    ensures r.Ok? ==> At0(raw).Ok? && At0(raw).value.Some?
    ensures r.Ok? ==> var first := At0(raw).value.value;
                      && (r.value.context.Some? <==> Truthy(Lookup(first, "$")) && Present(AttrAt(first, "context")))
                      && (r.value.code.Some? <==> Truthy(Lookup(first, "$")) && Truthy(Lookup(first, "code")))
                      && (r.value.code.Some? ==> r.value.code == Lookup(first, "code"))
                      && (r.value.documents.Some? <==> Truthy(Lookup(first, "documentRef")))
    ensures r.Ok? ==> var first := At0(raw).value.value;
                      && (Truthy(Lookup(first, "$")) ==> r.value.context == IfPresent(AttrAt(first, "context")))
                      && (r.value.documents.Some? ==> Ok(r.value.documents.value) == DocumentRefs(v, Lookup(first, "documentRef")))
    ensures At0(raw).Ok? && At0(raw).value.Some? && Truthy(Lookup(At0(raw).value.value, "documentRef"))
            && DocumentRefs(v, Lookup(At0(raw).value.value, "documentRef")).Err? ==>
              r == Err(DocumentRefs(v, Lookup(At0(raw).value.value, "documentRef")).error)
  {
    var first :- At0(raw);
    var withBag := Truthy(first) && Truthy(Lookup(first.value, "$"));
    var context := if withBag then IfPresent(AttrAt(first.value, "context")) else None;
    var code := if withBag && Truthy(Lookup(first.value, "code")) then Lookup(first.value, "code") else None;
    var docRef :- Get(first, "documentRef");
    var documents :- WhenPresent(docRef, d => DocumentRefs(v, d));
    Ok(ProgrammingCode(context, code, documents))
  }

  /** The programming code as the 2.0 branch reads it: the 2.1 reading without page titles. */
  function ProgrammingCodeWithoutTitles(p: ProgrammingCode): ProgrammingCode {
    match p.documents
    case None => p
    case Some(ds) => p.(documents := Some(seq(|ds|, i requires 0 <= i < |ds| => Define21Core.WithoutTitles(ds[i]))))
  }

  /** The two branches read the same programming code and fail alike; the
      2.0 one drops the page titles. */
  lemma ProgrammingCodeBranches(raw: Option<Node>)
    ensures ParseProgrammingCode(V20, raw) == Lift(ParseProgrammingCode(V21, raw), ProgrammingCodeWithoutTitles)
  {
    if raw.Some? && Index0(raw.value).Some? {
      var refs := Lookup(Index0(raw.value).value, "documentRef");
      DocumentRefsBranches(refs);
      var r21 := ParseProgrammingCode(V21, raw);
      if r21.Ok? && r21.value.documents.Some? {
        var ds := r21.value.documents.value;
        assert DocumentRefs(V21, refs) == Ok(ds);
        assert LiftAll(Ok(ds), Define21Core.WithoutTitles).value == seq(|ds|, i requires 0 <= i < |ds| => Define21Core.WithoutTitles(ds[i]));
      }
    }
  }

  // ------------------------------------------------------- analysis results

  datatype AnalysisResult = AnalysisResult(
    oid: Attr,
    parameterOid: Attr,
    analysisReason: Attr,
    analysisPurpose: Attr,
    description: seq<TranslatedText>,
    analysisDatasets: AnalysisDatasets,
    documentation: Option<Documentation>,
    programmingCode: Option<ProgrammingCode>)

  /** The parameter OID is read from the attributes but kept only when the
      element itself has a truthy `parameterOid` key. */
  function ParseAnalysisResult(v: DefineVersion, n: Node): (r: Result<AnalysisResult>)
    ensures Lookup(n, "$").None? ==> r == Err(TypeError)
    ensures r.Ok? ==> r.value.oid == AttrAt(n, "oid")
    ensures r.Ok? ==> r.value.parameterOid == if Truthy(Lookup(n, "parameterOid")) then AttrAt(n, "parameterOid") else None
    ensures r.Ok? ==> && Ok(r.value.description) == ParseTexts(Lookup(n, "description"))
                      && Ok(r.value.analysisDatasets) == ParseAnalysisDatasets(Lookup(n, "analysisDatasets"))
                      && r.value.analysisReason == AttrAt(n, "analysisReason")
                      && r.value.analysisPurpose == AttrAt(n, "analysisPurpose")
    ensures r.Ok? ==> (r.value.documentation.Some? <==> Truthy(Lookup(n, "documentation")))
                      && (r.value.programmingCode.Some? <==> Truthy(Lookup(n, "programmingCode")))
    ensures r.Ok? && r.value.documentation.Some? ==>
              Ok(r.value.documentation.value) == ParseDocumentation(v, Lookup(n, "documentation"))
    ensures r.Ok? && r.value.programmingCode.Some? ==>
              Ok(r.value.programmingCode.value) == ParseProgrammingCode(v, Lookup(n, "programmingCode"))
  {
    var bag :- Attrs(Some(n));
    var description :- ParseTexts(Lookup(n, "description"));
    var datasets :- ParseAnalysisDatasets(Lookup(n, "analysisDatasets"));
    var parameterOid := if Truthy(Lookup(n, "parameterOid")) then AttrIn(bag, "parameterOid") else None;
    var documentation :- WhenPresent(Lookup(n, "documentation"), d => ParseDocumentation(v, d));
    var programmingCode :- WhenPresent(Lookup(n, "programmingCode"), p => ParseProgrammingCode(v, p));
    Ok(AnalysisResult(AttrIn(bag, "oid"), parameterOid, AttrIn(bag, "analysisReason"), AttrIn(bag, "analysisPurpose"),
                      description, datasets, documentation, programmingCode))
  }

  /** An element carrying `parameterOID` as an attribute only, as Define-XML
      documents do, loses its parameter OID. */
  lemma ParameterOidOnlyFromNode(v: DefineVersion, n: Node)
    requires Lookup(n, "parameterOid").None?
    requires ParseAnalysisResult(v, n).Ok?
    ensures ParseAnalysisResult(v, n).value.parameterOid.None?
  {
  }

  /** Every analysis result is the one read from its element, filed under its OID; none is skipped. */
  function AnalysisResultEntry(v: DefineVersion, n: Node): (r: Result<Option<(string, AnalysisResult)>>)
    ensures ParseAnalysisResult(v, n).Err? ==> r == Err(ParseAnalysisResult(v, n).error)
    ensures r.Ok? ==> r.value.Some? && r.value.value.0 == Show(r.value.value.1.oid)
                      && Ok(r.value.value.1) == ParseAnalysisResult(v, n)
  {
    var ar :- ParseAnalysisResult(v, n);
    Ok(Some((Show(ar.oid), ar)))
  }

  /** `raw.forEach(...)` with no guard: a TypeError unless `raw` is an array. */
  function ParseAnalysisResults(v: DefineVersion, raw: Option<Node>): (r: Result<OrderedMap<AnalysisResult>>)
    ensures !(raw.Some? && raw.value.Arr?) ==> r == Err(TypeError)
  {
    var nodes :- AsArray(raw);
    Build(nodes, n => AnalysisResultEntry(v, n))
  }

  // -------------------------------------------------------- result displays

  datatype ResultDisplay = ResultDisplay(
    oid: Attr,
    name: Attr,
    description: seq<TranslatedText>,
    analysisResults: OrderedMap<AnalysisResult>,
    documents: Option<seq<DocumentRef>>)

  /** The analysis results are read first, then the attributes, the required
      description and the document references when present. */
  function ParseResultDisplay(v: DefineVersion, n: Node): (r: Result<ResultDisplay>)
    ensures !(Lookup(n, "analysisResult").Some? && Lookup(n, "analysisResult").value.Arr?) ==> r == Err(TypeError)
    ensures r.Ok? ==> r.value.oid == AttrAt(n, "oid") && r.value.name == AttrAt(n, "name")
    ensures r.Ok? ==> && Ok(r.value.analysisResults) == ParseAnalysisResults(v, Lookup(n, "analysisResult"))
                      && Ok(r.value.description) == ParseTexts(Lookup(n, "description"))
    ensures r.Ok? ==> (r.value.documents.Some? <==> Truthy(Lookup(n, "documentRef")))
    ensures r.Ok? && r.value.documents.Some? ==> Ok(r.value.documents.value) == DocumentRefs(v, Lookup(n, "documentRef"))
  {
    var results :- ParseAnalysisResults(v, Lookup(n, "analysisResult"));
    var bag :- Attrs(Some(n));
    var description :- ParseTexts(Lookup(n, "description"));
    var documents :- WhenPresent(Lookup(n, "documentRef"), d => DocumentRefs(v, d));
    Ok(ResultDisplay(AttrIn(bag, "oid"), AttrIn(bag, "name"), description, results, documents))
  }

  /** Every display is the one read from its element, filed under its OID; none is skipped. */
  function ResultDisplayEntry(v: DefineVersion, n: Node): (r: Result<Option<(string, ResultDisplay)>>)
    ensures ParseResultDisplay(v, n).Err? ==> r == Err(ParseResultDisplay(v, n).error)
    ensures r.Ok? ==> r.value.Some? && r.value.value.0 == Show(r.value.value.1.oid)
                      && Ok(r.value.value.1) == ParseResultDisplay(v, n)
  {
    var d :- ParseResultDisplay(v, n);
    Ok(Some((Show(d.oid), d)))
  }

  function ParseResultDisplays(v: DefineVersion, raw: Option<Node>): (r: Result<OrderedMap<ResultDisplay>>)
    ensures !(raw.Some? && raw.value.Arr?) ==> r == Err(TypeError)
  {
    var nodes :- AsArray(raw);
    Build(nodes, n => ResultDisplayEntry(v, n))
  }

  /** `parseAnalysisResultDisplays(raw, defineVer)`: the tag is checked
      before the input is touched; then `raw[0].resultDisplay` is read. */
  function ParseAnalysisResultDisplays(raw: Option<Node>, tag: string): (r: Result<OrderedMap<ResultDisplay>>)
    ensures tag != "2.0" && tag != "2.1" ==> r == Err(Thrown("Unsupported defineVer: " + tag))
    ensures (tag == "2.0" || tag == "2.1") && (raw.None? || Index0(raw.value).None?) ==> r == Err(TypeError)
    ensures (tag == "2.0" || tag == "2.1") && raw.Some? && Index0(raw.value).Some? ==>
              r == ParseResultDisplays(ParseVersion(tag).value, Lookup(Index0(raw.value).value, "resultDisplay"))
  {
    var v :- ParseVersion(tag);
    var first :- At0(raw);
    var displays :- Get(first, "resultDisplay");
    ParseResultDisplays(v, displays)
  }

  /** Every display is filed under its own OID. */
  lemma ResultDisplaysFiledByOid(v: DefineVersion, nodes: seq<Node>)
    requires Build(nodes, n => ResultDisplayEntry(v, n)).Ok?
    ensures var m := Build(nodes, n => ResultDisplayEntry(v, n)).value;
            forall k :: k in m.entries ==> Show(m.entries[k].oid) == k
  {
    var entry := n => ResultDisplayEntry(v, n);
    var P := (k: string, d: ResultDisplay) => Show(d.oid) == k;
    EntriesAll(nodes, entry, P);
    FromPairsAll(Entries(nodes, entry).value, P);
  }

  /** Every display read from an `AnalysisResultDisplays` element is filed
      under its own OID, and so is every analysis result of each display. */
  lemma AnalysisResultDisplaysFiledByOid(raw: Option<Node>, tag: string)
    requires ParseAnalysisResultDisplays(raw, tag).Ok?
    ensures var m := ParseAnalysisResultDisplays(raw, tag).value;
            && (forall k :: k in m.entries ==> Show(m.entries[k].oid) == k)
            && (forall k, j :: k in m.entries && j in m.entries[k].analysisResults.entries ==>
                  Show(m.entries[k].analysisResults.entries[j].oid) == j)
  {
    var v := ParseVersion(tag).value;
    var list := Lookup(Index0(raw.value).value, "resultDisplay");
    var nodes := list.value.items;
    ResultDisplaysFiledByOid(v, nodes);
    var entry := n => ResultDisplayEntry(v, n);
    var P := (k: string, d: ResultDisplay) => forall j :: j in d.analysisResults.entries ==> Show(d.analysisResults.entries[j].oid) == j;
    forall n | entry(n).Ok? && entry(n).value.Some?
      ensures P(entry(n).value.value.0, entry(n).value.value.1)
    {
      AnalysisResultsFiledByOid(v, Lookup(n, "analysisResult").value.items);
    }
    EntriesAll(nodes, entry, P);
    FromPairsAll(Entries(nodes, entry).value, P);
  }

  /** Every analysis result of a display is filed under its own OID. */
  lemma AnalysisResultsFiledByOid(v: DefineVersion, nodes: seq<Node>)
    requires Build(nodes, n => AnalysisResultEntry(v, n)).Ok?
    ensures var m := Build(nodes, n => AnalysisResultEntry(v, n)).value;
            forall k :: k in m.entries ==> Show(m.entries[k].oid) == k
  {
    var entry := n => AnalysisResultEntry(v, n);
    var P := (k: string, a: AnalysisResult) => Show(a.oid) == k;
    EntriesAll(nodes, entry, P);
    FromPairsAll(Entries(nodes, entry).value, P);
  }

  /** Every analysis dataset of a result is filed under its item group OID. */
  lemma AnalysisDatasetsFiledByOid(nodes: seq<Node>)
    requires Build(nodes, AnalysisDatasetEntry).Ok?
    ensures var m := Build(nodes, AnalysisDatasetEntry).value;
            forall k :: k in m.entries ==> Show(m.entries[k].itemGroupOid) == k
  {
    var P := (k: string, d: AnalysisDataset) => Show(d.itemGroupOid) == k;
    EntriesAll(nodes, AnalysisDatasetEntry, P);
    FromPairsAll(Entries(nodes, AnalysisDatasetEntry).value, P);
  }
}
