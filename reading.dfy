/**
 * The steps every version parser takes before it maps the ODM element:
 * the prolog read from the document's first lines, the outcome of the XML
 * reader, key normalisation and the guard that demands an ODM root.
 */
module Reading {
  import opened Base
  import opened Tree
  import opened Names

  /** What the parser reads from the XML declaration and the stylesheet
      processing instruction (`xml.version`, `xml.encoding`,
      `styleSheet.type`, `styleSheet.href`); each is absent when its
      pattern does not match. */
  datatype Prolog = Prolog(xmlVersion: Attr, xmlEncoding: Attr, styleSheetType: Attr, styleSheetHref: Attr)

  /** The outcome of reading the XML text into a tree: the tree with
      attributes under `$` and elements as arrays, or the reader's message. */
  datatype ReadOutcome = Read(tree: Node) | ReadFailed(message: string)

  const MissingOdm: string := "Invalid Define-XML structure: missing ODM root element"

  function ReadError(message: string): string {
    "XML parsing failed: " + message
  }

  /** The ODM element of the normalised tree, or the error the parser
      throws: a failed read is reported with the reader's message, a tree
      whose normalised form has no truthy `odm` with `MissingOdm`. */
  function OdmRoot(read: ReadOutcome): (r: Result<Node>)
    ensures read.ReadFailed? ==> r == Err(Thrown(ReadError(read.message)))
    ensures read.Read? ==> (r.Ok? <==> Truthy(Lookup(Normalize(read.tree), "odm")))
    ensures read.Read? && r.Ok? ==> Some(r.value) == Lookup(Normalize(read.tree), "odm")
    ensures read.Read? && r.Err? ==> r.error == Thrown(MissingOdm)
  {
    match read
    case ReadFailed(message) => Err(Thrown(ReadError(message)))
    case Read(tree) =>
      var updated := Normalize(tree);
      var odm := Lookup(updated, "odm");
      if !Truthy(odm) then Err(Thrown(MissingOdm)) else Ok(odm.value)
  }

  /** A document whose root element is `ODM` yields that element, with its
      own keys normalised. */
  lemma OdmRootFound(odm: Node)
    requires Normalize(odm) != Str("")
    ensures OdmRoot(Read(Obj([("ODM", odm)]))) == Ok(Normalize(odm))
  {
    CamelKeyExamplesAllCaps();
    assert StripKey("ODM") == "ODM";
    NormalizeInPlace([("ODM", odm)]);
  }

  /** A document whose root element is not `ODM` after normalisation is
      rejected with `MissingOdm`. */
  lemma OdmRootMissing(name: string, root: Node)
    requires CamelKey(StripKey(name)) != "odm"
    ensures OdmRoot(Read(Obj([(name, root)]))) == Err(Thrown(MissingOdm))
  {
    NormalizeInPlace([(name, root)]);
    var n := Normalize(Obj([(name, root)]));
    assert n.Obj? && |n.fields| == 1 && n.fields[0].0 != "odm";
    assert n.fields[1..] == [];
    assert Find(n.fields, "odm") == None;
    assert Lookup(n, "odm") == None;
  }
}
