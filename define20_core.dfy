/**
 * Document and PDF page references as Define-XML 2.0 reads them
 * (src/parser/define.20.core.ts). A 2.0 page reference has no title.
 */
module Define20Core {
  import opened Base
  import opened Tree
  import opened DefineCore

  function ParsePdfPageRef(ref: Node): (r: Result<PdfPageRef>)
    ensures r.Err? <==> Lookup(ref, "$").None?
    ensures r.Ok? ==> r.value.title.None?
    ensures r.Ok? ==> r.value.kind == AttrAt(ref, "type") && r.value.pageRefs == AttrAt(ref, "pageRefs")
    ensures r.Ok? ==> (r.value.firstPage.Some? <==> Present(AttrAt(ref, "firstPage")))
                      && (r.value.lastPage.Some? <==> Present(AttrAt(ref, "lastPage")))
  {
    var bag :- Attrs(Some(ref));
    Ok(PdfPageRef(AttrIn(bag, "type"), AttrIn(bag, "pageRefs"),
                  OptionalNumber(AttrIn(bag, "firstPage")), OptionalNumber(AttrIn(bag, "lastPage")), None))
  }

  function ParsePdfPageRefs(raw: Option<Node>): (r: Result<seq<PdfPageRef>>)
    ensures !Truthy(raw) ==> r == Ok([])
    ensures r.Ok? ==> forall i :: 0 <= i < |r.value| ==> r.value[i].title.None?
  {
    MapIfPresent(raw, ParsePdfPageRef)
  }

  function ParseDocumentRefs(raw: Option<Node>): (r: Result<seq<DocumentRef>>)
    ensures !Truthy(raw) ==> r == Ok([])
    ensures Truthy(raw) && !raw.value.Arr? ==> r == Err(TypeError)
  {
    ParseDocumentRefsWith(raw, ParsePdfPageRef)
  }

  const PageAttrs := ["type", "pageRefs", "firstPage", "lastPage"]

  function PdfPageRefElement(p: PdfPageRef): Node {
    BagOnly(Obj(Fields(PageAttrs, [AttrNode(p.kind), AttrNode(p.pageRefs), AttrNode(NumberAttr(p.firstPage)),
                                   AttrNode(NumberAttr(p.lastPage))])))
  }

  predicate PageWritable(p: PdfPageRef) {
    NumberWritable(p.firstPage) && NumberWritable(p.lastPage) && p.title.None?
  }

  lemma PdfPageRefRoundTrip(p: PdfPageRef)
    requires PageWritable(p)
    ensures ParsePdfPageRef(PdfPageRefElement(p)) == Ok(p)
  {
    var values := [AttrNode(p.kind), AttrNode(p.pageRefs), AttrNode(NumberAttr(p.firstPage)), AttrNode(NumberAttr(p.lastPage))];
    BagOnlyReads(Obj(Fields(PageAttrs, values)));
    FindFields(PageAttrs, values, 0);
    FindFields(PageAttrs, values, 1);
    FindFields(PageAttrs, values, 2);
    FindFields(PageAttrs, values, 3);
    OptionalNumberRoundTrip(p.firstPage);
    OptionalNumberRoundTrip(p.lastPage);
  }

  /** Document references with writable page references are read back as
      written. */
  lemma DocumentRefsRoundTrip(ds: seq<DocumentRef>)
    requires forall i :: 0 <= i < |ds| ==> DocumentRefWritable(ds[i], PageWritable)
    ensures ParseDocumentRefs(Some(Arr(WriteAll(ds, d => DocumentRefElement(d, PdfPageRefElement))))) == Ok(ds)
  {
    forall p | PageWritable(p) ensures ParsePdfPageRef(PdfPageRefElement(p)) == Ok(p) {
      PdfPageRefRoundTrip(p);
    }
    DocumentRefsRoundTripWith(ds, PdfPageRefElement, ParsePdfPageRef, PageWritable);
  }
}
