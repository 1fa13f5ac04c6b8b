/**
 * Document and PDF page references as Define-XML 2.1 reads them
 * (src/parser/define.21.core.ts): as in 2.0, with a page reference's
 * `title` kept when present.
 */
module Define21Core {
  import opened Base
  import opened Tree
  import opened DefineCore
  import Define20Core

  function ParsePdfPageRef(ref: Node): (r: Result<PdfPageRef>)
    ensures r.Err? <==> Lookup(ref, "$").None?
    ensures r.Ok? ==> r.value.title == IfPresent(AttrAt(ref, "title"))
    ensures r.Ok? ==> r.value.kind == AttrAt(ref, "type") && r.value.pageRefs == AttrAt(ref, "pageRefs")
    ensures r.Ok? ==> (r.value.firstPage.Some? <==> Present(AttrAt(ref, "firstPage")))
                      && (r.value.lastPage.Some? <==> Present(AttrAt(ref, "lastPage")))
  {
    var bag :- Attrs(Some(ref));
    Ok(PdfPageRef(AttrIn(bag, "type"), AttrIn(bag, "pageRefs"),
                  OptionalNumber(AttrIn(bag, "firstPage")), OptionalNumber(AttrIn(bag, "lastPage")),
                  IfPresent(AttrIn(bag, "title"))))
  }

  function ParseDocumentRefs(raw: Option<Node>): (r: Result<seq<DocumentRef>>)
    ensures !Truthy(raw) ==> r == Ok([])
    ensures Truthy(raw) && !raw.value.Arr? ==> r == Err(TypeError)
  {
    ParseDocumentRefsWith(raw, ParsePdfPageRef)
  }

  const PageAttrs := ["type", "pageRefs", "firstPage", "lastPage", "title"]

  function PdfPageRefElement(p: PdfPageRef): Node {
    BagOnly(Obj(Fields(PageAttrs, [AttrNode(p.kind), AttrNode(p.pageRefs), AttrNode(NumberAttr(p.firstPage)),
                                   AttrNode(NumberAttr(p.lastPage)), AttrNode(p.title)])))
  }

  predicate PageWritable(p: PdfPageRef) {
    NumberWritable(p.firstPage) && NumberWritable(p.lastPage) && Kept(p.title)
  }

  lemma PdfPageRefRoundTrip(p: PdfPageRef)
    requires PageWritable(p)
    ensures ParsePdfPageRef(PdfPageRefElement(p)) == Ok(p)
  {
    var values := [AttrNode(p.kind), AttrNode(p.pageRefs), AttrNode(NumberAttr(p.firstPage)), AttrNode(NumberAttr(p.lastPage)),
                   AttrNode(p.title)];
    BagOnlyReads(Obj(Fields(PageAttrs, values)));
    FindFields(PageAttrs, values, 0);
    FindFields(PageAttrs, values, 1);
    FindFields(PageAttrs, values, 2);
    FindFields(PageAttrs, values, 3);
    FindFields(PageAttrs, values, 4);
    OptionalNumberRoundTrip(p.firstPage);
    OptionalNumberRoundTrip(p.lastPage);
  }

  lemma DocumentRefsRoundTrip(ds: seq<DocumentRef>)
    requires forall i :: 0 <= i < |ds| ==> DocumentRefWritable(ds[i], PageWritable)
    ensures ParseDocumentRefs(Some(Arr(WriteAll(ds, d => DocumentRefElement(d, PdfPageRefElement))))) == Ok(ds)
  {
    forall p | PageWritable(p) ensures ParsePdfPageRef(PdfPageRefElement(p)) == Ok(p) {
      PdfPageRefRoundTrip(p);
    }
    DocumentRefsRoundTripWith(ds, PdfPageRefElement, ParsePdfPageRef, PageWritable);
  }

  function WithoutTitle(p: PdfPageRef): PdfPageRef {
    p.(title := None)
  }

  function WithoutTitles(d: DocumentRef): DocumentRef {
    match d.pdfPageRefs
    case None => d
    case Some(ps) => d.(pdfPageRefs := Some(seq(|ps|, i requires 0 <= i < |ps| => WithoutTitle(ps[i]))))
  }

  /** The 2.0 reading of a page reference is the 2.1 reading without its title. */
  lemma PdfPageRefVersions(ref: Node)
    ensures Define20Core.ParsePdfPageRef(ref) == Lift(ParsePdfPageRef(ref), WithoutTitle)
  {
  }

  /** The 2.0 reading of any document references is the 2.1 reading with
      every page reference's title dropped: titles are the only difference,
      and both versions fail on the same inputs. */
  lemma DocumentRefsVersions(raw: Option<Node>)
    ensures Define20Core.ParseDocumentRefs(raw) == LiftAll(ParseDocumentRefs(raw), WithoutTitles)
  {
    forall n ensures Define20Core.ParsePdfPageRef(n) == Lift(ParsePdfPageRef(n), WithoutTitle) {
      PdfPageRefVersions(n);
    }
    var f := n => ParseDocumentRefWith(n, ParsePdfPageRef);
    var g := n => ParseDocumentRefWith(n, Define20Core.ParsePdfPageRef);
    forall n ensures g(n) == Lift(f(n), WithoutTitles) {
      var pages := Lookup(n, "pDFPageRef");
      if Truthy(pages) {
        MapIfPresentLift(pages, ParsePdfPageRef, Define20Core.ParsePdfPageRef, WithoutTitle);
        var r := MapIfPresent(pages, ParsePdfPageRef);
        if r.Ok? {
          var ps := r.value;
          assert seq(|ps|, i requires 0 <= i < |ps| => WithoutTitle(ps[i])) == LiftAll(r, WithoutTitle).value;
          assert WithoutTitles(DocumentRef(DocumentRefLeafId(n), Some(r.value)))
              == DocumentRef(DocumentRefLeafId(n), Some(LiftAll(r, WithoutTitle).value));
        }
      }
    }
    if Truthy(raw) && raw.value.Arr? {
      MapAllLift(FlatMapOr(raw.value.items, "documentRef"), f, g, WithoutTitles);
    }
  }
}
