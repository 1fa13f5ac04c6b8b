/**
 * The Define-XML 2.0 mapper (src/parser/define.20.ts): origins, code lists,
 * comment and method definitions, item references, value lists, item and
 * item-group definitions, the metadata version, the study and the ODM
 * element, and the entry point after the XML has been read.
 *
 * Every keyed collection is an ordered map built by the `forEach` fold of
 * module OrderedMaps from an entry callback below. With `hasArm` the
 * metadata version also carries the ARM result displays and the ODM element
 * the ARM namespace; nothing else changes.
 */
module Define20 {
  import opened Base
  import opened Tree
  import opened OrderedMaps
  import opened DefineCore
  import Define20Core
  import Arm10
  import Reading

  // ---------------------------------------------------------------- origins

  datatype Origin = Origin(kind: Attr, description: Option<seq<TranslatedText>>, documentRefs: Option<seq<DocumentRef>>)

  /** Called on `origin[0]`, which may be undefined: the type is read from
      the attribute bag; description and document references are attached
      only when those children exist. */
  function ParseOrigin(raw: Option<Node>): (r: Result<Origin>)
    ensures raw.None? || Lookup(raw.value, "$").None? ==> r == Err(TypeError)
    ensures r.Ok? ==> raw.Some? && r.value.kind == AttrAt(raw.value, "type")
                      && ReadFrom(r.value.description, raw.value, "description", ParseTexts)
                      && ReadFrom(r.value.documentRefs, raw.value, "documentRef", Define20Core.ParseDocumentRefs)
  {
    var bag :- Attrs(raw);
    var description :- WhenPresent(Lookup(raw.value, "description"), ParseTexts);
    var documentRefs :- WhenPresent(Lookup(raw.value, "documentRef"), Define20Core.ParseDocumentRefs);
    Ok(Origin(AttrIn(bag, "type"), description, documentRefs))
  }

  /** `[parseOrigin(origin[0])]` when `origin` is truthy: a one-element list
      built from the first origin child. */
  function FirstOrigin(v: Option<Node>): (r: Result<Option<seq<Origin>>>)
    ensures !Truthy(v) ==> r == Ok(None)
    ensures r.Ok? ==> (r.value.Some? <==> Truthy(v))
    ensures r.Ok? && r.value.Some? ==> |r.value.value| == 1
    ensures Truthy(v) && v.value.Arr? && v.value.items != [] ==>
              r == Lift(ParseOrigin(Some(v.value.items[0])), o => Some([o]))
  {
    if !Truthy(v) then Ok(None)
    else
      var origin :- ParseOrigin(Index0(v.value));
      Ok(Some([origin]))
  }

  /** Origin children after the first are never read. */
  lemma FirstOriginOnly(first: Node, rest: seq<Node>)
    ensures FirstOrigin(Some(Arr([first] + rest))) == FirstOrigin(Some(Arr([first])))
  {
    assert ([first] + rest)[0] == first;
  }

  // ------------------------------------------------------------- code lists

  datatype CodeList = CodeList(
    oid: Attr,
    name: Attr,
    dataType: Attr,
    sasFormatName: Attr,
    alias: Option<seq<Alias>>,
    enumeratedItems: Option<seq<EnumeratedItem>>,
    codeListItems: Option<seq<CodeListItem>>,
    externalCodeList: Option<ExternalCodeList>)

  /** The `forEach` callback of `parseCodeLists`: a node without an
      attribute bag is skipped; any other is filed under its OID, with each
      optional part attached only when its child exists. */
  function CodeListEntry(n: Node): (r: Result<Option<(string, CodeList)>>)
    ensures r == Ok(None) <==> !Truthy(Lookup(n, "$"))
    ensures r.Ok? && r.value.Some? ==>
              var c := r.value.value.1;
              && r.value.value.0 == Show(c.oid)
              && c.oid == AttrAt(n, "oid") && c.name == AttrAt(n, "name") && c.dataType == AttrAt(n, "dataType")
              && c.sasFormatName == IfPresent(AttrAt(n, "sASFormatName"))
              && ReadFrom(c.alias, n, "alias", ParseAliases)
              && ReadFrom(c.enumeratedItems, n, "enumeratedItem", ParseEnumeratedItems)
              && ReadFrom(c.codeListItems, n, "codeListItem", ParseCodeListItems)
              && (c.externalCodeList.Some? <==> Truthy(Lookup(n, "externalCodeList"))) && Ok(c.externalCodeList) == FirstExternalCodeList(Lookup(n, "externalCodeList"))
  {
    if !Truthy(Lookup(n, "$")) then Ok(None)
    else
      var bag := Lookup(n, "$").value;
      var alias :- WhenPresent(Lookup(n, "alias"), ParseAliases);
      var enumeratedItems :- WhenPresent(Lookup(n, "enumeratedItem"), ParseEnumeratedItems);
      var codeListItems :- WhenPresent(Lookup(n, "codeListItem"), ParseCodeListItems);
      var external :- FirstExternalCodeList(Lookup(n, "externalCodeList"));
      var c := CodeList(AttrIn(bag, "oid"), AttrIn(bag, "name"), AttrIn(bag, "dataType"),
                        IfPresent(AttrIn(bag, "sASFormatName")), alias, enumeratedItems, codeListItems, external);
      Ok(Some((Show(c.oid), c)))
  }

  function ParseCodeLists(raw: Option<Node>): (r: Result<OrderedMap<CodeList>>)
    ensures !Truthy(raw) ==> r == Ok(Empty())
    ensures Truthy(raw) && !raw.value.Arr? ==> r == Err(TypeError)
  {
    BuildFrom(raw, CodeListEntry)
  }

  lemma CodeListsFiledByOid(raw: Option<Node>)
    requires ParseCodeLists(raw).Ok?
    ensures var m := ParseCodeLists(raw).value; forall k :: k in m.entries ==> Show(m.entries[k].oid) == k
  {
    BuildFromAll(raw, CodeListEntry, (k: string, c: CodeList) => Show(c.oid) == k);
  }

  // ------------------------------------------------- comments and methods

  datatype CommentDef = CommentDef(oid: Attr, description: Option<seq<TranslatedText>>, documentRefs: Option<seq<DocumentRef>>)

  /** The `forEach` callback of `parseCommentDefs`: no node is skipped, and
      one without an attribute bag is a TypeError. */
  function CommentDefEntry(n: Node): (r: Result<Option<(string, CommentDef)>>)
    ensures Lookup(n, "$").None? ==> r == Err(TypeError)
    ensures r.Ok? ==> r.value.Some?
    ensures r.Ok? && r.value.Some? ==>
              var c := r.value.value.1;
              && r.value.value.0 == Show(c.oid) && c.oid == AttrAt(n, "oid")
              && ReadFrom(c.description, n, "description", ParseTexts)
              && ReadFrom(c.documentRefs, n, "documentRef", Define20Core.ParseDocumentRefs)
  {
    var bag :- Attrs(Some(n));
    var description :- WhenPresent(Lookup(n, "description"), ParseTexts);
    var documentRefs :- WhenPresent(Lookup(n, "documentRef"), Define20Core.ParseDocumentRefs);
    var c := CommentDef(AttrIn(bag, "oid"), description, documentRefs);
    Ok(Some((Show(c.oid), c)))
  }

  function ParseCommentDefs(raw: Option<Node>): (r: Result<OrderedMap<CommentDef>>)
    ensures !Truthy(raw) ==> r == Ok(Empty())
    ensures Truthy(raw) && !raw.value.Arr? ==> r == Err(TypeError)
  {
    BuildFrom(raw, CommentDefEntry)
  }

  lemma CommentDefsFiledByOid(raw: Option<Node>)
    requires ParseCommentDefs(raw).Ok?
    ensures var m := ParseCommentDefs(raw).value; forall k :: k in m.entries ==> Show(m.entries[k].oid) == k
  {
    BuildFromAll(raw, CommentDefEntry, (k: string, c: CommentDef) => Show(c.oid) == k);
  }

  datatype MethodDef = MethodDef(
    oid: Attr,
    name: Attr,
    kind: Attr,
    description: Option<seq<TranslatedText>>,
    documentRefs: Option<seq<DocumentRef>>,
    formalExpressions: Option<seq<FormalExpression>>)

  /** The `forEach` callback of `parseMethodDefs`: no node is skipped. */
  function MethodDefEntry(n: Node): (r: Result<Option<(string, MethodDef)>>)
    ensures Lookup(n, "$").None? ==> r == Err(TypeError)
    ensures r.Ok? ==> r.value.Some?
    ensures r.Ok? && r.value.Some? ==>
              var m := r.value.value.1;
              && r.value.value.0 == Show(m.oid)
              && m.oid == AttrAt(n, "oid") && m.name == AttrAt(n, "name") && m.kind == AttrAt(n, "type")
              && ReadFrom(m.description, n, "description", ParseTexts)
              && ReadFrom(m.documentRefs, n, "documentRef", Define20Core.ParseDocumentRefs)
              && ReadFrom(m.formalExpressions, n, "formalExpression", ParseFormalExpressions)
  {
    var bag :- Attrs(Some(n));
    var description :- WhenPresent(Lookup(n, "description"), ParseTexts);
    var documentRefs :- WhenPresent(Lookup(n, "documentRef"), Define20Core.ParseDocumentRefs);
    var formalExpressions :- WhenPresent(Lookup(n, "formalExpression"), ParseFormalExpressions);
    var m := MethodDef(AttrIn(bag, "oid"), AttrIn(bag, "name"), AttrIn(bag, "type"), description, documentRefs, formalExpressions);
    Ok(Some((Show(m.oid), m)))
  }

  function ParseMethodDefs(raw: Option<Node>): (r: Result<OrderedMap<MethodDef>>)
    ensures !Truthy(raw) ==> r == Ok(Empty())
    ensures Truthy(raw) && !raw.value.Arr? ==> r == Err(TypeError)
  {
    BuildFrom(raw, MethodDefEntry)
  }

  lemma MethodDefsFiledByOid(raw: Option<Node>)
    requires ParseMethodDefs(raw).Ok?
    ensures var m := ParseMethodDefs(raw).value; forall k :: k in m.entries ==> Show(m.entries[k].oid) == k
  {
    BuildFromAll(raw, MethodDefEntry, (k: string, d: MethodDef) => Show(d.oid) == k);
  }

  // --------------------------------------------------------- item references

  datatype ItemRef = ItemRef(
    itemOid: Attr,
    mandatory: bool,
    methodOid: Attr,
    role: Attr,
    roleCodeListOid: Attr,
    orderNumber: Option<Number>,
    keySequence: Option<Number>,
    whereClauseRefs: Option<seq<Attr>>)

  function MandatoryError(a: Attr): Error {
    Thrown("Invalid value for ItemRef.mandatory: " + Show(a))
  }

  /** `mandatory` must be exactly "Yes" or "No", absence included, and is
      true iff "Yes"; the optional attributes are kept only when present.
      The where-clause references are read from the children but only when
      the attribute bag has a `whereClauseRef` entry. */
  function ParseItemRef(n: Node): (r: Result<ItemRef>)
    ensures Lookup(n, "$").None? ==> r == Err(TypeError)
    ensures var m := AttrAt(n, "mandatory");
            Lookup(n, "$").Some? && m != Some("Yes") && m != Some("No") ==> r == Err(MandatoryError(m))
    ensures r.Ok? ==> AttrAt(n, "mandatory") in {Some("Yes"), Some("No")}
    ensures r.Ok? ==> r.value.itemOid == AttrAt(n, "itemOid")
                      && (r.value.mandatory <==> AttrAt(n, "mandatory") == Some("Yes"))
    ensures r.Ok? ==> r.value.methodOid == IfPresent(AttrAt(n, "methodOid"))
                      && r.value.role == IfPresent(AttrAt(n, "role"))
                      && r.value.roleCodeListOid == IfPresent(AttrAt(n, "roleCodeListOid"))
                      && r.value.orderNumber == OptionalNumber(AttrAt(n, "orderNumber"))
                      && r.value.keySequence == OptionalNumber(AttrAt(n, "keySequence"))
    ensures r.Ok? ==> (r.value.whereClauseRefs.Some? <==> Present(AttrAt(n, "whereClauseRef")))
    ensures r.Ok? && r.value.whereClauseRefs.Some? ==>
              Ok(r.value.whereClauseRefs.value) == MapAttr(Lookup(n, "whereClauseRef"), "whereClauseOid")
  {
    var bag :- Attrs(Some(n));
    var mandatory :- YesNo(AttrIn(bag, "mandatory"), MandatoryError(AttrIn(bag, "mandatory")));
    var whereClauseRefs :- GatedWhereClauseRefs(n, bag);
    Ok(ItemRef(AttrIn(bag, "itemOid"), mandatory, IfPresent(AttrIn(bag, "methodOid")), IfPresent(AttrIn(bag, "role")),
               IfPresent(AttrIn(bag, "roleCodeListOid")), OptionalNumber(AttrIn(bag, "orderNumber")),
               OptionalNumber(AttrIn(bag, "keySequence")), whereClauseRefs))
  }

  /** The `forEach` callback of `parseItemRefs`: a node without an attribute
      bag or without an item OID is skipped; any other is filed under its
      item OID. */
  function ItemRefEntry(n: Node): (r: Result<Option<(string, ItemRef)>>)
    ensures r == Ok(None) <==> !Truthy(Lookup(n, "$")) || !Present(AttrAt(n, "itemOid"))
    ensures Truthy(Lookup(n, "$")) && Present(AttrAt(n, "itemOid")) ==>
              r == Lift(ParseItemRef(n), (i: ItemRef) => Some((AttrAt(n, "itemOid").value, i)))
    ensures r.Ok? && r.value.Some? ==> r.value.value.1.itemOid == Some(r.value.value.0)
  {
    if !Truthy(Lookup(n, "$")) || !Present(AttrAt(n, "itemOid")) then Ok(None)
    else
      var itemRef :- ParseItemRef(n);
      Ok(Some((AttrAt(n, "itemOid").value, itemRef)))
  }

  function ParseItemRefs(raw: Option<Node>): (r: Result<OrderedMap<ItemRef>>)
    ensures !Truthy(raw) ==> r == Ok(Empty())
    ensures Truthy(raw) && !raw.value.Arr? ==> r == Err(TypeError)
  {
    BuildFrom(raw, ItemRefEntry)
  }

  /** Every item reference is filed under its own item OID. */
  lemma ItemRefsFiledByItemOid(raw: Option<Node>)
    requires ParseItemRefs(raw).Ok?
    ensures var m := ParseItemRefs(raw).value; forall k :: k in m.entries ==> m.entries[k].itemOid == Some(k)
  {
    BuildFromAll(raw, ItemRefEntry, (k: string, i: ItemRef) => i.itemOid == Some(k));
  }

  /** The attribute and child names an item reference is written with; the
      `whereClauseRef` attribute marks that the children are to be read. */
  const ItemRefAttrs := ["itemOid", "mandatory", "methodOid", "role", "roleCodeListOid", "orderNumber", "keySequence", "whereClauseRef"]
  const ItemRefChildren := ["$", "whereClauseRef"]

  function WhereClauseRefElement(oid: Attr): Node {
    BagOnly(Obj(Fields(["whereClauseOid"], [AttrNode(oid)])))
  }

  function ItemRefBag(i: ItemRef): Node {
    Obj(Fields(ItemRefAttrs, [AttrNode(i.itemOid), AttrNode(YesNoAttr(i.mandatory)), AttrNode(i.methodOid), AttrNode(i.role),
                              AttrNode(i.roleCodeListOid), AttrNode(NumberAttr(i.orderNumber)),
                              AttrNode(NumberAttr(i.keySequence)), AttrNode(if i.whereClauseRefs.Some? then Some("Yes") else None)]))
  }

  function ItemRefElement(i: ItemRef): Node {
    var refs := if i.whereClauseRefs.Some? then Some(Arr(WriteAll(i.whereClauseRefs.value, WhereClauseRefElement))) else None;
    Obj(Fields(ItemRefChildren, [Some(ItemRefBag(i)), refs]))
  }

  predicate ItemRefWritable(i: ItemRef) {
    Kept(i.methodOid) && Kept(i.role) && Kept(i.roleCodeListOid) && NumberWritable(i.orderNumber) && NumberWritable(i.keySequence)
  }

  lemma ItemRefBagReads(i: ItemRef)
    requires ItemRefWritable(i)
    ensures var bag := ItemRefBag(i);
            && AttrIn(bag, "itemOid") == i.itemOid && AttrIn(bag, "mandatory") == YesNoAttr(i.mandatory)
            && IfPresent(AttrIn(bag, "methodOid")) == i.methodOid && IfPresent(AttrIn(bag, "role")) == i.role
            && IfPresent(AttrIn(bag, "roleCodeListOid")) == i.roleCodeListOid
            && OptionalNumber(AttrIn(bag, "orderNumber")) == i.orderNumber
            && OptionalNumber(AttrIn(bag, "keySequence")) == i.keySequence
            && (Present(AttrIn(bag, "whereClauseRef")) <==> i.whereClauseRefs.Some?)
  {
    var values := [AttrNode(i.itemOid), AttrNode(YesNoAttr(i.mandatory)), AttrNode(i.methodOid), AttrNode(i.role),
                   AttrNode(i.roleCodeListOid), AttrNode(NumberAttr(i.orderNumber)),
                   AttrNode(NumberAttr(i.keySequence)), AttrNode(if i.whereClauseRefs.Some? then Some("Yes") else None)];
    FindFields(ItemRefAttrs, values, 0);
    FindFields(ItemRefAttrs, values, 1);
    FindFields(ItemRefAttrs, values, 2);
    FindFields(ItemRefAttrs, values, 3);
    FindFields(ItemRefAttrs, values, 4);
    FindFields(ItemRefAttrs, values, 5);
    FindFields(ItemRefAttrs, values, 6);
    FindFields(ItemRefAttrs, values, 7);
    OptionalNumberRoundTrip(i.orderNumber);
    OptionalNumberRoundTrip(i.keySequence);
  }

  lemma WhereClauseRefsRoundTrip(refs: seq<Attr>)
    ensures MapAttr(Some(Arr(WriteAll(refs, WhereClauseRefElement))), "whereClauseOid") == Ok(refs)
  {
    forall i | 0 <= i < |refs| ensures AttrOf(WhereClauseRefElement(refs[i]), "whereClauseOid") == Ok(refs[i]) {
      BagOnlyReads(Obj(Fields(["whereClauseOid"], [AttrNode(refs[i])])));
      FindFields(["whereClauseOid"], [AttrNode(refs[i])], 0);
    }
    MapOverWriteAll(refs, WhereClauseRefElement, n => AttrOf(n, "whereClauseOid"));
  }

  /** The element's bag and where-clause children are those written. */
  lemma ItemRefElementReads(i: ItemRef)
    ensures Lookup(ItemRefElement(i), "$") == Some(ItemRefBag(i))
    ensures Lookup(ItemRefElement(i), "whereClauseRef") ==
              if i.whereClauseRefs.Some? then Some(Arr(WriteAll(i.whereClauseRefs.value, WhereClauseRefElement))) else None
  {
    var refs := if i.whereClauseRefs.Some? then Some(Arr(WriteAll(i.whereClauseRefs.value, WhereClauseRefElement))) else None;
    FindFields(ItemRefChildren, [Some(ItemRefBag(i)), refs], 0);
    FindFields(ItemRefChildren, [Some(ItemRefBag(i)), refs], 1);
  }

  lemma GatedWhereClauseRefsRoundTrip(i: ItemRef)
    requires ItemRefWritable(i)
    ensures GatedWhereClauseRefs(ItemRefElement(i), ItemRefBag(i)) == Ok(i.whereClauseRefs)
  {
    ItemRefElementReads(i);
    ItemRefBagReads(i);
    if i.whereClauseRefs.Some? {
      WhereClauseRefsRoundTrip(i.whereClauseRefs.value);
    }
  }

  /** An item reference is read back from the element it is written as. */
  lemma ItemRefRoundTrip(i: ItemRef)
    requires ItemRefWritable(i)
    ensures ParseItemRef(ItemRefElement(i)) == Ok(i)
  {
    ItemRefElementReads(i);
    ItemRefBagReads(i);
    GatedWhereClauseRefsRoundTrip(i);
    YesNoRoundTrip(i.mandatory, YesNoAttr(i.mandatory), MandatoryError(YesNoAttr(i.mandatory)));
  }

  /** With the `whereClauseRef` children but no attribute of that name, as
      Define-XML documents are written, the references are dropped. */
  lemma WhereClauseRefsDropped(refs: seq<Attr>, bag: Node)
    requires !Present(AttrIn(bag, "whereClauseRef")) && AttrIn(bag, "mandatory") == Some("No")
    ensures var n := Obj(Fields(ItemRefChildren, [Some(bag), Some(Arr(WriteAll(refs, WhereClauseRefElement)))]));
            ParseItemRef(n).Ok? && ParseItemRef(n).value.whereClauseRefs.None?
  {
    var values := [Some(bag), Some(Arr(WriteAll(refs, WhereClauseRefElement)))];
    FindFields(ItemRefChildren, values, 0);
  }

  // ---------------------------------------------------------- value lists

  datatype ValueListDef = ValueListDef(oid: Attr, itemRefs: OrderedMap<ItemRef>)

  /** The `forEach` callback of `parseValueLists`: the item references are
      read first, then the OID; no node is skipped. */
  function ValueListEntry(n: Node): (r: Result<Option<(string, ValueListDef)>>)
    ensures ParseItemRefs(Lookup(n, "itemRef")).Err? ==> r == Err(ParseItemRefs(Lookup(n, "itemRef")).error)
    ensures ParseItemRefs(Lookup(n, "itemRef")).Ok? && Lookup(n, "$").None? ==> r == Err(TypeError)
    ensures r.Ok? ==> r.value.Some?
    ensures r.Ok? && r.value.Some? ==>
              var v := r.value.value.1;
              && r.value.value.0 == Show(v.oid) && v.oid == AttrAt(n, "oid")
              && Ok(v.itemRefs) == ParseItemRefs(Lookup(n, "itemRef"))
  {
    var itemRefs :- ParseItemRefs(Lookup(n, "itemRef"));
    var bag :- Attrs(Some(n));
    var v := ValueListDef(AttrIn(bag, "oid"), itemRefs);
    Ok(Some((Show(v.oid), v)))
  }

  function ParseValueLists(raw: Option<Node>): (r: Result<OrderedMap<ValueListDef>>)
    ensures !Truthy(raw) ==> r == Ok(Empty())
    ensures Truthy(raw) && !raw.value.Arr? ==> r == Err(TypeError)
  {
    BuildFrom(raw, ValueListEntry)
  }

  lemma ValueListsFiledByOid(raw: Option<Node>)
    requires ParseValueLists(raw).Ok?
    ensures var m := ParseValueLists(raw).value; forall k :: k in m.entries ==> Show(m.entries[k].oid) == k
  {
    BuildFromAll(raw, ValueListEntry, (k: string, v: ValueListDef) => Show(v.oid) == k);
  }

  // ------------------------------------------------------------ item defs

  datatype ItemDef = ItemDef(
    oid: Attr,
    name: Attr,
    dataType: Attr,
    length: Option<Number>,
    significantDigits: Option<Number>,
    sasFieldName: Attr,
    displayFormat: Attr,
    commentOid: Attr,
    description: Option<seq<TranslatedText>>,
    codeListRef: Attr,
    origins: Option<seq<Origin>>,
    valueListRef: Attr)

  /** The `forEach` callback of `parseItemDefs`: no node is skipped; numbers
      and optional attributes are kept only when present, and at most one
      origin is kept. */
  function ItemDefEntry(n: Node): (r: Result<Option<(string, ItemDef)>>)
    ensures Lookup(n, "$").None? ==> r == Err(TypeError)
    ensures r.Ok? ==> r.value.Some?
    ensures r.Ok? && r.value.Some? ==>
              var d := r.value.value.1;
              && r.value.value.0 == Show(d.oid)
              && d.oid == AttrAt(n, "oid") && d.name == AttrAt(n, "name") && d.dataType == AttrAt(n, "dataType")
              && d.length == OptionalNumber(AttrAt(n, "length"))
              && d.significantDigits == OptionalNumber(AttrAt(n, "significantDigits"))
              && d.sasFieldName == IfPresent(AttrAt(n, "sASFieldName"))
              && d.displayFormat == IfPresent(AttrAt(n, "displayFormat"))
              && d.commentOid == IfPresent(AttrAt(n, "commentOid"))
              && ReadFrom(d.description, n, "description", ParseTexts)
              && (d.origins.Some? <==> Truthy(Lookup(n, "origin"))) && Ok(d.origins) == FirstOrigin(Lookup(n, "origin"))
              && (d.origins.Some? ==> |d.origins.value| == 1)
              && Ok(d.codeListRef) == FirstRefAttr(Lookup(n, "codeListRef"), "codeListOid")
              && Ok(d.valueListRef) == FirstRefAttr(Lookup(n, "valueListRef"), "valueListOid")
  {
    var bag :- Attrs(Some(n));
    var description :- WhenPresent(Lookup(n, "description"), ParseTexts);
    var codeListRef :- FirstRefAttr(Lookup(n, "codeListRef"), "codeListOid");
    var origins :- FirstOrigin(Lookup(n, "origin"));
    var valueListRef :- FirstRefAttr(Lookup(n, "valueListRef"), "valueListOid");
    var d := ItemDef(AttrIn(bag, "oid"), AttrIn(bag, "name"), AttrIn(bag, "dataType"),
                     OptionalNumber(AttrIn(bag, "length")), OptionalNumber(AttrIn(bag, "significantDigits")),
                     IfPresent(AttrIn(bag, "sASFieldName")), IfPresent(AttrIn(bag, "displayFormat")),
                     IfPresent(AttrIn(bag, "commentOid")), description, codeListRef, origins, valueListRef);
    Ok(Some((Show(d.oid), d)))
  }

  function ParseItemDefs(raw: Option<Node>): (r: Result<OrderedMap<ItemDef>>)
    ensures !Truthy(raw) ==> r == Ok(Empty())
    ensures Truthy(raw) && !raw.value.Arr? ==> r == Err(TypeError)
  {
    BuildFrom(raw, ItemDefEntry)
  }

  lemma ItemDefsFiledByOid(raw: Option<Node>)
    requires ParseItemDefs(raw).Ok?
    ensures var m := ParseItemDefs(raw).value; forall k :: k in m.entries ==> Show(m.entries[k].oid) == k
  {
    BuildFromAll(raw, ItemDefEntry, (k: string, d: ItemDef) => Show(d.oid) == k);
  }

  // ---------------------------------------------------------- item groups

  datatype ItemGroupDef = ItemGroupDef(
    oid: Attr,
    name: Attr,
    repeating: bool,
    purpose: Attr,
    sasDatasetName: Attr,
    structure: Attr,
    itemGroupClass: Attr,
    archiveLocationId: Attr,
    itemRefs: OrderedMap<ItemRef>,
    domain: Attr,
    isReferenceData: Option<bool>,
    commentOid: Attr,
    description: Option<seq<TranslatedText>>,
    alias: Option<seq<Alias>>,
    leaf: Option<Leaf>)

  function RepeatingError(a: Attr): Error {
    Thrown("Invalid value for ItemGroupDef.repeating: " + Show(a))
  }

  function ReferenceDataError(a: Attr): Error {
    Thrown("Invalid value for ItemGroupDef.isReferenceData: " + Show(a))
  }

  /** The `forEach` callback of `parseItemGroups`: the item references are
      read first; `repeating` must be "Yes" or "No"; `isReferenceData` is
      checked the same way, but only when present. */
  function ItemGroupEntry(n: Node): (r: Result<Option<(string, ItemGroupDef)>>)
    ensures ParseItemRefs(Lookup(n, "itemRef")).Err? ==> r == Err(ParseItemRefs(Lookup(n, "itemRef")).error)
    ensures ParseItemRefs(Lookup(n, "itemRef")).Ok? && Lookup(n, "$").None? ==> r == Err(TypeError)
    ensures var rep := AttrAt(n, "repeating");
            ParseItemRefs(Lookup(n, "itemRef")).Ok? && Lookup(n, "$").Some? && rep != Some("Yes") && rep != Some("No") ==>
              r == Err(RepeatingError(rep))
    ensures var ref := AttrAt(n, "isReferenceData");
            ParseItemRefs(Lookup(n, "itemRef")).Ok? && Lookup(n, "$").Some?
            && AttrAt(n, "repeating") in {Some("Yes"), Some("No")}
            && Present(ref) && ref != Some("Yes") && ref != Some("No") ==>
              r == Err(ReferenceDataError(ref))
    ensures var ref := AttrAt(n, "isReferenceData");
            r.Ok? ==> !Present(ref) || ref == Some("Yes") || ref == Some("No")
    ensures r.Ok? ==> r.value.Some?
    ensures r.Ok? && r.value.Some? ==>
              var g := r.value.value.1;
              && r.value.value.0 == Show(g.oid) && g.oid == AttrAt(n, "oid")
              && Ok(g.itemRefs) == ParseItemRefs(Lookup(n, "itemRef"))
              && (g.repeating <==> AttrAt(n, "repeating") == Some("Yes"))
              && (g.isReferenceData.Some? <==> Present(AttrAt(n, "isReferenceData")))
              && (g.isReferenceData.Some? ==> (g.isReferenceData.value <==> AttrAt(n, "isReferenceData") == Some("Yes")))
              && g.domain == IfPresent(AttrAt(n, "domain")) && g.commentOid == IfPresent(AttrAt(n, "commentOid"))
              && ReadFrom(g.description, n, "description", ParseTexts)
              && ReadFrom(g.alias, n, "alias", ParseAliases)
              && Ok(g.leaf) == DatasetLeaf(Lookup(n, "leaf"))
    ensures r.Ok? && r.value.Some? ==>
              var g := r.value.value.1;
              && g.name == AttrAt(n, "name") && g.purpose == AttrAt(n, "purpose")
              && g.sasDatasetName == AttrAt(n, "sASDatasetName") && g.structure == AttrAt(n, "structure")
              && g.itemGroupClass == AttrAt(n, "class") && g.archiveLocationId == AttrAt(n, "archiveLocationId")
  {
    var itemRefs :- ParseItemRefs(Lookup(n, "itemRef"));
    var bag :- Attrs(Some(n));
    var repeating :- YesNo(AttrIn(bag, "repeating"), RepeatingError(AttrIn(bag, "repeating")));
    var isReferenceData :- OptionalYesNo(AttrIn(bag, "isReferenceData"), ReferenceDataError(AttrIn(bag, "isReferenceData")));
    var description :- WhenPresent(Lookup(n, "description"), ParseTexts);
    var alias :- WhenPresent(Lookup(n, "alias"), ParseAliases);
    var leaf :- DatasetLeaf(Lookup(n, "leaf"));
    var g := ItemGroupDef(AttrIn(bag, "oid"), AttrIn(bag, "name"), repeating, AttrIn(bag, "purpose"),
                          AttrIn(bag, "sASDatasetName"), AttrIn(bag, "structure"), AttrIn(bag, "class"),
                          AttrIn(bag, "archiveLocationId"), itemRefs, IfPresent(AttrIn(bag, "domain")), isReferenceData,
                          IfPresent(AttrIn(bag, "commentOid")), description, alias, leaf);
    Ok(Some((Show(g.oid), g)))
  }

  function ParseItemGroups(raw: Option<Node>): (r: Result<OrderedMap<ItemGroupDef>>)
    ensures !Truthy(raw) ==> r == Ok(Empty())
    ensures Truthy(raw) && !raw.value.Arr? ==> r == Err(TypeError)
  {
    BuildFrom(raw, ItemGroupEntry)
  }

  lemma ItemGroupsFiledByOid(raw: Option<Node>)
    requires ParseItemGroups(raw).Ok?
    ensures var m := ParseItemGroups(raw).value; forall k :: k in m.entries ==> Show(m.entries[k].oid) == k
  {
    BuildFromAll(raw, ItemGroupEntry, (k: string, g: ItemGroupDef) => Show(g.oid) == k);
  }

  // ------------------------------------------------------ metadata version

  datatype MetaDataVersion = MetaDataVersion(
    oid: Attr,
    name: Attr,
    description: Attr,
    defineVersion: Attr,
    standardName: Attr,
    standardVersion: Attr,
    itemGroupDefs: OrderedMap<ItemGroupDef>,
    itemDefs: OrderedMap<ItemDef>,
    annotatedCrf: Option<seq<DocumentRef>>,
    supplementalDoc: Option<seq<DocumentRef>>,
    valueListDefs: Option<OrderedMap<ValueListDef>>,
    whereClauseDefs: Option<OrderedMap<WhereClauseDef>>,
    codeLists: Option<OrderedMap<CodeList>>,
    methodDefs: Option<OrderedMap<MethodDef>>,
    commentDefs: Option<OrderedMap<CommentDef>>,
    leafs: Option<OrderedMap<Leaf>>,
    analysisResultDisplays: Option<OrderedMap<Arm10.ResultDisplay>>)

  /** The optional document references and the value-list and where-clause
      maps, set on `base` one after the other, each only when its child
      exists; nothing else changes. */
  function WithReferences(m: Node, base: MetaDataVersion): (r: Result<MetaDataVersion>)
    ensures r.Ok? ==> && ReadFrom(r.value.annotatedCrf, m, "annotatedCrf", Define20Core.ParseDocumentRefs)
                      && ReadFrom(r.value.supplementalDoc, m, "supplementalDoc", Define20Core.ParseDocumentRefs)
                      && ReadFrom(r.value.valueListDefs, m, "valueListDef", ParseValueLists)
                      && ReadFrom(r.value.whereClauseDefs, m, "whereClauseDef", ParseWhereClauses)
    ensures r.Ok? ==> r.value.(annotatedCrf := base.annotatedCrf, supplementalDoc := base.supplementalDoc,
                               valueListDefs := base.valueListDefs, whereClauseDefs := base.whereClauseDefs) == base
  {
    var annotatedCrf :- WhenPresent(Lookup(m, "annotatedCrf"), Define20Core.ParseDocumentRefs);
    var supplementalDoc :- WhenPresent(Lookup(m, "supplementalDoc"), Define20Core.ParseDocumentRefs);
    var valueListDefs :- WhenPresent(Lookup(m, "valueListDef"), ParseValueLists);
    var whereClauseDefs :- WhenPresent(Lookup(m, "whereClauseDef"), ParseWhereClauses);
    Ok(base.(annotatedCrf := annotatedCrf, supplementalDoc := supplementalDoc,
             valueListDefs := valueListDefs, whereClauseDefs := whereClauseDefs))
  }

  /** The code-list, method, comment and leaf maps, set on `base` one after
      the other, each only when its child exists; nothing else changes. */
  function WithDefinitions(m: Node, base: MetaDataVersion): (r: Result<MetaDataVersion>)
    ensures r.Ok? ==> && ReadFrom(r.value.codeLists, m, "codeList", ParseCodeLists)
                      && ReadFrom(r.value.methodDefs, m, "methodDef", ParseMethodDefs)
                      && ReadFrom(r.value.commentDefs, m, "commentDef", ParseCommentDefs)
                      && ReadFrom(r.value.leafs, m, "leaf", ParseLeafs)
    ensures r.Ok? ==> r.value.(codeLists := base.codeLists, methodDefs := base.methodDefs,
                               commentDefs := base.commentDefs, leafs := base.leafs) == base
  {
    var codeLists :- WhenPresent(Lookup(m, "codeList"), ParseCodeLists);
    var methodDefs :- WhenPresent(Lookup(m, "methodDef"), ParseMethodDefs);
    var commentDefs :- WhenPresent(Lookup(m, "commentDef"), ParseCommentDefs);
    var leafs :- WhenPresent(Lookup(m, "leaf"), ParseLeafs);
    Ok(base.(codeLists := codeLists, methodDefs := methodDefs, commentDefs := commentDefs, leafs := leafs))
  }

  /** The metadata version without ARM: item groups and item definitions are
      read first, then the attributes, then the optional collections, each
      attached, map and order together, only when its child exists. */
  function MetaDataVersionBase(m: Node): (r: Result<MetaDataVersion>)
    ensures Lookup(m, "$").None? && ParseItemGroups(Lookup(m, "itemGroupDef")).Ok? && ParseItemDefs(Lookup(m, "itemDef")).Ok? ==>
              r == Err(TypeError)
    ensures r.Ok? ==>
              var v := r.value;
              && v.oid == AttrAt(m, "oid") && v.name == AttrAt(m, "name") && v.description == AttrAt(m, "description")
              && v.defineVersion == AttrAt(m, "defineVersion")
              && v.standardName == AttrAt(m, "standardName") && v.standardVersion == AttrAt(m, "standardVersion")
              && Ok(v.itemGroupDefs) == ParseItemGroups(Lookup(m, "itemGroupDef"))
              && Ok(v.itemDefs) == ParseItemDefs(Lookup(m, "itemDef"))
              && ReadFrom(v.annotatedCrf, m, "annotatedCrf", Define20Core.ParseDocumentRefs)
              && ReadFrom(v.supplementalDoc, m, "supplementalDoc", Define20Core.ParseDocumentRefs)
              && ReadFrom(v.valueListDefs, m, "valueListDef", ParseValueLists)
              && ReadFrom(v.whereClauseDefs, m, "whereClauseDef", ParseWhereClauses)
              && ReadFrom(v.codeLists, m, "codeList", ParseCodeLists)
              && ReadFrom(v.methodDefs, m, "methodDef", ParseMethodDefs)
              && ReadFrom(v.commentDefs, m, "commentDef", ParseCommentDefs)
              && ReadFrom(v.leafs, m, "leaf", ParseLeafs)
              && v.analysisResultDisplays.None?
  {
    var itemGroupDefs :- ParseItemGroups(Lookup(m, "itemGroupDef"));
    var itemDefs :- ParseItemDefs(Lookup(m, "itemDef"));
    var bag :- Attrs(Some(m));
    var record := MetaDataVersion(AttrIn(bag, "oid"), AttrIn(bag, "name"), AttrIn(bag, "description"),
                                  AttrIn(bag, "defineVersion"), AttrIn(bag, "standardName"), AttrIn(bag, "standardVersion"),
                                  itemGroupDefs, itemDefs, None, None, None, None, None, None, None, None, None);
    var withReferences :- WithReferences(m, record);
    WithDefinitions(m, withReferences)
  }

  /** Called on `metaDataVersion[0]`: with `hasArm` the ARM result displays
      are read last, with the tag "2.0", and added to the record read
      without ARM. */
  function ParseMetaDataVersion(raw: Option<Node>, hasArm: bool): (r: Result<MetaDataVersion>)
    ensures raw.None? ==> r == Err(TypeError)
    ensures r.Ok? ==> (r.value.analysisResultDisplays.Some? <==> hasArm)
  {
    if raw.None? then Err(TypeError)
    else
      var base :- MetaDataVersionBase(raw.value);
      if hasArm then
        var displays :- Arm10.ParseAnalysisResultDisplays(Lookup(raw.value, "analysisResultDisplays"), "2.0");
        Ok(base.(analysisResultDisplays := Some(displays)))
      else Ok(base)
  }

  /** With `hasArm` the metadata version is the one read without it, with
      the result displays added; reading them is the only new failure. */
  lemma MetaDataVersionArm(raw: Option<Node>)
    ensures raw.Some? ==> ParseMetaDataVersion(raw, false) == MetaDataVersionBase(raw.value)
    ensures ParseMetaDataVersion(raw, false).Err? ==> ParseMetaDataVersion(raw, true) == ParseMetaDataVersion(raw, false)
    ensures ParseMetaDataVersion(raw, false).Ok? ==>
              var displays := Arm10.ParseAnalysisResultDisplays(Lookup(raw.value, "analysisResultDisplays"), "2.0");
              ParseMetaDataVersion(raw, true) ==
                Lift(displays, (d: OrderedMap<Arm10.ResultDisplay>) =>
                       ParseMetaDataVersion(raw, false).value.(analysisResultDisplays := Some(d)))
  {
  }

  /** With `hasArm` but no `AnalysisResultDisplays` element, reading fails
      with a TypeError. */
  lemma MissingResultDisplays(raw: Option<Node>)
    requires ParseMetaDataVersion(raw, false).Ok?
    requires Lookup(raw.value, "analysisResultDisplays").None?
    ensures ParseMetaDataVersion(raw, true) == Err(TypeError)
  {
    MetaDataVersionArm(raw);
  }

  // ------------------------------------------------------------- study, ODM

  datatype Study = Study(studyOid: Attr, globalVariables: GlobalVariables, metaDataVersion: MetaDataVersion)

  /** Called on `study[0]`: the OID, the first global-variables element and
      the first metadata version, in that order. */
  function ParseStudy(raw: Option<Node>, hasArm: bool): (r: Result<Study>)
    ensures raw.None? || Lookup(raw.value, "$").None? ==> r == Err(TypeError)
    ensures r.Ok? ==> raw.Some? && r.value.studyOid == AttrAt(raw.value, "oid")
    ensures r.Ok? ==> Lookup(raw.value, "globalVariables").Some? && Lookup(raw.value, "metaDataVersion").Some?
    ensures r.Ok? ==> Ok(r.value.globalVariables) == ParseGlobalVariables(Index0(Lookup(raw.value, "globalVariables").value))
                      && Ok(r.value.metaDataVersion) == ParseMetaDataVersion(Index0(Lookup(raw.value, "metaDataVersion").value), hasArm)
    ensures r.Ok? ==> (r.value.metaDataVersion.analysisResultDisplays.Some? <==> hasArm)
  {
    var bag :- Attrs(raw);
    var globals :- At0(Lookup(raw.value, "globalVariables"));
    var globalVariables :- ParseGlobalVariables(globals);
    var first :- At0(Lookup(raw.value, "metaDataVersion"));
    var metaDataVersion :- ParseMetaDataVersion(first, hasArm);
    Ok(Study(AttrIn(bag, "oid"), globalVariables, metaDataVersion))
  }

  datatype Odm = Odm(
    xmlns: Attr,
    xmlnsDef: Attr,
    xsiSchemaLocation: Attr,
    odmVersion: string,
    fileType: string,
    fileOid: Attr,
    creationDateTime: Attr,
    study: Study,
    asOfDateTime: Attr,
    originator: Attr,
    sourceSystem: Attr,
    sourceSystemVersion: Attr,
    xmlnsXlink: Attr,
    xmlnsXsi: Attr,
    /** Set, possibly to undefined, exactly when `hasArm`. */
    xmlnsArm: Option<Attr>)

  const OdmVersion := "1.3.2"
  const FileType := "Snapshot"

  /** The study is read first, then the attributes; the ODM version and
      file type are constants, and the optional attributes are copied only
      when present. */
  function ParseOdm(odm: Node, hasArm: bool): (r: Result<Odm>)
    ensures Lookup(odm, "study").None? ==> r == Err(TypeError)
    ensures r.Ok? ==> r.value.odmVersion == OdmVersion && r.value.fileType == FileType
    ensures r.Ok? ==> r.value.xmlns == AttrAt(odm, "xmlns") && r.value.xmlnsDef == AttrAt(odm, "xmlns:def")
                      && r.value.xsiSchemaLocation == AttrAt(odm, "xsi:schemaLocation")
                      && r.value.fileOid == AttrAt(odm, "fileOid") && r.value.creationDateTime == AttrAt(odm, "creationDateTime")
    ensures r.Ok? ==> r.value.asOfDateTime == IfPresent(AttrAt(odm, "asOfDateTime"))
                      && r.value.originator == IfPresent(AttrAt(odm, "originator"))
                      && r.value.sourceSystem == IfPresent(AttrAt(odm, "sourceSystem"))
                      && r.value.sourceSystemVersion == IfPresent(AttrAt(odm, "sourceSystemVersion"))
                      && r.value.xmlnsXlink == IfPresent(AttrAt(odm, "xmlns:xlink"))
                      && r.value.xmlnsXsi == IfPresent(AttrAt(odm, "xmlns:xsi"))
    ensures r.Ok? ==> (r.value.xmlnsArm.Some? <==> hasArm) && (hasArm ==> r.value.xmlnsArm.value == AttrAt(odm, "xmlns:arm"))
    ensures r.Ok? ==> Ok(r.value.study) == ParseStudy(Index0(Lookup(odm, "study").value), hasArm)
    ensures r.Ok? ==> (r.value.study.metaDataVersion.analysisResultDisplays.Some? <==> hasArm)
  {
    var first :- At0(Lookup(odm, "study"));
    var study :- ParseStudy(first, hasArm);
    var bag :- Attrs(Some(odm));
    Ok(Odm(AttrIn(bag, "xmlns"), AttrIn(bag, "xmlns:def"), AttrIn(bag, "xsi:schemaLocation"), OdmVersion, FileType,
           AttrIn(bag, "fileOid"), AttrIn(bag, "creationDateTime"), study,
           IfPresent(AttrIn(bag, "asOfDateTime")), IfPresent(AttrIn(bag, "originator")),
           IfPresent(AttrIn(bag, "sourceSystem")), IfPresent(AttrIn(bag, "sourceSystemVersion")),
           IfPresent(AttrIn(bag, "xmlns:xlink")), IfPresent(AttrIn(bag, "xmlns:xsi")),
           if hasArm then Some(AttrIn(bag, "xmlns:arm")) else None))
  }

  // ------------------------------------------------------------ entry point

  datatype DefineXml = DefineXml(prolog: Reading.Prolog, odm: Odm)

  /** The document with the ARM fields taken off. */
  function WithoutArm(d: DefineXml): (r: DefineXml)
    ensures r.odm.xmlnsArm.None? && r.odm.study.metaDataVersion.analysisResultDisplays.None?
  {
    var mdv := d.odm.study.metaDataVersion.(analysisResultDisplays := None);
    d.(odm := d.odm.(xmlnsArm := None, study := d.odm.study.(metaDataVersion := mdv)))
  }

  /** `parseDefineXml(xmlString, hasArm)` after the XML has been read: the
      prolog is passed through, a failed read or a missing ODM root is an
      error, and the ODM element is mapped with or without ARM. */
  function ParseDefineXml(prolog: Reading.Prolog, read: Reading.ReadOutcome, hasArm: bool): (r: Result<DefineXml>)
    ensures read.ReadFailed? ==> r == Err(Thrown(Reading.ReadError(read.message)))
    ensures Reading.OdmRoot(read).Err? ==> r == Err(Reading.OdmRoot(read).error)
    ensures r.Ok? ==> r.value.prolog == prolog && Reading.OdmRoot(read).Ok?
    ensures r.Ok? ==> (r.value.odm.xmlnsArm.Some? <==> hasArm)
                      && (r.value.odm.study.metaDataVersion.analysisResultDisplays.Some? <==> hasArm)
  {
    var odm :- Reading.OdmRoot(read);
    var mapped :- ParseOdm(odm, hasArm);
    Ok(DefineXml(prolog, mapped))
  }

  lemma StudyArm(raw: Option<Node>)
    requires ParseStudy(raw, true).Ok?
    ensures ParseStudy(raw, false).Ok?
    ensures var s := ParseStudy(raw, true).value;
            ParseStudy(raw, false).value == s.(metaDataVersion := s.metaDataVersion.(analysisResultDisplays := None))
  {
    var first := At0(Lookup(raw.value, "metaDataVersion")).value;
    MetaDataVersionArm(first);
  }

  lemma OdmArm(odm: Node)
    requires ParseOdm(odm, true).Ok?
    ensures ParseOdm(odm, false).Ok?
    ensures var o := ParseOdm(odm, true).value;
            var mdv := o.study.metaDataVersion.(analysisResultDisplays := None);
            ParseOdm(odm, false).value == o.(xmlnsArm := None, study := o.study.(metaDataVersion := mdv))
  {
    StudyArm(At0(Lookup(odm, "study")).value);
  }

  /** A document read with `hasArm` is the document read without it plus
      the ARM fields: mapping ARM never changes anything else. */
  lemma ArmOnlyAdds(prolog: Reading.Prolog, read: Reading.ReadOutcome)
    requires ParseDefineXml(prolog, read, true).Ok?
    ensures ParseDefineXml(prolog, read, false) == Ok(WithoutArm(ParseDefineXml(prolog, read, true).value))
  {
    OdmArm(Reading.OdmRoot(read).value);
  }
}
