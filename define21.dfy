/**
 * The Define-XML 2.1 mapper (src/parser/define.21.ts): origins, code lists,
 * comment and method definitions, item references, value lists, item
 * definitions, item-group classes and definitions, standards, the metadata
 * version, the study and the ODM element, and the entry point after the XML
 * has been read.
 *
 * The shared field mappers the file carries private copies of are those of
 * module DefineCore; document references are read with their page titles
 * (module Define21Core). Compared with 2.0, every origin is kept, the
 * records carry the standard references and the "Yes"-only flags of 2.1,
 * and the error messages name the attribute differently. Nothing of ARM is
 * read in 2.1.
 */
module Define21 {
  import opened Base
  import opened Tree
  import opened OrderedMaps
  import opened DefineCore
  import Define21Core
  import Define20
  import Reading

  // ---------------------------------------------------------------- origins

  datatype Origin = Origin(
    kind: Attr,
    source: Attr,
    description: Option<seq<TranslatedText>>,
    documentRefs: Option<seq<DocumentRef>>)

  /** One origin element: the type from the attribute bag, the source only
      when present, description and document references only when those
      children exist. */
  function ParseOrigin(item: Node): (r: Result<Origin>)
    ensures Lookup(item, "$").None? ==> r == Err(TypeError)
    ensures r.Ok? ==> r.value.kind == AttrAt(item, "type") && r.value.source == IfPresent(AttrAt(item, "source"))
                      && ReadFrom(r.value.description, item, "description", ParseTexts)
                      && ReadFrom(r.value.documentRefs, item, "documentRef", Define21Core.ParseDocumentRefs)
  {
    var bag :- Attrs(Some(item));
    var description :- WhenPresent(Lookup(item, "description"), ParseTexts);
    var documentRefs :- WhenPresent(Lookup(item, "documentRef"), Define21Core.ParseDocumentRefs);
    Ok(Origin(AttrIn(bag, "type"), IfPresent(AttrIn(bag, "source")), description, documentRefs))
  }

  /** `origin.map(...)`: every origin element is read, in order. */
  function ParseOrigins(v: Option<Node>): (r: Result<seq<Origin>>)
    ensures !(v.Some? && v.value.Arr?) ==> r == Err(TypeError)
    ensures r.Ok? ==> |r.value| == |v.value.items|
                      && forall i :: 0 <= i < |r.value| ==> ParseOrigin(v.value.items[i]) == Ok(r.value[i])
  {
    MapOver(v, ParseOrigin)
  }

  /** The 2.0 reading of an origin: no source, and no page titles. */
  function OriginIn20(o: Origin): Define20.Origin {
    var docs := if o.documentRefs.Some?
                then Some(LiftAll(Ok(o.documentRefs.value), Define21Core.WithoutTitles).value)
                else None;
    Define20.Origin(o.kind, o.description, docs)
  }

  /** The 2.0 mapper reads an origin element as 2.1 does, without the source
      and the page titles, and fails on the same elements. */
  lemma OriginVersions(item: Node)
    ensures Define20.ParseOrigin(Some(item)) == Lift(ParseOrigin(item), OriginIn20)
  {
    var docs := Lookup(item, "documentRef");
    Define21Core.DocumentRefsVersions(docs);
  }

  /** Where 2.0 keeps the first origin only, 2.1 keeps them all: the first
      2.1 origin, read as 2.0 reads it, is the one 2.0 keeps. */
  lemma OriginsAllKept(first: Node, rest: seq<Node>)
    requires ParseOrigins(Some(Arr([first] + rest))).Ok?
    ensures |ParseOrigins(Some(Arr([first] + rest))).value| == 1 + |rest|
    ensures Define20.FirstOrigin(Some(Arr([first] + rest))) == Ok(Some([OriginIn20(ParseOrigins(Some(Arr([first] + rest))).value[0])]))
  {
    var items := [first] + rest;
    assert items[0] == first;
    OriginVersions(first);
  }

  // ------------------------------------------------------------- code lists

  datatype CodeList = CodeList(
    oid: Attr,
    name: Attr,
    dataType: Attr,
    sasFormatName: Attr,
    alias: Option<seq<Alias>>,
    enumeratedItems: Option<seq<EnumeratedItem>>,
    codeListItems: Option<seq<CodeListItem>>,
    externalCodeList: Option<ExternalCodeList>,
    standardOid: Attr,
    isNonStandard: bool,
    commentOid: Attr,
    description: Option<seq<TranslatedText>>)

  /** The `forEach` callback of `parseCodeLists`: a node without an
      attribute bag is skipped; any other is filed under its OID. After the
      2.0 parts come the standard OID, the "Yes"-only `isNonStandard` flag,
      the comment OID and the description. */
  function CodeListEntry(n: Node): (r: Result<Option<(string, CodeList)>>)
    ensures r == Ok(None) <==> !Truthy(Lookup(n, "$"))
    ensures Truthy(Lookup(n, "$")) && WhenPresent(Lookup(n, "alias"), ParseAliases).Ok?
            && WhenPresent(Lookup(n, "enumeratedItem"), ParseEnumeratedItems).Ok?
            && WhenPresent(Lookup(n, "codeListItem"), ParseCodeListItems).Ok?
            && FirstExternalCodeList(Lookup(n, "externalCodeList")).Ok?
            && YesOnly("isNonStandard", AttrAt(n, "isNonStandard")).Err? ==>
              r == Err(YesOnly("isNonStandard", AttrAt(n, "isNonStandard")).error)
    ensures r.Ok? ==> !Present(AttrAt(n, "isNonStandard")) || AttrAt(n, "isNonStandard") == Some("Yes")
    ensures r.Ok? && r.value.Some? ==>
              var c := r.value.value.1;
              && r.value.value.0 == Show(c.oid)
              && c.oid == AttrAt(n, "oid") && c.name == AttrAt(n, "name") && c.dataType == AttrAt(n, "dataType")
              && c.sasFormatName == IfPresent(AttrAt(n, "sASFormatName"))
              && ReadFrom(c.alias, n, "alias", ParseAliases)
              && ReadFrom(c.enumeratedItems, n, "enumeratedItem", ParseEnumeratedItems)
              && ReadFrom(c.codeListItems, n, "codeListItem", ParseCodeListItems)
              && (c.externalCodeList.Some? <==> Truthy(Lookup(n, "externalCodeList"))) && Ok(c.externalCodeList) == FirstExternalCodeList(Lookup(n, "externalCodeList"))
    ensures r.Ok? && r.value.Some? ==>
              var c := r.value.value.1;
              && c.standardOid == IfPresent(AttrAt(n, "standardOid"))
              && (c.isNonStandard <==> AttrAt(n, "isNonStandard") == Some("Yes"))
              && c.commentOid == IfPresent(AttrAt(n, "commentOid"))
              && ReadFrom(c.description, n, "description", ParseTexts)
  {
    if !Truthy(Lookup(n, "$")) then Ok(None)
    else
      var bag := Lookup(n, "$").value;
      var alias :- WhenPresent(Lookup(n, "alias"), ParseAliases);
      var enumeratedItems :- WhenPresent(Lookup(n, "enumeratedItem"), ParseEnumeratedItems);
      var codeListItems :- WhenPresent(Lookup(n, "codeListItem"), ParseCodeListItems);
      var external :- FirstExternalCodeList(Lookup(n, "externalCodeList"));
      var isNonStandard :- YesOnly("isNonStandard", AttrIn(bag, "isNonStandard"));
      var description :- WhenPresent(Lookup(n, "description"), ParseTexts);
      var c := CodeList(AttrIn(bag, "oid"), AttrIn(bag, "name"), AttrIn(bag, "dataType"),
                        IfPresent(AttrIn(bag, "sASFormatName")), alias, enumeratedItems, codeListItems, external,
                        IfPresent(AttrIn(bag, "standardOid")), isNonStandard, IfPresent(AttrIn(bag, "commentOid")),
                        description);
      Ok(Some((Show(c.oid), c)))
  }

  function ParseCodeLists(raw: Option<Node>): (r: Result<OrderedMap<CodeList>>)
    ensures !Truthy(raw) ==> r == Ok(Empty())
    ensures Truthy(raw) && !raw.value.Arr? ==> r == Err(TypeError)
  {
    BuildFrom(raw, CodeListEntry)
  }

  lemma CodeListsFiledByOid(raw: Option<Node>)
    requires ParseCodeLists(raw).Ok?
    ensures var m := ParseCodeLists(raw).value; forall k :: k in m.entries ==> Show(m.entries[k].oid) == k
  {
    BuildFromAll(raw, CodeListEntry, (k: string, c: CodeList) => Show(c.oid) == k);
  }

  // ------------------------------------------------- comments and methods

  datatype CommentDef = CommentDef(oid: Attr, description: Option<seq<TranslatedText>>, documentRefs: Option<seq<DocumentRef>>)

  /** The `forEach` callback of `parseCommentDefs`: no node is skipped, and
      one without an attribute bag is a TypeError. */
  function CommentDefEntry(n: Node): (r: Result<Option<(string, CommentDef)>>)
    ensures Lookup(n, "$").None? ==> r == Err(TypeError)
    ensures r.Ok? ==> r.value.Some?
    ensures r.Ok? && r.value.Some? ==>
              var c := r.value.value.1;
              && r.value.value.0 == Show(c.oid) && c.oid == AttrAt(n, "oid")
              && ReadFrom(c.description, n, "description", ParseTexts)
              && ReadFrom(c.documentRefs, n, "documentRef", Define21Core.ParseDocumentRefs)
  {
    var bag :- Attrs(Some(n));
    var description :- WhenPresent(Lookup(n, "description"), ParseTexts);
    var documentRefs :- WhenPresent(Lookup(n, "documentRef"), Define21Core.ParseDocumentRefs);
    var c := CommentDef(AttrIn(bag, "oid"), description, documentRefs);
    Ok(Some((Show(c.oid), c)))
  }

  function ParseCommentDefs(raw: Option<Node>): (r: Result<OrderedMap<CommentDef>>)
    ensures !Truthy(raw) ==> r == Ok(Empty())
    ensures Truthy(raw) && !raw.value.Arr? ==> r == Err(TypeError)
  {
    BuildFrom(raw, CommentDefEntry)
  }

  lemma CommentDefsFiledByOid(raw: Option<Node>)
    requires ParseCommentDefs(raw).Ok?
    ensures var m := ParseCommentDefs(raw).value; forall k :: k in m.entries ==> Show(m.entries[k].oid) == k
  {
    BuildFromAll(raw, CommentDefEntry, (k: string, c: CommentDef) => Show(c.oid) == k);
  }

  datatype MethodDef = MethodDef(
    oid: Attr,
    name: Attr,
    kind: Attr,
    description: Option<seq<TranslatedText>>,
    documentRefs: Option<seq<DocumentRef>>,
    formalExpressions: Option<seq<FormalExpression>>)

  /** The `forEach` callback of `parseMethodDefs`: no node is skipped. */
  function MethodDefEntry(n: Node): (r: Result<Option<(string, MethodDef)>>)
    ensures Lookup(n, "$").None? ==> r == Err(TypeError)
    ensures r.Ok? ==> r.value.Some?
    ensures r.Ok? && r.value.Some? ==>
              var m := r.value.value.1;
              && r.value.value.0 == Show(m.oid)
              && m.oid == AttrAt(n, "oid") && m.name == AttrAt(n, "name") && m.kind == AttrAt(n, "type")
              && ReadFrom(m.description, n, "description", ParseTexts)
              && ReadFrom(m.documentRefs, n, "documentRef", Define21Core.ParseDocumentRefs)
              && ReadFrom(m.formalExpressions, n, "formalExpression", ParseFormalExpressions)
  {
    var bag :- Attrs(Some(n));
    var description :- WhenPresent(Lookup(n, "description"), ParseTexts);
    var documentRefs :- WhenPresent(Lookup(n, "documentRef"), Define21Core.ParseDocumentRefs);
    var formalExpressions :- WhenPresent(Lookup(n, "formalExpression"), ParseFormalExpressions);
    var m := MethodDef(AttrIn(bag, "oid"), AttrIn(bag, "name"), AttrIn(bag, "type"), description, documentRefs, formalExpressions);
    Ok(Some((Show(m.oid), m)))
  }

  function ParseMethodDefs(raw: Option<Node>): (r: Result<OrderedMap<MethodDef>>)
    ensures !Truthy(raw) ==> r == Ok(Empty())
    ensures Truthy(raw) && !raw.value.Arr? ==> r == Err(TypeError)
  {
    BuildFrom(raw, MethodDefEntry)
  }

  lemma MethodDefsFiledByOid(raw: Option<Node>)
    requires ParseMethodDefs(raw).Ok?
    ensures var m := ParseMethodDefs(raw).value; forall k :: k in m.entries ==> Show(m.entries[k].oid) == k
  {
    BuildFromAll(raw, MethodDefEntry, (k: string, d: MethodDef) => Show(d.oid) == k);
  }

  // --------------------------------------------------------- item references

  datatype ItemRef = ItemRef(
    itemOid: Attr,
    mandatory: bool,
    methodOid: Attr,
    role: Attr,
    roleCodeListOid: Attr,
    orderNumber: Option<Number>,
    keySequence: Option<Number>,
    whereClauseRefs: Option<seq<Attr>>,
    standardOid: Attr,
    isNonStandard: bool)

  function MandatoryError(a: Attr): Error {
    Thrown("Invalid value for mandatory. Expected \"Yes\" or \"No\", received " + Show(a))
  }

  /** As in 2.0, with the 2.1 message for a bad `mandatory`, followed by the
      standard OID and the "Yes"-only `isNonStandard` flag. */
  function ParseItemRef(n: Node): (r: Result<ItemRef>)
    ensures Lookup(n, "$").None? ==> r == Err(TypeError)
    ensures var m := AttrAt(n, "mandatory");
            Lookup(n, "$").Some? && m != Some("Yes") && m != Some("No") ==> r == Err(MandatoryError(m))
    ensures r.Ok? ==> AttrAt(n, "mandatory") in {Some("Yes"), Some("No")}
                      && (!Present(AttrAt(n, "isNonStandard")) || AttrAt(n, "isNonStandard") == Some("Yes"))
    ensures r.Ok? ==> r.value.itemOid == AttrAt(n, "itemOid")
                      && (r.value.mandatory <==> AttrAt(n, "mandatory") == Some("Yes"))
                      && r.value.standardOid == IfPresent(AttrAt(n, "standardOid"))
                      && (r.value.isNonStandard <==> AttrAt(n, "isNonStandard") == Some("Yes"))
    ensures r.Ok? ==> r.value.methodOid == IfPresent(AttrAt(n, "methodOid"))
                      && r.value.role == IfPresent(AttrAt(n, "role"))
                      && r.value.roleCodeListOid == IfPresent(AttrAt(n, "roleCodeListOid"))
                      && r.value.orderNumber == OptionalNumber(AttrAt(n, "orderNumber"))
                      && r.value.keySequence == OptionalNumber(AttrAt(n, "keySequence"))
    ensures r.Ok? ==> (r.value.whereClauseRefs.Some? <==> Present(AttrAt(n, "whereClauseRef")))
    ensures r.Ok? && r.value.whereClauseRefs.Some? ==>
              Ok(r.value.whereClauseRefs.value) == MapAttr(Lookup(n, "whereClauseRef"), "whereClauseOid")
    ensures Define20.ParseItemRef(n).Ok? && YesOnly("isNonStandard", AttrAt(n, "isNonStandard")).Err? ==>
              r == Err(YesOnly("isNonStandard", AttrAt(n, "isNonStandard")).error)
    ensures r.Ok? ==> Define20.ParseItemRef(n) == Ok(ItemRefIn20(r.value))
  {
    var bag :- Attrs(Some(n));
    var mandatory :- YesNo(AttrIn(bag, "mandatory"), MandatoryError(AttrIn(bag, "mandatory")));
    var whereClauseRefs :- GatedWhereClauseRefs(n, bag);
    var isNonStandard :- YesOnly("isNonStandard", AttrIn(bag, "isNonStandard"));
    Ok(ItemRef(AttrIn(bag, "itemOid"), mandatory, IfPresent(AttrIn(bag, "methodOid")), IfPresent(AttrIn(bag, "role")),
               IfPresent(AttrIn(bag, "roleCodeListOid")), OptionalNumber(AttrIn(bag, "orderNumber")),
               OptionalNumber(AttrIn(bag, "keySequence")), whereClauseRefs,
               IfPresent(AttrIn(bag, "standardOid")), isNonStandard))
  }

  /** The 2.0 record of a 2.1 item reference: the standard fields dropped. */
  function ItemRefIn20(i: ItemRef): Define20.ItemRef {
    Define20.ItemRef(i.itemOid, i.mandatory, i.methodOid, i.role, i.roleCodeListOid, i.orderNumber, i.keySequence,
                     i.whereClauseRefs)
  }

  /** The record both versions build from a bag whose `mandatory` is valid. */
  function ItemRefOf(n: Node, bag: Node, refs: Option<seq<Attr>>, isNonStandard: bool): ItemRef {
    ItemRef(AttrIn(bag, "itemOid"), AttrIn(bag, "mandatory") == Some("Yes"), IfPresent(AttrIn(bag, "methodOid")),
            IfPresent(AttrIn(bag, "role")), IfPresent(AttrIn(bag, "roleCodeListOid")),
            OptionalNumber(AttrIn(bag, "orderNumber")), OptionalNumber(AttrIn(bag, "keySequence")),
            refs, IfPresent(AttrIn(bag, "standardOid")), isNonStandard)
  }

  /** An item reference 2.1 reads is read by 2.0 as the same record without
      the standard fields. */
  lemma ItemRefIn20Reads(n: Node)
    requires ParseItemRef(n).Ok?
    ensures Define20.ParseItemRef(n) == Ok(ItemRefIn20(ParseItemRef(n).value))
  {
    var bag := Lookup(n, "$").value;
    var refs := GatedWhereClauseRefs(n, bag);
    var flag := YesOnly("isNonStandard", AttrIn(bag, "isNonStandard"));
    assert ParseItemRef(n) == Ok(ItemRefOf(n, bag, refs.value, flag.value));
  }

  /** 2.1 fails beyond 2.0 only on a bad `isNonStandard`. */
  lemma ItemRefFrom20(n: Node)
    requires Define20.ParseItemRef(n).Ok?
    requires YesOnly("isNonStandard", AttrAt(n, "isNonStandard")).Ok?
    ensures ParseItemRef(n).Ok?
  {
    var bag := Lookup(n, "$").value;
    assert GatedWhereClauseRefs(n, bag).Ok?;
  }

  /** A bad `mandatory`, a missing bag or a bad where-clause reference fails
      in both versions, each with its own message. */
  lemma ItemRefFailsIn20(n: Node)
    requires Define20.ParseItemRef(n).Err?
    ensures ParseItemRef(n).Err?
  {
    if Lookup(n, "$").Some? {
      var bag := Lookup(n, "$").value;
      var m := AttrIn(bag, "mandatory");
      if m == Some("Yes") || m == Some("No") {
        assert GatedWhereClauseRefs(n, bag).Err?;
      }
    }
  }

  /** The `forEach` callback of `parseItemRefs`: a node without an attribute
      bag or without an item OID is skipped; any other is filed under its
      item OID. */
  function ItemRefEntry(n: Node): (r: Result<Option<(string, ItemRef)>>)
    ensures r == Ok(None) <==> !Truthy(Lookup(n, "$")) || !Present(AttrAt(n, "itemOid"))
    ensures Truthy(Lookup(n, "$")) && Present(AttrAt(n, "itemOid")) ==>
              r == Lift(ParseItemRef(n), (i: ItemRef) => Some((AttrAt(n, "itemOid").value, i)))
    ensures r.Ok? && r.value.Some? ==> r.value.value.1.itemOid == Some(r.value.value.0)
  {
    if !Truthy(Lookup(n, "$")) || !Present(AttrAt(n, "itemOid")) then Ok(None)
    else
      var itemRef :- ParseItemRef(n);
      Ok(Some((AttrAt(n, "itemOid").value, itemRef)))
  }

  function ParseItemRefs(raw: Option<Node>): (r: Result<OrderedMap<ItemRef>>)
    ensures !Truthy(raw) ==> r == Ok(Empty())
    ensures Truthy(raw) && !raw.value.Arr? ==> r == Err(TypeError)
  {
    BuildFrom(raw, ItemRefEntry)
  }

  /** Every item reference is filed under its own item OID. */
  lemma ItemRefsFiledByItemOid(raw: Option<Node>)
    requires ParseItemRefs(raw).Ok?
    ensures var m := ParseItemRefs(raw).value; forall k :: k in m.entries ==> m.entries[k].itemOid == Some(k)
  {
    BuildFromAll(raw, ItemRefEntry, (k: string, i: ItemRef) => i.itemOid == Some(k));
  }

  // ---------------------------------------------------------- value lists

  datatype ValueListDef = ValueListDef(oid: Attr, itemRefs: OrderedMap<ItemRef>, description: Option<seq<TranslatedText>>)

  /** The `forEach` callback of `parseValueLists`: the item references are
      read first, then the OID and the description; no node is skipped. */
  function ValueListEntry(n: Node): (r: Result<Option<(string, ValueListDef)>>)
    ensures ParseItemRefs(Lookup(n, "itemRef")).Err? ==> r == Err(ParseItemRefs(Lookup(n, "itemRef")).error)
    ensures ParseItemRefs(Lookup(n, "itemRef")).Ok? && Lookup(n, "$").None? ==> r == Err(TypeError)
    ensures r.Ok? ==> r.value.Some?
    ensures r.Ok? && r.value.Some? ==>
              var v := r.value.value.1;
              && r.value.value.0 == Show(v.oid) && v.oid == AttrAt(n, "oid")
              && Ok(v.itemRefs) == ParseItemRefs(Lookup(n, "itemRef"))
              && ReadFrom(v.description, n, "description", ParseTexts)
  {
    var itemRefs :- ParseItemRefs(Lookup(n, "itemRef"));
    var bag :- Attrs(Some(n));
    var description :- WhenPresent(Lookup(n, "description"), ParseTexts);
    var v := ValueListDef(AttrIn(bag, "oid"), itemRefs, description);
    Ok(Some((Show(v.oid), v)))
  }

  function ParseValueLists(raw: Option<Node>): (r: Result<OrderedMap<ValueListDef>>)
    ensures !Truthy(raw) ==> r == Ok(Empty())
    ensures Truthy(raw) && !raw.value.Arr? ==> r == Err(TypeError)
  {
    BuildFrom(raw, ValueListEntry)
  }

  lemma ValueListsFiledByOid(raw: Option<Node>)
    requires ParseValueLists(raw).Ok?
    ensures var m := ParseValueLists(raw).value; forall k :: k in m.entries ==> Show(m.entries[k].oid) == k
  {
    BuildFromAll(raw, ValueListEntry, (k: string, v: ValueListDef) => Show(v.oid) == k);
  }

  // ------------------------------------------------------------ item defs

  datatype ItemDef = ItemDef(
    oid: Attr,
    name: Attr,
    dataType: Attr,
    length: Option<Number>,
    significantDigits: Option<Number>,
    sasFieldName: Attr,
    displayFormat: Attr,
    commentOid: Attr,
    description: Option<seq<TranslatedText>>,
    codeListRef: Attr,
    origins: Option<seq<Origin>>,
    valueListRef: Attr,
    alias: Option<seq<Alias>>)

  /** The `forEach` callback of `parseItemDefs`: no node is skipped; every
      origin element is kept, and the aliases are read last. */
  function ItemDefEntry(n: Node): (r: Result<Option<(string, ItemDef)>>)
    ensures Lookup(n, "$").None? ==> r == Err(TypeError)
    ensures r.Ok? ==> r.value.Some?
    ensures r.Ok? && r.value.Some? ==>
              var d := r.value.value.1;
              && r.value.value.0 == Show(d.oid)
              && d.oid == AttrAt(n, "oid") && d.name == AttrAt(n, "name") && d.dataType == AttrAt(n, "dataType")
              && d.length == OptionalNumber(AttrAt(n, "length"))
              && d.significantDigits == OptionalNumber(AttrAt(n, "significantDigits"))
              && d.sasFieldName == IfPresent(AttrAt(n, "sASFieldName"))
              && d.displayFormat == IfPresent(AttrAt(n, "displayFormat"))
              && d.commentOid == IfPresent(AttrAt(n, "commentOid"))
              && ReadFrom(d.description, n, "description", ParseTexts)
              && ReadFrom(d.alias, n, "alias", ParseAliases)
              && Ok(d.codeListRef) == FirstRefAttr(Lookup(n, "codeListRef"), "codeListOid")
              && Ok(d.valueListRef) == FirstRefAttr(Lookup(n, "valueListRef"), "valueListOid")
    ensures r.Ok? && r.value.Some? ==>
              var d := r.value.value.1;
              && ReadFrom(d.origins, n, "origin", ParseOrigins)
              && (d.origins.Some? ==> Ok(d.origins.value) == ParseOrigins(Lookup(n, "origin")))
  {
    var bag :- Attrs(Some(n));
    var description :- WhenPresent(Lookup(n, "description"), ParseTexts);
    var codeListRef :- FirstRefAttr(Lookup(n, "codeListRef"), "codeListOid");
    var origins :- WhenPresent(Lookup(n, "origin"), ParseOrigins);
    var valueListRef :- FirstRefAttr(Lookup(n, "valueListRef"), "valueListOid");
    var alias :- WhenPresent(Lookup(n, "alias"), ParseAliases);
    var d := ItemDef(AttrIn(bag, "oid"), AttrIn(bag, "name"), AttrIn(bag, "dataType"),
                     OptionalNumber(AttrIn(bag, "length")), OptionalNumber(AttrIn(bag, "significantDigits")),
                     IfPresent(AttrIn(bag, "sASFieldName")), IfPresent(AttrIn(bag, "displayFormat")),
                     IfPresent(AttrIn(bag, "commentOid")), description, codeListRef, origins, valueListRef, alias);
    Ok(Some((Show(d.oid), d)))
  }

  function ParseItemDefs(raw: Option<Node>): (r: Result<OrderedMap<ItemDef>>)
    ensures !Truthy(raw) ==> r == Ok(Empty())
    ensures Truthy(raw) && !raw.value.Arr? ==> r == Err(TypeError)
  {
    BuildFrom(raw, ItemDefEntry)
  }

  lemma ItemDefsFiledByOid(raw: Option<Node>)
    requires ParseItemDefs(raw).Ok?
    ensures var m := ParseItemDefs(raw).value; forall k :: k in m.entries ==> Show(m.entries[k].oid) == k
  {
    BuildFromAll(raw, ItemDefEntry, (k: string, d: ItemDef) => Show(d.oid) == k);
  }

  // ---------------------------------------------------- item-group classes

  datatype SubClass = SubClass(name: Attr, parentClassName: Attr)

  datatype ItemGroupClass = ItemGroupClass(name: Attr, subClasses: Option<seq<SubClass>>)

  const ClassError := "Expected class to be a non-empty array"

  /** One sub-class element: its name, and its parent class name only when
      present. */
  function ParseSubClass(n: Node): (r: Result<SubClass>)
    ensures r.Err? <==> Lookup(n, "$").None?
    ensures r.Err? ==> r.error == TypeError
    ensures r.Ok? ==> r.value.name == AttrAt(n, "name") && r.value.parentClassName == IfPresent(AttrAt(n, "parentClassName"))
  {
    var bag :- Attrs(Some(n));
    Ok(SubClass(AttrIn(bag, "name"), IfPresent(AttrIn(bag, "parentClassName"))))
  }

  /** The `forEach` over the sub-class elements, pushing each sub-class
      read: it yields the sub-classes of all elements, in order, or the
      failure of the first element that has no attribute bag. */
  method ParseSubClassesLoop(nodes: seq<Node>) returns (r: Result<seq<SubClass>>)
    ensures r == MapAll(nodes, ParseSubClass)
  {
    var subClasses: seq<SubClass> := [];
    var i := 0;
    while i < |nodes|
      invariant 0 <= i <= |nodes| && |subClasses| == i
      invariant forall j :: 0 <= j < i ==> ParseSubClass(nodes[j]) == Ok(subClasses[j])
    {
      var subClass := ParseSubClass(nodes[i]);
      if subClass.Err? {
        MapAllFirstError(nodes, ParseSubClass, i);
        return Err(subClass.error);
      }
      subClasses := subClasses + [subClass.value];
      i := i + 1;
    }
    r := Ok(subClasses);
    var all := MapAll(nodes, ParseSubClass);
    assert all.Ok?;
    assert all.value == subClasses;
  }

  /** `parseClass`: anything but an array whose first element is truthy is
      rejected; the name is read from the first element's attribute bag and
      the sub-classes, when that element has them, from all its sub-class
      elements. */
  function ParseClass(v: Option<Node>): (r: Result<ItemGroupClass>)
    ensures !(v.Some? && v.value.Arr? && v.value.items != [] && v.value.items[0] != Str("")) ==> r == Err(Thrown(ClassError))
    ensures r.Ok? ==> v.Some? && v.value.Arr? && v.value.items != []
    ensures r.Ok? ==> var first := v.value.items[0];
                      && r.value.name == AttrAt(first, "name")
                      && (r.value.subClasses.Some? <==> Truthy(Lookup(first, "subClass")))
    ensures r.Ok? && r.value.subClasses.Some? ==>
              var sub := Lookup(v.value.items[0], "subClass");
              sub.Some? && sub.value.Arr? && Ok(r.value.subClasses.value) == MapAll(sub.value.items, ParseSubClass)
  {
    if !(v.Some? && v.value.Arr?) || !Truthy(Index0(v.value)) then Err(Thrown(ClassError))
    else
      var first := Index0(v.value).value;
      var bag :- Attrs(Some(first));
      var subClasses :- WhenPresent(Lookup(first, "subClass"), w => MapOver(w, ParseSubClass));
      Ok(ItemGroupClass(AttrIn(bag, "name"), subClasses))
  }

  // ---------------------------------------------------------- item groups

  datatype ItemGroupDef = ItemGroupDef(
    oid: Attr,
    name: Attr,
    repeating: bool,
    purpose: Attr,
    sasDatasetName: Attr,
    structure: Attr,
    archiveLocationId: Attr,
    itemRefs: OrderedMap<ItemRef>,
    standardOid: Attr,
    isNonStandard: bool,
    hasNoData: bool,
    itemGroupClass: Option<ItemGroupClass>,
    domain: Attr,
    isReferenceData: Option<bool>,
    commentOid: Attr,
    description: Option<seq<TranslatedText>>,
    alias: Option<seq<Alias>>,
    leaf: Option<Leaf>)

  function RepeatingError(a: Attr): Error {
    Thrown("Invalid value for repeating. Expected \"Yes\" or \"No\", received " + Show(a))
  }

  /** The message names the `isReferenceData` child of the element, not the
      attribute that was checked. */
  function ReferenceDataError(child: Option<Node>): Error {
    Thrown("Invalid value for isReferenceData. Expected \"Yes\" or \"No\", received " + JsString(child))
  }

  /** The start of the `forEach` callback of `parseItemGroups`: the item
      references are read first, then `repeating`, which must be "Yes" or
      "No", and the attributes every item group has. */
  function ItemGroupBase(n: Node): (r: Result<ItemGroupDef>)
    ensures ParseItemRefs(Lookup(n, "itemRef")).Err? ==> r == Err(ParseItemRefs(Lookup(n, "itemRef")).error)
    ensures ParseItemRefs(Lookup(n, "itemRef")).Ok? && Lookup(n, "$").None? ==> r == Err(TypeError)
    ensures var rep := AttrAt(n, "repeating");
            ParseItemRefs(Lookup(n, "itemRef")).Ok? && Lookup(n, "$").Some? && rep != Some("Yes") && rep != Some("No") ==>
              r == Err(RepeatingError(rep))
    ensures r.Ok? ==> Lookup(n, "$").Some?
    ensures r.Ok? ==> var g := r.value;
                      && g.oid == AttrAt(n, "oid") && g.name == AttrAt(n, "name") && g.purpose == AttrAt(n, "purpose")
                      && Ok(g.itemRefs) == ParseItemRefs(Lookup(n, "itemRef"))
                      && (g.repeating <==> AttrAt(n, "repeating") == Some("Yes"))
  {
    var itemRefs :- ParseItemRefs(Lookup(n, "itemRef"));
    var bag :- Attrs(Some(n));
    var repeating :- YesNo(AttrIn(bag, "repeating"), RepeatingError(AttrIn(bag, "repeating")));
    Ok(ItemGroupDef(AttrIn(bag, "oid"), AttrIn(bag, "name"), repeating, AttrIn(bag, "purpose"),
                    AttrIn(bag, "sASDatasetName"), AttrIn(bag, "structure"), AttrIn(bag, "archiveLocationId"),
                    itemRefs, None, false, false, None, None, None, None, None, None, None))
  }

  /** The two "Yes"-only flags of an item group, `isNonStandard` checked
      first: each is unset when absent, set by "Yes", and any other value is
      an error naming the value received. */
  function StandardFlags(bag: Node): (r: Result<(bool, bool)>)
    ensures var a := AttrIn(bag, "isNonStandard");
            Present(a) && a != Some("Yes") ==> r == Err(Thrown(YesOnlyMessage("isNonStandard", a.value)))
    ensures var a := AttrIn(bag, "hasNoData");
            YesOnly("isNonStandard", AttrIn(bag, "isNonStandard")).Ok? && Present(a) && a != Some("Yes") ==>
              r == Err(Thrown(YesOnlyMessage("hasNoData", a.value)))
    ensures r.Ok? ==> && (!Present(AttrIn(bag, "isNonStandard")) || AttrIn(bag, "isNonStandard") == Some("Yes"))
                      && (!Present(AttrIn(bag, "hasNoData")) || AttrIn(bag, "hasNoData") == Some("Yes"))
                      && (r.value.0 <==> AttrIn(bag, "isNonStandard") == Some("Yes"))
                      && (r.value.1 <==> AttrIn(bag, "hasNoData") == Some("Yes"))
  {
    var isNonStandard :- YesOnly("isNonStandard", AttrIn(bag, "isNonStandard"));
    var hasNoData :- YesOnly("hasNoData", AttrIn(bag, "hasNoData"));
    Ok((isNonStandard, hasNoData))
  }

  /** The 2.1 parts, after `repeating`: the standard reference, the two
      "Yes"-only flags, the class, the domain and the reference-data flag, in
      that order, set on `base`; the fields read before stay as they are. */
  function WithStandardParts(n: Node, bag: Node, base: ItemGroupDef): (r: Result<ItemGroupDef>)
    ensures StandardFlags(bag).Err? ==> r == Err(StandardFlags(bag).error)
    ensures r.Ok? ==> && r.value.standardOid == IfPresent(AttrIn(bag, "standardOid"))
                      && StandardFlags(bag) == Ok((r.value.isNonStandard, r.value.hasNoData))
                      && ReadFrom(r.value.itemGroupClass, n, "class", ParseClass)
                      && r.value.domain == IfPresent(AttrIn(bag, "domain"))
                      && (r.value.isReferenceData.Some? <==> Present(AttrIn(bag, "isReferenceData")))
                      && (r.value.isReferenceData.Some? ==> (r.value.isReferenceData.value <==> AttrIn(bag, "isReferenceData") == Some("Yes")))
    ensures r.Ok? ==> && r.value.oid == base.oid && r.value.name == base.name && r.value.purpose == base.purpose
                      && r.value.repeating == base.repeating && r.value.itemRefs == base.itemRefs
    ensures var ref := AttrIn(bag, "isReferenceData");
            StandardFlags(bag).Ok? && WhenPresent(Lookup(n, "class"), ParseClass).Ok?
            && Present(ref) && ref != Some("Yes") && ref != Some("No") ==>
              r == Err(ReferenceDataError(Lookup(n, "isReferenceData")))
  {
    var flags :- StandardFlags(bag);
    var itemGroupClass :- WhenPresent(Lookup(n, "class"), ParseClass);
    var isReferenceData :- OptionalYesNo(AttrIn(bag, "isReferenceData"), ReferenceDataError(Lookup(n, "isReferenceData")));
    Ok(base.(standardOid := IfPresent(AttrIn(bag, "standardOid")), isNonStandard := flags.0, hasNoData := flags.1,
             itemGroupClass := itemGroupClass, domain := IfPresent(AttrIn(bag, "domain")), isReferenceData := isReferenceData))
  }

  /** The last parts: the comment OID, the description, the aliases and the
      dataset's leaf, set on `base`; the fields read before stay as they are. */
  function WithDescriptions(n: Node, bag: Node, base: ItemGroupDef): (r: Result<ItemGroupDef>)
    ensures r.Ok? ==> && r.value.commentOid == IfPresent(AttrIn(bag, "commentOid"))
                      && ReadFrom(r.value.description, n, "description", ParseTexts)
                      && ReadFrom(r.value.alias, n, "alias", ParseAliases)
                      && Ok(r.value.leaf) == DatasetLeaf(Lookup(n, "leaf"))
    ensures r.Ok? ==> r.value.(commentOid := base.commentOid, description := base.description, alias := base.alias,
                               leaf := base.leaf) == base
  {
    var description :- WhenPresent(Lookup(n, "description"), ParseTexts);
    var alias :- WhenPresent(Lookup(n, "alias"), ParseAliases);
    var leaf :- DatasetLeaf(Lookup(n, "leaf"));
    Ok(base.(commentOid := IfPresent(AttrIn(bag, "commentOid")), description := description, alias := alias, leaf := leaf))
  }

  /** The `forEach` callback of `parseItemGroups`: no node is skipped, and
      each is filed under its OID. */
  function ItemGroupEntry(n: Node): (r: Result<Option<(string, ItemGroupDef)>>)
    ensures ItemGroupBase(n).Err? ==> r == Err(ItemGroupBase(n).error)
    ensures var a := AttrAt(n, "isNonStandard");
            ItemGroupBase(n).Ok? && Present(a) && a != Some("Yes") ==> r == Err(Thrown(YesOnlyMessage("isNonStandard", a.value)))
    ensures var a := AttrAt(n, "hasNoData");
            ItemGroupBase(n).Ok? && YesOnly("isNonStandard", AttrAt(n, "isNonStandard")).Ok? && Present(a) && a != Some("Yes") ==>
              r == Err(Thrown(YesOnlyMessage("hasNoData", a.value)))
    ensures r.Ok? ==> && (!Present(AttrAt(n, "isNonStandard")) || AttrAt(n, "isNonStandard") == Some("Yes"))
                      && (!Present(AttrAt(n, "hasNoData")) || AttrAt(n, "hasNoData") == Some("Yes"))
    ensures r.Ok? ==> r.value.Some?
    ensures r.Ok? && r.value.Some? ==>
              var g := r.value.value.1;
              && r.value.value.0 == Show(g.oid) && g.oid == AttrAt(n, "oid")
              && Ok(g.itemRefs) == ParseItemRefs(Lookup(n, "itemRef"))
              && (g.repeating <==> AttrAt(n, "repeating") == Some("Yes"))
              && g.commentOid == IfPresent(AttrAt(n, "commentOid"))
              && ReadFrom(g.description, n, "description", ParseTexts)
    ensures r.Ok? && r.value.Some? ==>
              var g := r.value.value.1;
              && g.standardOid == IfPresent(AttrAt(n, "standardOid"))
              && (g.isNonStandard <==> AttrAt(n, "isNonStandard") == Some("Yes"))
              && (g.hasNoData <==> AttrAt(n, "hasNoData") == Some("Yes"))
              && ReadFrom(g.itemGroupClass, n, "class", ParseClass)
              && (g.isReferenceData.Some? <==> Present(AttrAt(n, "isReferenceData")))
  {
    var base :- ItemGroupBase(n);
    var bag := Lookup(n, "$").value;
    var withParts :- WithStandardParts(n, bag, base);
    var g :- WithDescriptions(n, bag, withParts);
    Ok(Some((Show(g.oid), g)))
  }

  function ParseItemGroups(raw: Option<Node>): (r: Result<OrderedMap<ItemGroupDef>>)
    ensures !Truthy(raw) ==> r == Ok(Empty())
    ensures Truthy(raw) && !raw.value.Arr? ==> r == Err(TypeError)
  {
    BuildFrom(raw, ItemGroupEntry)
  }

  lemma ItemGroupsFiledByOid(raw: Option<Node>)
    requires ParseItemGroups(raw).Ok?
    ensures var m := ParseItemGroups(raw).value; forall k :: k in m.entries ==> Show(m.entries[k].oid) == k
  {
    BuildFromAll(raw, ItemGroupEntry, (k: string, g: ItemGroupDef) => Show(g.oid) == k);
  }

  /** The message for a bad `isReferenceData` shows the element's child of
      that name, which a Define-XML element does not have, so it reads
      "undefined" whatever the attribute held. */
  lemma ReferenceDataMessageShowsChild(n: Node, bag: Node, base: ItemGroupDef, value: string)
    requires AttrIn(bag, "isReferenceData") == Some(value) && value != "" && value != "Yes" && value != "No"
    requires !Present(AttrIn(bag, "isNonStandard")) && !Present(AttrIn(bag, "hasNoData"))
    requires Lookup(n, "class").None? && Lookup(n, "isReferenceData").None?
    ensures WithStandardParts(n, bag, base) ==
              Err(Thrown("Invalid value for isReferenceData. Expected \"Yes\" or \"No\", received undefined"))
  {
  }

  // -------------------------------------------------------------- standards

  datatype Standard = Standard(
    oid: Attr,
    name: Attr,
    kind: Attr,
    version: Attr,
    publishingSet: Attr,
    status: Attr,
    commentOid: Attr)

  /** The `forEach` callback of `parseStandards`: no node is skipped; the
      four attributes every standard has, then the optional ones kept only
      when present. */
  function StandardEntry(n: Node): (r: Result<Option<(string, Standard)>>)
    ensures r.Err? <==> Lookup(n, "$").None?
    ensures r.Err? ==> r.error == TypeError
    ensures r.Ok? ==> r.value.Some?
    ensures r.Ok? && r.value.Some? ==>
              var d := r.value.value.1;
              && r.value.value.0 == Show(d.oid)
              && d.oid == AttrAt(n, "oid") && d.name == AttrAt(n, "name") && d.kind == AttrAt(n, "type")
              && d.version == AttrAt(n, "version")
              && d.publishingSet == IfPresent(AttrAt(n, "publishingSet")) && d.status == IfPresent(AttrAt(n, "status"))
              && d.commentOid == IfPresent(AttrAt(n, "commentOid"))
  {
    var bag :- Attrs(Some(n));
    var d := Standard(AttrIn(bag, "oid"), AttrIn(bag, "name"), AttrIn(bag, "type"), AttrIn(bag, "version"),
                      IfPresent(AttrIn(bag, "publishingSet")), IfPresent(AttrIn(bag, "status")),
                      IfPresent(AttrIn(bag, "commentOid")));
    Ok(Some((Show(d.oid), d)))
  }

  /** `first.standard.forEach(...)`: the `standard` children of a
      `Standards` element must be an array. */
  function StandardsIn(first: Node): (r: Result<OrderedMap<Standard>>)
    ensures var children := Lookup(first, "standard");
            && (!(children.Some? && children.value.Arr?) ==> r == Err(TypeError))
            && (children.Some? && children.value.Arr? ==> r == Build(children.value.items, StandardEntry))
  {
    var nodes :- AsArray(Lookup(first, "standard"));
    Build(nodes, StandardEntry)
  }

  /** `raw[0]?.standard.forEach(...)` unless `raw` is falsy: only the first
      `Standards` element is read, and without one the map is empty. */
  function ParseStandards(raw: Option<Node>): (r: Result<OrderedMap<Standard>>)
    ensures !Truthy(raw) ==> r == Ok(Empty())
    ensures Truthy(raw) && Index0(raw.value).None? ==> r == Ok(Empty())
    ensures Truthy(raw) && Index0(raw.value).Some? ==> r == StandardsIn(Index0(raw.value).value)
  {
    if !Truthy(raw) then Ok(Empty())
    else match Index0(raw.value)
      case None => Ok(Empty())
      case Some(first) => StandardsIn(first)
  }

  /** Every standard is filed under its own OID. */
  lemma StandardsFiledByOid(raw: Option<Node>)
    requires ParseStandards(raw).Ok?
    ensures var m := ParseStandards(raw).value; forall k :: k in m.entries ==> Show(m.entries[k].oid) == k
  {
    var P := (k: string, d: Standard) => Show(d.oid) == k;
    if Truthy(raw) && Index0(raw.value).Some? {
      var nodes := Lookup(Index0(raw.value).value, "standard").value.items;
      EntriesAll(nodes, StandardEntry, P);
      FromPairsAll(Entries(nodes, StandardEntry).value, P);
    }
  }

  /** `Standards` elements after the first are never read. */
  lemma StandardsFirstOnly(first: Node, rest: seq<Node>)
    ensures ParseStandards(Some(Arr([first] + rest))) == ParseStandards(Some(Arr([first])))
  {
    assert ([first] + rest)[0] == first;
  }

  const StandardAttrs := ["oid", "name", "type", "version", "publishingSet", "status", "commentOid"]

  function StandardKey(d: Standard): string {
    Show(d.oid)
  }

  function StandardValues(d: Standard): seq<Option<Node>> {
    [AttrNode(d.oid), AttrNode(d.name), AttrNode(d.kind), AttrNode(d.version), AttrNode(d.publishingSet),
     AttrNode(d.status), AttrNode(d.commentOid)]
  }

  function StandardElement(d: Standard): Node {
    BagOnly(Obj(Fields(StandardAttrs, StandardValues(d))))
  }

  /** A `Standards` element holding one `Standard` element per record. */
  function StandardsElement(ds: seq<Standard>): Node {
    Obj(Fields(["standard"], [Some(Arr(WriteAll(ds, StandardElement)))]))
  }

  predicate StandardWritable(d: Standard) {
    Kept(d.publishingSet) && Kept(d.status) && Kept(d.commentOid)
  }

  lemma StandardBagReads(d: Standard)
    ensures var bag := Obj(Fields(StandardAttrs, StandardValues(d)));
            && AttrIn(bag, "oid") == d.oid && AttrIn(bag, "name") == d.name && AttrIn(bag, "type") == d.kind
            && AttrIn(bag, "version") == d.version && AttrIn(bag, "publishingSet") == d.publishingSet
            && AttrIn(bag, "status") == d.status && AttrIn(bag, "commentOid") == d.commentOid
  {
    var values := StandardValues(d);
    FindFields(StandardAttrs, values, 0);
    FindFields(StandardAttrs, values, 1);
    FindFields(StandardAttrs, values, 2);
    FindFields(StandardAttrs, values, 3);
    FindFields(StandardAttrs, values, 4);
    FindFields(StandardAttrs, values, 5);
    FindFields(StandardAttrs, values, 6);
  }

  lemma StandardRoundTrip(d: Standard)
    requires StandardWritable(d)
    ensures StandardEntry(StandardElement(d)) == Ok(Some((StandardKey(d), d)))
  {
    BagOnlyReads(Obj(Fields(StandardAttrs, StandardValues(d))));
    StandardBagReads(d);
  }

  /** The `forEach` over standards written out element by element yields
      each standard under its OID, in order. */
  lemma StandardEntriesRead(ds: seq<Standard>)
    requires forall i :: 0 <= i < |ds| ==> StandardWritable(ds[i])
    ensures Entries(WriteAll(ds, StandardElement), StandardEntry) == Ok(Keyed(ds, StandardKey))
  {
    forall i | 0 <= i < |ds| ensures StandardEntry(StandardElement(ds[i])) == Ok(Some((StandardKey(ds[i]), ds[i]))) {
      StandardRoundTrip(ds[i]);
    }
    EntriesWriteAll(ds, StandardElement, StandardEntry, StandardKey);
  }

  lemma StandardsElementReads(ds: seq<Standard>)
    ensures Lookup(StandardsElement(ds), "standard") == Some(Arr(WriteAll(ds, StandardElement)))
  {
    FindFields(["standard"], [Some(Arr(WriteAll(ds, StandardElement)))], 0);
  }

  /** Standards written out in one `Standards` element are read back as the
      ordered map of those standards, filed under their OIDs in document
      order. */
  lemma StandardsRoundTrip(ds: seq<Standard>)
    requires forall i :: 0 <= i < |ds| ==> StandardWritable(ds[i])
    ensures ParseStandards(Some(Arr([StandardsElement(ds)]))) == Ok(FromPairs(Keyed(ds, StandardKey)))
  {
    StandardsElementReads(ds);
    StandardEntriesRead(ds);
    StandardsRead(StandardsElement(ds), WriteAll(ds, StandardElement), Keyed(ds, StandardKey));
  }

  /** A `Standards` element read first: its `standard` children make the map. */
  lemma StandardsRead(e: Node, nodes: seq<Node>, pairs: seq<(string, Standard)>)
    requires Lookup(e, "standard") == Some(Arr(nodes))
    requires Entries(nodes, StandardEntry) == Ok(pairs)
    ensures ParseStandards(Some(Arr([e]))) == Ok(FromPairs(pairs))
  {
    assert Index0(Arr([e])) == Some(e);
  }

  // ------------------------------------------------------ metadata version

  datatype MetaDataVersion = MetaDataVersion(
    oid: Attr,
    name: Attr,
    description: Attr,
    defineVersion: Attr,
    commentOid: Attr,
    standards: OrderedMap<Standard>,
    itemGroupDefs: OrderedMap<ItemGroupDef>,
    itemDefs: OrderedMap<ItemDef>,
    annotatedCrf: Option<seq<DocumentRef>>,
    supplementalDoc: Option<seq<DocumentRef>>,
    valueListDefs: Option<OrderedMap<ValueListDef>>,
    whereClauseDefs: Option<OrderedMap<WhereClauseDef>>,
    codeLists: Option<OrderedMap<CodeList>>,
    methodDefs: Option<OrderedMap<MethodDef>>,
    commentDefs: Option<OrderedMap<CommentDef>>,
    leafs: Option<OrderedMap<Leaf>>)

  /** The optional document references and the value-list and where-clause
      maps, set on `base` one after the other, each only when its child
      exists; nothing else changes. */
  function WithReferences(m: Node, base: MetaDataVersion): (r: Result<MetaDataVersion>)
    ensures r.Ok? ==> && ReadFrom(r.value.annotatedCrf, m, "annotatedCrf", Define21Core.ParseDocumentRefs)
                      && ReadFrom(r.value.supplementalDoc, m, "supplementalDoc", Define21Core.ParseDocumentRefs)
                      && ReadFrom(r.value.valueListDefs, m, "valueListDef", ParseValueLists)
                      && ReadFrom(r.value.whereClauseDefs, m, "whereClauseDef", ParseWhereClauses)
    ensures r.Ok? ==> r.value.(annotatedCrf := base.annotatedCrf, supplementalDoc := base.supplementalDoc,
                               valueListDefs := base.valueListDefs, whereClauseDefs := base.whereClauseDefs) == base
  {
    var annotatedCrf :- WhenPresent(Lookup(m, "annotatedCrf"), Define21Core.ParseDocumentRefs);
    var supplementalDoc :- WhenPresent(Lookup(m, "supplementalDoc"), Define21Core.ParseDocumentRefs);
    var valueListDefs :- WhenPresent(Lookup(m, "valueListDef"), ParseValueLists);
    var whereClauseDefs :- WhenPresent(Lookup(m, "whereClauseDef"), ParseWhereClauses);
    Ok(base.(annotatedCrf := annotatedCrf, supplementalDoc := supplementalDoc,
             valueListDefs := valueListDefs, whereClauseDefs := whereClauseDefs))
  }

  /** The code-list, method, comment and leaf maps, set on `base` one after
      the other, each only when its child exists; nothing else changes. */
  function WithDefinitions(m: Node, base: MetaDataVersion): (r: Result<MetaDataVersion>)
    ensures r.Ok? ==> && ReadFrom(r.value.codeLists, m, "codeList", ParseCodeLists)
                      && ReadFrom(r.value.methodDefs, m, "methodDef", ParseMethodDefs)
                      && ReadFrom(r.value.commentDefs, m, "commentDef", ParseCommentDefs)
                      && ReadFrom(r.value.leafs, m, "leaf", ParseLeafs)
    ensures r.Ok? ==> r.value.(codeLists := base.codeLists, methodDefs := base.methodDefs,
                               commentDefs := base.commentDefs, leafs := base.leafs) == base
  {
    var codeLists :- WhenPresent(Lookup(m, "codeList"), ParseCodeLists);
    var methodDefs :- WhenPresent(Lookup(m, "methodDef"), ParseMethodDefs);
    var commentDefs :- WhenPresent(Lookup(m, "commentDef"), ParseCommentDefs);
    var leafs :- WhenPresent(Lookup(m, "leaf"), ParseLeafs);
    Ok(base.(codeLists := codeLists, methodDefs := methodDefs, commentDefs := commentDefs, leafs := leafs))
  }

  /** The three collections read before anything else, in this order: item
      groups, item definitions and standards. */
  function MetaDataVersionMaps(m: Node): (r: Result<(OrderedMap<ItemGroupDef>, OrderedMap<ItemDef>, OrderedMap<Standard>)>)
    ensures ParseItemGroups(Lookup(m, "itemGroupDef")).Err? ==> r == Err(ParseItemGroups(Lookup(m, "itemGroupDef")).error)
    ensures r.Ok? ==> && Ok(r.value.0) == ParseItemGroups(Lookup(m, "itemGroupDef"))
                      && Ok(r.value.1) == ParseItemDefs(Lookup(m, "itemDef"))
                      && Ok(r.value.2) == ParseStandards(Lookup(m, "standards"))
  {
    var itemGroupDefs :- ParseItemGroups(Lookup(m, "itemGroupDef"));
    var itemDefs :- ParseItemDefs(Lookup(m, "itemDef"));
    var standards :- ParseStandards(Lookup(m, "standards"));
    Ok((itemGroupDefs, itemDefs, standards))
  }

  /** Called on `metaDataVersion[0]`, which may be undefined: the three
      collections, then the attributes, then the optional collections, each
      attached only when its child exists. */
  function ParseMetaDataVersion(raw: Option<Node>): (r: Result<MetaDataVersion>)
    ensures raw.None? ==> r == Err(TypeError)
    ensures raw.Some? && MetaDataVersionMaps(raw.value).Ok? && Lookup(raw.value, "$").None? ==> r == Err(TypeError)
    ensures r.Ok? ==>
              var v := r.value;
              && v.oid == AttrAt(raw.value, "oid") && v.name == AttrAt(raw.value, "name")
              && v.description == AttrAt(raw.value, "description") && v.defineVersion == AttrAt(raw.value, "defineVersion")
              && v.commentOid == IfPresent(AttrAt(raw.value, "commentOid"))
              && Ok((v.itemGroupDefs, v.itemDefs, v.standards)) == MetaDataVersionMaps(raw.value)
    ensures r.Ok? ==>
              var v := r.value;
              && ReadFrom(v.annotatedCrf, raw.value, "annotatedCrf", Define21Core.ParseDocumentRefs)
              && ReadFrom(v.supplementalDoc, raw.value, "supplementalDoc", Define21Core.ParseDocumentRefs)
              && ReadFrom(v.valueListDefs, raw.value, "valueListDef", ParseValueLists)
              && ReadFrom(v.whereClauseDefs, raw.value, "whereClauseDef", ParseWhereClauses)
              && ReadFrom(v.codeLists, raw.value, "codeList", ParseCodeLists)
              && ReadFrom(v.methodDefs, raw.value, "methodDef", ParseMethodDefs)
              && ReadFrom(v.commentDefs, raw.value, "commentDef", ParseCommentDefs)
              && ReadFrom(v.leafs, raw.value, "leaf", ParseLeafs)
  {
    if raw.None? then Err(TypeError)
    else
      var maps :- MetaDataVersionMaps(raw.value);
      var bag :- Attrs(raw);
      var record := MetaDataVersion(AttrIn(bag, "oid"), AttrIn(bag, "name"), AttrIn(bag, "description"),
                                    AttrIn(bag, "defineVersion"), IfPresent(AttrIn(bag, "commentOid")),
                                    maps.2, maps.0, maps.1, None, None, None, None, None, None, None, None);
      var withReferences :- WithReferences(raw.value, record);
      WithDefinitions(raw.value, withReferences)
  }

  // ------------------------------------------------------------- study, ODM

  datatype Study = Study(studyOid: Attr, globalVariables: GlobalVariables, metaDataVersion: MetaDataVersion)

  /** Called on `study[0]`: the OID, the first global-variables element and
      the first metadata version, in that order. */
  function ParseStudy(raw: Option<Node>): (r: Result<Study>)
    ensures raw.None? || Lookup(raw.value, "$").None? ==> r == Err(TypeError)
    ensures r.Ok? ==> raw.Some? && r.value.studyOid == AttrAt(raw.value, "oid")
    ensures r.Ok? ==> Lookup(raw.value, "globalVariables").Some? && Lookup(raw.value, "metaDataVersion").Some?
    ensures r.Ok? ==> Ok(r.value.globalVariables) == ParseGlobalVariables(Index0(Lookup(raw.value, "globalVariables").value))
                      && Ok(r.value.metaDataVersion) == ParseMetaDataVersion(Index0(Lookup(raw.value, "metaDataVersion").value))
  {
    var bag :- Attrs(raw);
    var globals :- At0(Lookup(raw.value, "globalVariables"));
    var globalVariables :- ParseGlobalVariables(globals);
    var first :- At0(Lookup(raw.value, "metaDataVersion"));
    var metaDataVersion :- ParseMetaDataVersion(first);
    Ok(Study(AttrIn(bag, "oid"), globalVariables, metaDataVersion))
  }

  datatype Odm = Odm(
    xmlns: Attr,
    xmlnsDef: Attr,
    xsiSchemaLocation: Attr,
    odmVersion: string,
    fileType: string,
    fileOid: Attr,
    creationDateTime: Attr,
    study: Study,
    context: Attr,
    asOfDateTime: Attr,
    originator: Attr,
    sourceSystem: Attr,
    sourceSystemVersion: Attr,
    xmlnsXlink: Attr,
    xmlnsXsi: Attr)

  /** Unlike 2.0, the attribute bag is read before the study; the ODM
      version and file type are the constants of 2.0, and the optional
      attributes are copied only when present. */
  function ParseOdm(odm: Node): (r: Result<Odm>)
    ensures Lookup(odm, "$").None? ==> r == Err(TypeError)
    ensures Lookup(odm, "$").Some? && Lookup(odm, "study").None? ==> r == Err(TypeError)
    ensures r.Ok? ==> Ok(r.value.study) == ParseStudy(Index0(Lookup(odm, "study").value))
    ensures r.Ok? ==> r.value.odmVersion == Define20.OdmVersion && r.value.fileType == Define20.FileType
    ensures r.Ok? ==> r.value.xmlns == AttrAt(odm, "xmlns") && r.value.xmlnsDef == AttrAt(odm, "xmlns:def")
                      && r.value.xsiSchemaLocation == AttrAt(odm, "xsi:schemaLocation")
                      && r.value.fileOid == AttrAt(odm, "fileOid") && r.value.creationDateTime == AttrAt(odm, "creationDateTime")
                      && r.value.context == AttrAt(odm, "context")
    ensures r.Ok? ==> r.value.asOfDateTime == IfPresent(AttrAt(odm, "asOfDateTime"))
                      && r.value.originator == IfPresent(AttrAt(odm, "originator"))
                      && r.value.sourceSystem == IfPresent(AttrAt(odm, "sourceSystem"))
                      && r.value.sourceSystemVersion == IfPresent(AttrAt(odm, "sourceSystemVersion"))
                      && r.value.xmlnsXlink == IfPresent(AttrAt(odm, "xmlns:xlink"))
                      && r.value.xmlnsXsi == IfPresent(AttrAt(odm, "xmlns:xsi"))
  {
    var bag :- Attrs(Some(odm));
    var first :- At0(Lookup(odm, "study"));
    var study :- ParseStudy(first);
    Ok(Odm(AttrIn(bag, "xmlns"), AttrIn(bag, "xmlns:def"), AttrIn(bag, "xsi:schemaLocation"),
           Define20.OdmVersion, Define20.FileType, AttrIn(bag, "fileOid"), AttrIn(bag, "creationDateTime"), study,
           AttrIn(bag, "context"), IfPresent(AttrIn(bag, "asOfDateTime")), IfPresent(AttrIn(bag, "originator")),
           IfPresent(AttrIn(bag, "sourceSystem")), IfPresent(AttrIn(bag, "sourceSystemVersion")),
           IfPresent(AttrIn(bag, "xmlns:xlink")), IfPresent(AttrIn(bag, "xmlns:xsi"))))
  }

  // ------------------------------------------------------------ entry point

  datatype DefineXml = DefineXml(prolog: Reading.Prolog, odm: Odm)

  /** `parseDefineXml(xmlString)` after the XML has been read: the prolog is
      passed through, a failed read or a missing ODM root is an error, and
      the ODM element is mapped. */
  function ParseDefineXml(prolog: Reading.Prolog, read: Reading.ReadOutcome): (r: Result<DefineXml>)
    ensures read.ReadFailed? ==> r == Err(Thrown(Reading.ReadError(read.message)))
    ensures Reading.OdmRoot(read).Err? ==> r == Err(Reading.OdmRoot(read).error)
    ensures r.Ok? ==> r.value.prolog == prolog && Reading.OdmRoot(read).Ok?
    ensures Reading.OdmRoot(read).Ok? ==> r == Lift(ParseOdm(Reading.OdmRoot(read).value), odm => DefineXml(prolog, odm))
  {
    var odm :- Reading.OdmRoot(read);
    var mapped :- ParseOdm(odm);
    Ok(DefineXml(prolog, mapped))
  }
}
