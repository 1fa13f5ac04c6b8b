/**
 * The field mappers Define-XML 2.0 and 2.1 share (src/parser/define.core.ts;
 * src/parser/define.21.ts carries private copies of them with the same text):
 * translated text, aliases, leafs, where-clauses and range checks,
 * enumerated and code-list items, external code lists, formal expressions
 * and global variables, and the attribute checks both versions perform.
 *
 * Each record has a writer beside its mapper: the element an XML reader
 * produces for that record. The round-trip lemmas state that the mapper
 * reads every record back from its element.
 */
module DefineCore {
  import opened Base
  import opened Tree
  import opened OrderedMaps

  // ---------------------------------------------------------------- checks

  function YesOnlyMessage(field: string, received: string): string {
    "Invalid value for " + field + ". Expected \"Yes\", received " + received
  }

  /** A flag that may only say "Yes": absent or empty leaves it unset, "Yes"
      sets it, and anything else is an error naming the value received. */
  function YesOnly(field: string, a: Attr): (r: Result<bool>)
    ensures r == Ok(true) <==> a == Some("Yes")
    ensures r == Ok(false) <==> !Present(a)
    ensures r.Err? <==> Present(a) && a.value != "Yes"
    ensures r.Err? ==> r.error == Thrown(YesOnlyMessage(field, a.value))
  {
    if !Present(a) then Ok(false)
    else if a.value == "Yes" then Ok(true)
    else Err(Thrown(YesOnlyMessage(field, a.value)))
  }

  /** How a writer puts such a flag: "Yes" when set, nothing otherwise. */
  function YesOnlyAttr(flag: bool): Attr {
    if flag then Some("Yes") else None
  }

  /** The flag read back is the flag written, and a flag read without error
      is written back as the attribute it was read from, up to absence. */
  lemma YesOnlyRoundTrip(field: string, flag: bool, a: Attr)
    ensures YesOnly(field, YesOnlyAttr(flag)) == Ok(flag)
    ensures YesOnly(field, a) == Ok(flag) ==> IfPresent(a) == YesOnlyAttr(flag)
  {
  }

  /** A Yes/No attribute read strictly: "Yes" is true, "No" is false, and
      anything else, absence included, is the given failure. */
  function YesNo(a: Attr, failure: Error): (r: Result<bool>)
    ensures r.Ok? <==> a == Some("Yes") || a == Some("No")
    ensures r.Ok? ==> (r.value <==> a == Some("Yes"))
    ensures r.Err? ==> r.error == failure
  {
    if a == Some("Yes") then Ok(true)
    else if a == Some("No") then Ok(false)
    else Err(failure)
  }

  function YesNoAttr(b: bool): Attr {
    Some(if b then "Yes" else "No")
  }

  lemma YesNoRoundTrip(b: bool, a: Attr, failure: Error)
    ensures YesNo(YesNoAttr(b), failure) == Ok(b)
    ensures YesNo(a, failure) == Ok(b) ==> a == YesNoAttr(b)
  {
  }

  /** A Yes/No attribute checked only when present. */
  function OptionalYesNo(a: Attr, failure: Error): (r: Result<Option<bool>>)
    ensures !Present(a) ==> r == Ok(None)
    ensures Present(a) ==> (r.Ok? <==> a == Some("Yes") || a == Some("No"))
    ensures r.Ok? && r.value.Some? ==> (r.value.value <==> a == Some("Yes"))
    ensures r.Err? ==> r.error == failure
  {
    if Present(a) then
      var b :- YesNo(a, failure);
      Ok(Some(b))
    else Ok(None)
  }

  /** `if (bag[name]) r.f = Number(bag[name])`. */
  function OptionalNumber(a: Attr): (r: Option<Number>)
    ensures r.Some? <==> Present(a)
    ensures r.Some? && r.value.NotDecimal? ==> r.value.text == a.value
  {
    if Present(a) then Some(ToNumber(a.value)) else None
  }

  function NumberText(n: Number): string {
    match n
    case Decimal(v) => DecimalText(v)
    case NotDecimal(t) => t
  }

  /** A number a writer can put: any decimal, or a text that is not empty and
      not a plain run of digits. */
  predicate NumberWritable(n: Option<Number>) {
    n.Some? && n.value.NotDecimal? ==> n.value.text != "" && !IsDigits(n.value.text)
  }

  function NumberAttr(n: Option<Number>): Attr {
    if n.Some? then Some(NumberText(n.value)) else None
  }

  lemma OptionalNumberRoundTrip(n: Option<Number>)
    requires NumberWritable(n)
    ensures OptionalNumber(NumberAttr(n)) == n
  {
    if n.Some? && n.value.Decimal? {
      ToNumberDecimalText(n.value.n);
    }
  }

  /** An optional attribute a writer can put: absent, or not empty. */
  predicate Kept(a: Attr) {
    a.None? || a.value != ""
  }

  // --------------------------------------------------------------- layouts

  /** The attribute and child names the writers below lay elements out with. */
  const AliasAttrs := ["context", "name"]
  const LeafAttrs := ["id", "xlink:href"]
  const LeafChildren := ["$", "title"]
  const BagAndValue := ["$", "value"]
  const RangeCheckAttrs := ["comparator", "softHard", "itemOid"]
  const RangeCheckChildren := ["$", "checkValue"]
  const WhereClauseAttrs := ["oid", "commentOid"]
  const WhereClauseChildren := ["$", "rangeCheck"]
  const ItemAttrs := ["codedValue", "rank", "orderNumber", "extendedValue"]
  const EnumeratedItemChildren := ["$", "alias"]
  const CodeListItemChildren := ["$", "decode", "alias"]
  const ExternalCodeListAttrs := ["dictionary", "version", "ref", "href"]
  const GlobalVariablesChildren := ["studyName", "studyDescription", "protocolName"]

  /** An element with only an attribute bag. */
  function BagOnly(bag: Node): Node {
    Obj(Fields(["$"], [Some(bag)]))
  }

  lemma BagOnlyReads(bag: Node)
    ensures Lookup(BagOnly(bag), "$") == Some(bag)
  {
    FindFields(["$"], [Some(bag)], 0);
  }

  /** A child list holding the given value first, or nothing. */
  function First(v: Option<Node>): Node {
    Arr(if v.Some? then [v.value] else [])
  }

  // ------------------------------------------------------ translated text

  datatype TranslatedText = TranslatedText(value: Node, xmlLang: Attr)

  /** Takes the first `translatedText` child; its text is `value` when that
      is truthy and the child itself otherwise (a bare string); `xml:lang`
      is kept only when present. */
  function ParseTranslatedText(raw: Node): (r: Result<TranslatedText>)
    ensures Lookup(raw, "translatedText").None? ==> r == Err(TypeError)
    ensures r.Ok? ==> Kept(r.value.xmlLang)
  {
    var text :- At0(Lookup(raw, "translatedText"));
    var value :- Get(text, "value");
    var bag := Lookup(text.value, "$");
    var lang := if Truthy(bag) then IfPresent(AttrIn(bag.value, "xml:lang")) else None;
    Ok(TranslatedText(if Truthy(value) then value.value else text.value, lang))
  }

  /** A translated text as an element: a bare string without a language,
      an element with an `xml:lang` attribute and a text otherwise. */
  function TextElement(t: TranslatedText): Node {
    var text :=
      if t.xmlLang.Some? then
        Obj(Fields(BagAndValue, [Some(Obj(Fields(["xml:lang"], [AttrNode(t.xmlLang)]))), Some(t.value)]))
      else t.value;
    Obj(Fields(["translatedText"], [Some(First(Some(text)))]))
  }

  predicate TextWritable(t: TranslatedText) {
    t.value.Str? && t.value.s != "" && Kept(t.xmlLang)
  }

  lemma TranslatedTextRoundTrip(t: TranslatedText)
    requires TextWritable(t)
    ensures ParseTranslatedText(TextElement(t)) == Ok(t)
  {
    if t.xmlLang.Some? {
      var values := [Some(Obj(Fields(["xml:lang"], [AttrNode(t.xmlLang)]))), Some(t.value)];
      FindFields(BagAndValue, values, 0);
      FindFields(BagAndValue, values, 1);
      FindFields(["xml:lang"], [AttrNode(t.xmlLang)], 0);
      FindFields(["translatedText"], [Some(First(Some(Obj(Fields(BagAndValue, values)))))], 0);
    } else {
      FindFields(["translatedText"], [Some(First(Some(t.value)))], 0);
    }
  }

  /** A text element with a language but no text: its value is the whole
      element, attribute bag included. */
  lemma TranslatedTextWithoutText(lang: string)
    requires lang != ""
    ensures var text := Obj(Fields(BagAndValue, [Some(Obj(Fields(["xml:lang"], [Some(Str(lang))]))), None]));
            ParseTranslatedText(Obj(Fields(["translatedText"], [Some(First(Some(text)))]))) == Ok(TranslatedText(text, Some(lang)))
  {
    var values := [Some(Obj(Fields(["xml:lang"], [Some(Str(lang))]))), None];
    FindFields(BagAndValue, values, 0);
    FindFields(BagAndValue, values, 1);
    FindFields(["xml:lang"], [Some(Str(lang))], 0);
    FindFields(["translatedText"], [Some(First(Some(Obj(Fields(BagAndValue, values)))))], 0);
  }

  /** `raw.map(parseTranslatedText)`: one text per element, in order. */
  function ParseTexts(raw: Option<Node>): (r: Result<seq<TranslatedText>>)
    ensures !(raw.Some? && raw.value.Arr?) ==> r == Err(TypeError)
    ensures r.Ok? ==> |r.value| == |raw.value.items|
                      && forall i :: 0 <= i < |r.value| ==> Kept(r.value[i].xmlLang)
  {
    MapOver(raw, ParseTranslatedText)
  }

  function TextsNode(ts: seq<TranslatedText>): Option<Node> {
    Some(Arr(WriteAll(ts, TextElement)))
  }

  lemma TextsRoundTrip(ts: seq<TranslatedText>)
    requires forall i :: 0 <= i < |ts| ==> TextWritable(ts[i])
    ensures ParseTexts(TextsNode(ts)) == Ok(ts)
  {
    forall i | 0 <= i < |ts| ensures ParseTranslatedText(TextElement(ts[i])) == Ok(ts[i]) {
      TranslatedTextRoundTrip(ts[i]);
    }
    MapOverWriteAll(ts, TextElement, ParseTranslatedText);
  }

  // --------------------------------------------------------------- aliases

  datatype Alias = Alias(context: Attr, name: Attr)

  function ParseAlias(raw: Node): (r: Result<Alias>)
    ensures r.Err? <==> Lookup(raw, "$").None?
    ensures r.Ok? ==> r.value == Alias(AttrAt(raw, "context"), AttrAt(raw, "name"))
  {
    var bag :- Attrs(Some(raw));
    Ok(Alias(AttrIn(bag, "context"), AttrIn(bag, "name")))
  }

  /** `aliasesRaw.map(...)`, with no guard: one alias per element, in order,
      and a TypeError for an element without attributes. */
  function ParseAliases(raw: Option<Node>): (r: Result<seq<Alias>>)
    ensures !(raw.Some? && raw.value.Arr?) ==> r == Err(TypeError)
    ensures r.Ok? <==> raw.Some? && raw.value.Arr?
                       && forall i :: 0 <= i < |raw.value.items| ==> Lookup(raw.value.items[i], "$").Some?
    ensures r.Ok? ==> |r.value| == |raw.value.items|
  {
    MapOver(raw, ParseAlias)
  }

  function AliasElement(a: Alias): Node {
    BagOnly(Obj(Fields(AliasAttrs, [AttrNode(a.context), AttrNode(a.name)])))
  }

  function AliasesNode(al: Option<seq<Alias>>): Option<Node> {
    if al.Some? then Some(Arr(WriteAll(al.value, AliasElement))) else None
  }

  lemma AliasRoundTrip(a: Alias)
    ensures ParseAlias(AliasElement(a)) == Ok(a)
  {
    var bag := Obj(Fields(AliasAttrs, [AttrNode(a.context), AttrNode(a.name)]));
    BagOnlyReads(bag);
    FindFields(AliasAttrs, [AttrNode(a.context), AttrNode(a.name)], 0);
    FindFields(AliasAttrs, [AttrNode(a.context), AttrNode(a.name)], 1);
  }

  lemma AliasesRoundTrip(al: seq<Alias>)
    ensures ParseAliases(AliasesNode(Some(al))) == Ok(al)
  {
    forall i | 0 <= i < |al| ensures ParseAlias(AliasElement(al[i])) == Ok(al[i]) {
      AliasRoundTrip(al[i]);
    }
    MapOverWriteAll(al, AliasElement, ParseAlias);
  }

  // ----------------------------------------------------------------- leafs

  datatype Leaf = Leaf(id: Attr, xlinkHref: Attr, title: Option<Node>)

  /** The `forEach` callback of `parseLeafs`: a node without an attribute
      bag is skipped; any other is filed under its `id`. */
  function LeafEntry(n: Node): (r: Result<Option<(string, Leaf)>>)
    ensures r == Ok(None) <==> !Truthy(Lookup(n, "$"))
    ensures r.Err? <==> Truthy(Lookup(n, "$")) && Lookup(n, "title").None?
    ensures r.Ok? && r.value.Some? ==> r.value.value.0 == Show(r.value.value.1.id)
  {
    if !Truthy(Lookup(n, "$")) then Ok(None)
    else
      var bag := Lookup(n, "$").value;
      var title :- At0(Lookup(n, "title"));
      var leaf := Leaf(AttrIn(bag, "id"), AttrIn(bag, "xlink:href"), title);
      Ok(Some((Show(leaf.id), leaf)))
  }

  function ParseLeafs(raw: Option<Node>): (r: Result<OrderedMap<Leaf>>)
    ensures !Truthy(raw) ==> r == Ok(Empty())
    ensures Truthy(raw) && !raw.value.Arr? ==> r == Err(TypeError)
  {
    BuildFrom(raw, LeafEntry)
  }

  /** Every leaf is filed under its own id. */
  lemma LeafsFiledById(raw: Option<Node>)
    requires ParseLeafs(raw).Ok?
    ensures forall k :: k in ParseLeafs(raw).value.entries ==> Show(ParseLeafs(raw).value.entries[k].id) == k
  {
    BuildFromAll(raw, LeafEntry, (k: string, l: Leaf) => Show(l.id) == k);
  }

  function LeafKey(l: Leaf): string {
    Show(l.id)
  }

  function LeafElement(l: Leaf): Node {
    Obj(Fields(LeafChildren, [Some(Obj(Fields(LeafAttrs, [AttrNode(l.id), AttrNode(l.xlinkHref)]))), Some(First(l.title))]))
  }

  lemma LeafRoundTrip(l: Leaf)
    ensures LeafEntry(LeafElement(l)) == Ok(Some((LeafKey(l), l)))
  {
    var attrs := [AttrNode(l.id), AttrNode(l.xlinkHref)];
    FindFields(LeafAttrs, attrs, 0);
    FindFields(LeafAttrs, attrs, 1);
    FindFields(LeafChildren, [Some(Obj(Fields(LeafAttrs, attrs))), Some(First(l.title))], 0);
    FindFields(LeafChildren, [Some(Obj(Fields(LeafAttrs, attrs))), Some(First(l.title))], 1);
  }

  /** Leafs written in order are read back in order, each under its id, a
      later leaf replacing an earlier one with the same id. */
  lemma LeafsRoundTrip(ls: seq<Leaf>)
    ensures ParseLeafs(Some(Arr(WriteAll(ls, LeafElement)))) == Ok(FromPairs(Keyed(ls, LeafKey)))
  {
    forall i | 0 <= i < |ls| ensures LeafEntry(LeafElement(ls[i])) == Ok(Some((LeafKey(ls[i]), ls[i]))) {
      LeafRoundTrip(ls[i]);
    }
    BuildFromWriteAll(ls, LeafElement, LeafEntry, LeafKey);
  }

  // ------------------------------------------------ where-clauses and checks

  /** A check value is the element's `_` key when truthy, else the element. */
  function CheckValue(cv: Node): (r: Result<Node>)
    ensures r.Ok?
    ensures !Truthy(Lookup(cv, "_")) ==> r.value == cv
    ensures Truthy(Lookup(cv, "_")) ==> Some(r.value) == Lookup(cv, "_")
  {
    Ok(if Truthy(Lookup(cv, "_")) then Lookup(cv, "_").value else cv)
  }

  function ParseCheckValues(raw: Option<Node>): (r: Result<seq<Node>>)
    ensures !Truthy(raw) ==> r == Ok([])
    ensures Truthy(raw) ==> (r.Ok? <==> raw.value.Arr?)
    ensures r.Ok? && Truthy(raw) ==> |r.value| == |raw.value.items|
  {
    MapIfPresent(raw, CheckValue)
  }

  /** The reader puts element text under "value", not "_": a check value
      element with attributes is kept whole rather than reduced to its text. */
  lemma CheckValueIgnoresTextKey(bag: Node, text: string)
    ensures var cv := Obj(Fields(BagAndValue, [Some(bag), Some(Str(text))]));
            CheckValue(cv) == Ok(cv)
  {
    FindAbsent(BagAndValue, [Some(bag), Some(Str(text))], "_");
  }

  lemma CheckValuesRoundTrip(cvs: seq<Node>)
    requires forall i :: 0 <= i < |cvs| ==> !Truthy(Lookup(cvs[i], "_"))
    ensures ParseCheckValues(Some(Arr(cvs))) == Ok(cvs)
  {
    var r := ParseCheckValues(Some(Arr(cvs)));
    assert r.Ok? ==> r.value == cvs;
  }

  datatype RangeCheck = RangeCheck(comparator: Attr, softHard: Attr, itemOid: Attr, checkValues: seq<Node>)

  function ParseRangeCheck(rc: Node): (r: Result<RangeCheck>)
    ensures Lookup(rc, "$").None? ==> r == Err(TypeError)
    ensures r.Ok? ==> r.value.itemOid == AttrAt(rc, "itemOid") && r.value.comparator == AttrAt(rc, "comparator")
                      && r.value.softHard == AttrAt(rc, "softHard")
    ensures r.Ok? && !Truthy(Lookup(rc, "checkValue")) ==> r.value.checkValues == []
  {
    var bag :- Attrs(Some(rc));
    var checkValues :- if Truthy(Lookup(rc, "checkValue")) then ParseCheckValues(Lookup(rc, "checkValue")) else Ok([]);
    Ok(RangeCheck(AttrIn(bag, "comparator"), AttrIn(bag, "softHard"), AttrIn(bag, "itemOid"), checkValues))
  }

  function ParseRangeChecks(raw: Option<Node>): (r: Result<seq<RangeCheck>>)
    ensures !Truthy(raw) ==> r == Ok([])
    ensures r.Ok? && Truthy(raw) ==> raw.value.Arr? && |r.value| == |raw.value.items|
  {
    MapIfPresent(raw, ParseRangeCheck)
  }

  function CheckValuesNode(cvs: seq<Node>): Option<Node> {
    if cvs == [] then None else Some(Arr(cvs))
  }

  function RangeCheckElement(rc: RangeCheck): Node {
    var attrs := [AttrNode(rc.comparator), AttrNode(rc.softHard), AttrNode(rc.itemOid)];
    Obj(Fields(RangeCheckChildren, [Some(Obj(Fields(RangeCheckAttrs, attrs))), CheckValuesNode(rc.checkValues)]))
  }

  predicate RangeCheckWritable(rc: RangeCheck) {
    forall i :: 0 <= i < |rc.checkValues| ==> !Truthy(Lookup(rc.checkValues[i], "_"))
  }

  lemma RangeCheckRoundTrip(rc: RangeCheck)
    requires RangeCheckWritable(rc)
    ensures ParseRangeCheck(RangeCheckElement(rc)) == Ok(rc)
  {
    var attrs := [AttrNode(rc.comparator), AttrNode(rc.softHard), AttrNode(rc.itemOid)];
    var children := [Some(Obj(Fields(RangeCheckAttrs, attrs))), CheckValuesNode(rc.checkValues)];
    FindFields(RangeCheckAttrs, attrs, 0);
    FindFields(RangeCheckAttrs, attrs, 1);
    FindFields(RangeCheckAttrs, attrs, 2);
    FindFields(RangeCheckChildren, children, 0);
    FindFields(RangeCheckChildren, children, 1);
    if rc.checkValues != [] {
      CheckValuesRoundTrip(rc.checkValues);
    }
  }

  function RangeChecksNode(rcs: seq<RangeCheck>): Option<Node> {
    if rcs == [] then None else Some(Arr(WriteAll(rcs, RangeCheckElement)))
  }

  lemma RangeChecksRoundTrip(rcs: seq<RangeCheck>)
    requires forall i :: 0 <= i < |rcs| ==> RangeCheckWritable(rcs[i])
    ensures ParseRangeChecks(RangeChecksNode(rcs)) == Ok(rcs)
  {
    if rcs != [] {
      forall i | 0 <= i < |rcs| ensures ParseRangeCheck(RangeCheckElement(rcs[i])) == Ok(rcs[i]) {
        RangeCheckRoundTrip(rcs[i]);
      }
      MapOverWriteAll(rcs, RangeCheckElement, ParseRangeCheck);
    }
  }

  datatype WhereClauseDef = WhereClauseDef(oid: Attr, commentOid: Attr, rangeChecks: seq<RangeCheck>)

  /** The `forEach` callback of `parseWhereClauses`: a node without an
      attribute bag is skipped; any other is filed under its OID, with no
      range checks when it has no `rangeCheck` child and a comment OID only
      when present. */
  function WhereClauseEntry(n: Node): (r: Result<Option<(string, WhereClauseDef)>>)
    ensures r == Ok(None) <==> !Truthy(Lookup(n, "$"))
    ensures r.Ok? && r.value.Some? ==> r.value.value.0 == Show(r.value.value.1.oid)
    ensures r.Ok? && r.value.Some? ==> Kept(r.value.value.1.commentOid)
    ensures r.Ok? && r.value.Some? && !Truthy(Lookup(n, "rangeCheck")) ==> r.value.value.1.rangeChecks == []
  {
    if !Truthy(Lookup(n, "$")) then Ok(None)
    else
      var bag := Lookup(n, "$").value;
      var rangeChecks :- if Truthy(Lookup(n, "rangeCheck")) then ParseRangeChecks(Lookup(n, "rangeCheck")) else Ok([]);
      var wc := WhereClauseDef(AttrIn(bag, "oid"), IfPresent(AttrIn(bag, "commentOid")), rangeChecks);
      Ok(Some((Show(wc.oid), wc)))
  }

  function ParseWhereClauses(raw: Option<Node>): (r: Result<OrderedMap<WhereClauseDef>>)
    ensures !Truthy(raw) ==> r == Ok(Empty())
    ensures Truthy(raw) && !raw.value.Arr? ==> r == Err(TypeError)
  {
    BuildFrom(raw, WhereClauseEntry)
  }

  /** Every where-clause is filed under its own OID. */
  lemma WhereClausesFiledByOid(raw: Option<Node>)
    requires ParseWhereClauses(raw).Ok?
    ensures forall k :: k in ParseWhereClauses(raw).value.entries ==> Show(ParseWhereClauses(raw).value.entries[k].oid) == k
  {
    BuildFromAll(raw, WhereClauseEntry, (k: string, w: WhereClauseDef) => Show(w.oid) == k);
  }

  function WhereClauseKey(w: WhereClauseDef): string {
    Show(w.oid)
  }

  function WhereClauseElement(w: WhereClauseDef): Node {
    var attrs := [AttrNode(w.oid), AttrNode(w.commentOid)];
    Obj(Fields(WhereClauseChildren, [Some(Obj(Fields(WhereClauseAttrs, attrs))), RangeChecksNode(w.rangeChecks)]))
  }

  predicate WhereClauseWritable(w: WhereClauseDef) {
    Kept(w.commentOid) && forall i :: 0 <= i < |w.rangeChecks| ==> RangeCheckWritable(w.rangeChecks[i])
  }

  lemma WhereClauseRoundTrip(w: WhereClauseDef)
    requires WhereClauseWritable(w)
    ensures WhereClauseEntry(WhereClauseElement(w)) == Ok(Some((WhereClauseKey(w), w)))
  {
    var attrs := [AttrNode(w.oid), AttrNode(w.commentOid)];
    var children := [Some(Obj(Fields(WhereClauseAttrs, attrs))), RangeChecksNode(w.rangeChecks)];
    FindFields(WhereClauseAttrs, attrs, 0);
    FindFields(WhereClauseAttrs, attrs, 1);
    FindFields(WhereClauseChildren, children, 0);
    FindFields(WhereClauseChildren, children, 1);
    RangeChecksRoundTrip(w.rangeChecks);
  }

  /** Where-clauses written in order are read back in order, each under its
      OID. */
  lemma WhereClausesRoundTrip(ws: seq<WhereClauseDef>)
    requires forall i :: 0 <= i < |ws| ==> WhereClauseWritable(ws[i])
    ensures ParseWhereClauses(Some(Arr(WriteAll(ws, WhereClauseElement)))) == Ok(FromPairs(Keyed(ws, WhereClauseKey)))
  {
    forall i | 0 <= i < |ws| ensures WhereClauseEntry(WhereClauseElement(ws[i])) == Ok(Some((WhereClauseKey(ws[i]), ws[i]))) {
      WhereClauseRoundTrip(ws[i]);
    }
    BuildFromWriteAll(ws, WhereClauseElement, WhereClauseEntry, WhereClauseKey);
  }

  // ------------------------------------------- enumerated and code-list items

  datatype EnumeratedItem = EnumeratedItem(
    codedValue: Attr,
    rank: Option<Number>,
    orderNumber: Option<Number>,
    extendedValue: bool,
    alias: Option<seq<Alias>>)

  function ParseEnumeratedItem(item: Node): (r: Result<EnumeratedItem>)
    ensures Lookup(item, "$").None? ==> r == Err(TypeError)
    ensures Lookup(item, "$").Some? && Present(AttrAt(item, "extendedValue")) && AttrAt(item, "extendedValue") != Some("Yes")
            ==> r == Err(Thrown(YesOnlyMessage("extendedValue", AttrAt(item, "extendedValue").value)))
    ensures r.Ok? ==> !Present(AttrAt(item, "extendedValue")) || AttrAt(item, "extendedValue") == Some("Yes")
    ensures r.Ok? ==> r.value.codedValue == AttrAt(item, "codedValue")
                      && r.value.rank == OptionalNumber(AttrAt(item, "rank"))
                      && r.value.orderNumber == OptionalNumber(AttrAt(item, "orderNumber"))
                      && (r.value.extendedValue <==> AttrAt(item, "extendedValue") == Some("Yes"))
                      && ReadFrom(r.value.alias, item, "alias", ParseAliases)
  {
    var bag :- Attrs(Some(item));
    var extendedValue :- YesOnly("extendedValue", AttrIn(bag, "extendedValue"));
    var alias :- WhenPresent(Lookup(item, "alias"), ParseAliases);
    Ok(EnumeratedItem(AttrIn(bag, "codedValue"), OptionalNumber(AttrIn(bag, "rank")),
                      OptionalNumber(AttrIn(bag, "orderNumber")), extendedValue, alias))
  }

  function ParseEnumeratedItems(raw: Option<Node>): (r: Result<seq<EnumeratedItem>>)
    ensures !Truthy(raw) ==> r == Ok([])
    ensures r.Ok? && Truthy(raw) ==> raw.value.Arr? && |r.value| == |raw.value.items|
  {
    MapIfPresent(raw, ParseEnumeratedItem)
  }

  /** The attribute bag enumerated and code-list items share. */
  function ItemBag(codedValue: Attr, rank: Option<Number>, orderNumber: Option<Number>, extendedValue: bool): Node {
    Obj(Fields(ItemAttrs, [AttrNode(codedValue), AttrNode(NumberAttr(rank)), AttrNode(NumberAttr(orderNumber)),
                           AttrNode(YesOnlyAttr(extendedValue))]))
  }

  lemma ItemBagReads(codedValue: Attr, rank: Option<Number>, orderNumber: Option<Number>, extendedValue: bool)
    requires NumberWritable(rank) && NumberWritable(orderNumber)
    ensures var bag := ItemBag(codedValue, rank, orderNumber, extendedValue);
            && AttrIn(bag, "codedValue") == codedValue
            && OptionalNumber(AttrIn(bag, "rank")) == rank
            && OptionalNumber(AttrIn(bag, "orderNumber")) == orderNumber
            && YesOnly("extendedValue", AttrIn(bag, "extendedValue")) == Ok(extendedValue)
  {
    var values := [AttrNode(codedValue), AttrNode(NumberAttr(rank)), AttrNode(NumberAttr(orderNumber)),
                   AttrNode(YesOnlyAttr(extendedValue))];
    FindFields(ItemAttrs, values, 0);
    FindFields(ItemAttrs, values, 1);
    FindFields(ItemAttrs, values, 2);
    FindFields(ItemAttrs, values, 3);
    OptionalNumberRoundTrip(rank);
    OptionalNumberRoundTrip(orderNumber);
  }

  function EnumeratedItemElement(e: EnumeratedItem): Node {
    Obj(Fields(EnumeratedItemChildren, [Some(ItemBag(e.codedValue, e.rank, e.orderNumber, e.extendedValue)),
                                        AliasesNode(e.alias)]))
  }

  predicate EnumeratedItemWritable(e: EnumeratedItem) {
    NumberWritable(e.rank) && NumberWritable(e.orderNumber)
  }

  /** What the mapper reads off an enumerated item's element. */
  lemma EnumeratedItemElementReads(e: EnumeratedItem)
    ensures var el := EnumeratedItemElement(e);
            && Attrs(Some(el)) == Ok(ItemBag(e.codedValue, e.rank, e.orderNumber, e.extendedValue))
            && Lookup(el, "alias") == AliasesNode(e.alias)
  {
    var children := [Some(ItemBag(e.codedValue, e.rank, e.orderNumber, e.extendedValue)), AliasesNode(e.alias)];
    FindFields(EnumeratedItemChildren, children, 0);
    FindFields(EnumeratedItemChildren, children, 1);
  }

  lemma EnumeratedItemRoundTrip(e: EnumeratedItem)
    requires EnumeratedItemWritable(e)
    ensures ParseEnumeratedItem(EnumeratedItemElement(e)) == Ok(e)
  {
    var el := EnumeratedItemElement(e);
    EnumeratedItemElementReads(e);
    ItemBagReads(e.codedValue, e.rank, e.orderNumber, e.extendedValue);
    assert WhenPresent(Lookup(el, "alias"), ParseAliases) == Ok(e.alias) by {
      if e.alias.Some? {
        AliasesRoundTrip(e.alias.value);
      }
    }
  }

  lemma EachEnumeratedItemReadBack(es: seq<EnumeratedItem>)
    requires forall i :: 0 <= i < |es| ==> EnumeratedItemWritable(es[i])
    ensures forall i :: 0 <= i < |es| ==> ParseEnumeratedItem(EnumeratedItemElement(es[i])) == Ok(es[i])
  {
    forall i | 0 <= i < |es| ensures ParseEnumeratedItem(EnumeratedItemElement(es[i])) == Ok(es[i]) {
      EnumeratedItemRoundTrip(es[i]);
    }
  }

  lemma EnumeratedItemsRoundTrip(es: seq<EnumeratedItem>)
    requires forall i :: 0 <= i < |es| ==> EnumeratedItemWritable(es[i])
    ensures ParseEnumeratedItems(Some(Arr(WriteAll(es, EnumeratedItemElement)))) == Ok(es)
  {
    EachEnumeratedItemReadBack(es);
    MapIfPresentWriteAll(es, EnumeratedItemElement, ParseEnumeratedItem);
  }

  datatype CodeListItem = CodeListItem(
    codedValue: Attr,
    decode: seq<TranslatedText>,
    rank: Option<Number>,
    orderNumber: Option<Number>,
    extendedValue: bool,
    alias: Option<seq<Alias>>)

  /** As an enumerated item, with the decodes read right after the coded
      value and `[]` when there is no `decode` child. */
  function ParseCodeListItem(item: Node): (r: Result<CodeListItem>)
    ensures Lookup(item, "$").None? ==> r == Err(TypeError)
    ensures Lookup(item, "$").Some? && Truthy(Lookup(item, "decode")) && ParseTexts(Lookup(item, "decode")).Err?
            ==> r == Err(ParseTexts(Lookup(item, "decode")).error)
    ensures Lookup(item, "$").Some? && (!Truthy(Lookup(item, "decode")) || ParseTexts(Lookup(item, "decode")).Ok?)
            && Present(AttrAt(item, "extendedValue")) && AttrAt(item, "extendedValue") != Some("Yes")
            ==> r == Err(Thrown(YesOnlyMessage("extendedValue", AttrAt(item, "extendedValue").value)))
    ensures r.Ok? ==> !Present(AttrAt(item, "extendedValue")) || AttrAt(item, "extendedValue") == Some("Yes")
    ensures r.Ok? && !Truthy(Lookup(item, "decode")) ==> r.value.decode == []
    ensures r.Ok? && Truthy(Lookup(item, "decode")) ==> Ok(r.value.decode) == ParseTexts(Lookup(item, "decode"))
    ensures r.Ok? ==> r.value.codedValue == AttrAt(item, "codedValue")
                      && r.value.rank == OptionalNumber(AttrAt(item, "rank"))
                      && r.value.orderNumber == OptionalNumber(AttrAt(item, "orderNumber"))
                      && (r.value.extendedValue <==> AttrAt(item, "extendedValue") == Some("Yes"))
                      && ReadFrom(r.value.alias, item, "alias", ParseAliases)
  {
    var bag :- Attrs(Some(item));
    var decode :- if Truthy(Lookup(item, "decode")) then ParseTexts(Lookup(item, "decode")) else Ok([]);
    var extendedValue :- YesOnly("extendedValue", AttrIn(bag, "extendedValue"));
    var alias :- WhenPresent(Lookup(item, "alias"), ParseAliases);
    Ok(CodeListItem(AttrIn(bag, "codedValue"), decode, OptionalNumber(AttrIn(bag, "rank")),
                    OptionalNumber(AttrIn(bag, "orderNumber")), extendedValue, alias))
  }

  function ParseCodeListItems(raw: Option<Node>): (r: Result<seq<CodeListItem>>)
    ensures !Truthy(raw) ==> r == Ok([])
    ensures r.Ok? && Truthy(raw) ==> raw.value.Arr? && |r.value| == |raw.value.items|
  {
    MapIfPresent(raw, ParseCodeListItem)
  }

  function CodeListItemElement(c: CodeListItem): Node {
    Obj(Fields(CodeListItemChildren, [Some(ItemBag(c.codedValue, c.rank, c.orderNumber, c.extendedValue)),
                                      if c.decode == [] then None else TextsNode(c.decode),
                                      AliasesNode(c.alias)]))
  }

  predicate CodeListItemWritable(c: CodeListItem) {
    NumberWritable(c.rank) && NumberWritable(c.orderNumber)
    && forall i :: 0 <= i < |c.decode| ==> TextWritable(c.decode[i])
  }

  /** What the mapper reads off a code-list item's element. */
  lemma CodeListItemElementReads(c: CodeListItem)
    ensures var el := CodeListItemElement(c);
            && Attrs(Some(el)) == Ok(ItemBag(c.codedValue, c.rank, c.orderNumber, c.extendedValue))
            && Lookup(el, "decode") == (if c.decode == [] then None else TextsNode(c.decode))
            && Lookup(el, "alias") == AliasesNode(c.alias)
  {
    var children := [Some(ItemBag(c.codedValue, c.rank, c.orderNumber, c.extendedValue)),
                     if c.decode == [] then None else TextsNode(c.decode),
                     AliasesNode(c.alias)];
    FindFields(CodeListItemChildren, children, 0);
    FindFields(CodeListItemChildren, children, 1);
    FindFields(CodeListItemChildren, children, 2);
  }

  lemma CodeListItemRoundTrip(c: CodeListItem)
    requires CodeListItemWritable(c)
    ensures ParseCodeListItem(CodeListItemElement(c)) == Ok(c)
  {
    var el := CodeListItemElement(c);
    CodeListItemElementReads(c);
    ItemBagReads(c.codedValue, c.rank, c.orderNumber, c.extendedValue);
    assert (if Truthy(Lookup(el, "decode")) then ParseTexts(Lookup(el, "decode")) else Ok([])) == Ok(c.decode) by {
      if c.decode != [] {
        TextsRoundTrip(c.decode);
      }
    }
    assert WhenPresent(Lookup(el, "alias"), ParseAliases) == Ok(c.alias) by {
      if c.alias.Some? {
        AliasesRoundTrip(c.alias.value);
      }
    }
  }

  lemma EachCodeListItemReadBack(cs: seq<CodeListItem>)
    requires forall i :: 0 <= i < |cs| ==> CodeListItemWritable(cs[i])
    ensures forall i :: 0 <= i < |cs| ==> ParseCodeListItem(CodeListItemElement(cs[i])) == Ok(cs[i])
  {
    forall i | 0 <= i < |cs| ensures ParseCodeListItem(CodeListItemElement(cs[i])) == Ok(cs[i]) {
      CodeListItemRoundTrip(cs[i]);
    }
  }

  lemma CodeListItemsRoundTrip(cs: seq<CodeListItem>)
    requires forall i :: 0 <= i < |cs| ==> CodeListItemWritable(cs[i])
    ensures ParseCodeListItems(Some(Arr(WriteAll(cs, CodeListItemElement)))) == Ok(cs)
  {
    EachCodeListItemReadBack(cs);
    MapIfPresentWriteAll(cs, CodeListItemElement, ParseCodeListItem);
  }

  // ------------------------------------- external code lists, expressions

  datatype ExternalCodeList = ExternalCodeList(dictionary: Attr, version: Attr, ref: Attr, href: Attr)

  /** Called on `externalCodeList[0]`, which may be undefined. */
  function ParseExternalCodeList(raw: Option<Node>): (r: Result<ExternalCodeList>)
    ensures r.Err? <==> raw.None? || Lookup(raw.value, "$").None?
    ensures r.Ok? ==> r.value.dictionary == AttrAt(raw.value, "dictionary") && r.value.version == AttrAt(raw.value, "version")
    ensures r.Ok? ==> r.value.ref == IfPresent(AttrAt(raw.value, "ref")) && r.value.href == IfPresent(AttrAt(raw.value, "href"))
  {
    var bag :- Attrs(raw);
    Ok(ExternalCodeList(AttrIn(bag, "dictionary"), AttrIn(bag, "version"),
                        IfPresent(AttrIn(bag, "ref")), IfPresent(AttrIn(bag, "href"))))
  }

  function ExternalCodeListElement(x: ExternalCodeList): Node {
    BagOnly(Obj(Fields(ExternalCodeListAttrs, [AttrNode(x.dictionary), AttrNode(x.version), AttrNode(x.ref), AttrNode(x.href)])))
  }

  lemma ExternalCodeListRoundTrip(x: ExternalCodeList)
    requires Kept(x.ref) && Kept(x.href)
    ensures ParseExternalCodeList(Some(ExternalCodeListElement(x))) == Ok(x)
  {
    var values := [AttrNode(x.dictionary), AttrNode(x.version), AttrNode(x.ref), AttrNode(x.href)];
    BagOnlyReads(Obj(Fields(ExternalCodeListAttrs, values)));
    FindFields(ExternalCodeListAttrs, values, 0);
    FindFields(ExternalCodeListAttrs, values, 1);
    FindFields(ExternalCodeListAttrs, values, 2);
    FindFields(ExternalCodeListAttrs, values, 3);
  }

  datatype FormalExpression = FormalExpression(context: Attr, value: Option<Node>)

  function ParseFormalExpression(fe: Node): (r: Result<FormalExpression>)
    ensures r.Err? <==> Lookup(fe, "$").None?
    ensures r.Ok? ==> r.value == FormalExpression(AttrAt(fe, "context"), Lookup(fe, "value"))
  {
    var bag :- Attrs(Some(fe));
    Ok(FormalExpression(AttrIn(bag, "context"), Lookup(fe, "value")))
  }

  function ParseFormalExpressions(raw: Option<Node>): (r: Result<seq<FormalExpression>>)
    ensures !Truthy(raw) ==> r == Ok([])
    ensures r.Ok? && Truthy(raw) ==> raw.value.Arr? && |r.value| == |raw.value.items|
  {
    MapIfPresent(raw, ParseFormalExpression)
  }

  function FormalExpressionElement(f: FormalExpression): Node {
    Obj(Fields(BagAndValue, [Some(Obj(Fields(["context"], [AttrNode(f.context)]))), f.value]))
  }

  lemma FormalExpressionRoundTrip(f: FormalExpression)
    ensures ParseFormalExpression(FormalExpressionElement(f)) == Ok(f)
  {
    var children := [Some(Obj(Fields(["context"], [AttrNode(f.context)]))), f.value];
    FindFields(BagAndValue, children, 0);
    FindFields(BagAndValue, children, 1);
    FindFields(["context"], [AttrNode(f.context)], 0);
  }

  lemma EachFormalExpressionReadBack(fs: seq<FormalExpression>)
    ensures forall i :: 0 <= i < |fs| ==> ParseFormalExpression(FormalExpressionElement(fs[i])) == Ok(fs[i])
  {
    forall i | 0 <= i < |fs| ensures ParseFormalExpression(FormalExpressionElement(fs[i])) == Ok(fs[i]) {
      FormalExpressionRoundTrip(fs[i]);
    }
  }

  lemma FormalExpressionsRoundTrip(fs: seq<FormalExpression>)
    ensures ParseFormalExpressions(Some(Arr(WriteAll(fs, FormalExpressionElement)))) == Ok(fs)
  {
    EachFormalExpressionReadBack(fs);
    MapIfPresentWriteAll(fs, FormalExpressionElement, ParseFormalExpression);
  }

  datatype GlobalVariables = GlobalVariables(studyName: Option<Node>, studyDescription: Option<Node>, protocolName: Option<Node>)

  /** The first child of each of the three kinds; a missing kind is a TypeError. */
  function ParseGlobalVariables(raw: Option<Node>): (r: Result<GlobalVariables>)
    ensures raw.None? ==> r == Err(TypeError)
    ensures r.Ok? <==> raw.Some? && Lookup(raw.value, "studyName").Some?
                       && Lookup(raw.value, "studyDescription").Some? && Lookup(raw.value, "protocolName").Some?
    ensures r.Err? ==> r.error == TypeError
  {
    if raw.None? then Err(TypeError)
    else
      var name :- At0(Lookup(raw.value, "studyName"));
      var description :- At0(Lookup(raw.value, "studyDescription"));
      var protocol :- At0(Lookup(raw.value, "protocolName"));
      Ok(GlobalVariables(name, description, protocol))
  }

  function GlobalVariablesElement(g: GlobalVariables): Node {
    Obj(Fields(GlobalVariablesChildren, [Some(First(g.studyName)), Some(First(g.studyDescription)), Some(First(g.protocolName))]))
  }

  lemma GlobalVariablesRoundTrip(g: GlobalVariables)
    ensures ParseGlobalVariables(Some(GlobalVariablesElement(g))) == Ok(g)
  {
    var children := [Some(First(g.studyName)), Some(First(g.studyDescription)), Some(First(g.protocolName))];
    FindFields(GlobalVariablesChildren, children, 0);
    FindFields(GlobalVariablesChildren, children, 1);
    FindFields(GlobalVariablesChildren, children, 2);
  }

  // ------------------------------------------ document and page references

  /** A PDF page reference. Define-XML 2.0 never sets `title`. */
  datatype PdfPageRef = PdfPageRef(kind: Attr, pageRefs: Attr, firstPage: Option<Number>, lastPage: Option<Number>, title: Attr)

  datatype DocumentRef = DocumentRef(leafId: Attr, pdfPageRefs: Option<seq<PdfPageRef>>)

  /** `docRef["$"] && docRef["$"].leafId`: undefined without a bag, the
      empty string for an empty bag, the attribute otherwise. */
  function DocumentRefLeafId(docRef: Node): (r: Attr)
    ensures Lookup(docRef, "$").None? ==> r.None?
    ensures Lookup(docRef, "$") == Some(Str("")) ==> r == Some("")
    ensures Truthy(Lookup(docRef, "$")) ==> r == AttrAt(docRef, "leafId")
  {
    match Lookup(docRef, "$")
    case None => None
    case Some(bag) => if bag == Str("") then Some("") else AttrIn(bag, "leafId")
  }

  /** One document reference, its page references read by the version's
      own mapper when a `pDFPageRef` child is there. */
  function ParseDocumentRefWith(docRef: Node, pageRef: Node -> Result<PdfPageRef>): (r: Result<DocumentRef>)
    ensures r.Ok? ==> r.value.leafId == DocumentRefLeafId(docRef)
    ensures r.Ok? ==> (r.value.pdfPageRefs.Some? <==> Truthy(Lookup(docRef, "pDFPageRef")))
    ensures !Truthy(Lookup(docRef, "pDFPageRef")) ==> r == Ok(DocumentRef(DocumentRefLeafId(docRef), None))
  {
    var pages :- WhenPresent(Lookup(docRef, "pDFPageRef"), v => MapIfPresent(v, pageRef));
    Ok(DocumentRef(DocumentRefLeafId(docRef), pages))
  }

  /** `parseDocumentRefs`: nothing when absent; otherwise the elements are
      flattened (an element's `documentRef` children replace it) and each
      reference is read in order. */
  function ParseDocumentRefsWith(raw: Option<Node>, pageRef: Node -> Result<PdfPageRef>): (r: Result<seq<DocumentRef>>)
    ensures !Truthy(raw) ==> r == Ok([])
    ensures Truthy(raw) && !raw.value.Arr? ==> r == Err(TypeError)
    ensures r.Ok? && Truthy(raw) ==> |r.value| == |FlatMapOr(raw.value.items, "documentRef")|
  {
    if !Truthy(raw) then Ok([])
    else
      var items :- AsArray(raw);
      MapAll(FlatMapOr(items, "documentRef"), n => ParseDocumentRefWith(n, pageRef))
  }

  /** A wrapper element holding `documentRef` children stands for those
      children. */
  lemma DocumentRefWrapperFlattens(children: seq<Node>, pageRef: Node -> Result<PdfPageRef>)
    ensures ParseDocumentRefsWith(Some(Arr([Obj([("documentRef", Arr(children))])])), pageRef)
            == MapAll(children, n => ParseDocumentRefWith(n, pageRef))
  {
    var wrapper := Obj([("documentRef", Arr(children))]);
    assert Contribution(wrapper, "documentRef") == children;
    assert FlatMapOr([wrapper], "documentRef") == children + FlatMapOr([], "documentRef");
    assert children + [] == children;
  }

  const DocumentRefChildren := ["$", "pDFPageRef"]

  function DocumentRefElement(d: DocumentRef, writePage: PdfPageRef -> Node): Node {
    var pages := if d.pdfPageRefs.Some? then Some(Arr(WriteAll(d.pdfPageRefs.value, writePage))) else None;
    Obj(Fields(DocumentRefChildren, [Some(Obj(Fields(["leafId"], [AttrNode(d.leafId)]))), pages]))
  }

  /** The page references of `d` are among those the page writer can write. */
  predicate DocumentRefWritable(d: DocumentRef, writable: PdfPageRef -> bool) {
    d.pdfPageRefs.Some? ==> forall j :: 0 <= j < |d.pdfPageRefs.value| ==> writable(d.pdfPageRefs.value[j])
  }

  lemma DocumentRefRoundTripWith(d: DocumentRef, writePage: PdfPageRef -> Node, pageRef: Node -> Result<PdfPageRef>,
                                 writable: PdfPageRef -> bool)
    requires forall p :: writable(p) ==> pageRef(writePage(p)) == Ok(p)
    requires DocumentRefWritable(d, writable)
    ensures ParseDocumentRefWith(DocumentRefElement(d, writePage), pageRef) == Ok(d)
    ensures Lookup(DocumentRefElement(d, writePage), "documentRef").None?
  {
    var pages := if d.pdfPageRefs.Some? then Some(Arr(WriteAll(d.pdfPageRefs.value, writePage))) else None;
    var children := [Some(Obj(Fields(["leafId"], [AttrNode(d.leafId)]))), pages];
    FindFields(DocumentRefChildren, children, 0);
    FindFields(DocumentRefChildren, children, 1);
    FindFields(["leafId"], [AttrNode(d.leafId)], 0);
    FindAbsent(DocumentRefChildren, children, "documentRef");
    if d.pdfPageRefs.Some? {
      MapIfPresentWriteAll(d.pdfPageRefs.value, writePage, pageRef);
    }
  }

  lemma EachDocumentRefReadBack(ds: seq<DocumentRef>, writePage: PdfPageRef -> Node, pageRef: Node -> Result<PdfPageRef>,
                                writable: PdfPageRef -> bool)
    requires forall p :: writable(p) ==> pageRef(writePage(p)) == Ok(p)
    requires forall i :: 0 <= i < |ds| ==> DocumentRefWritable(ds[i], writable)
    ensures forall i :: 0 <= i < |ds| ==> ParseDocumentRefWith(DocumentRefElement(ds[i], writePage), pageRef) == Ok(ds[i])
    ensures forall i :: 0 <= i < |ds| ==> Lookup(DocumentRefElement(ds[i], writePage), "documentRef").None?
  {
    forall i | 0 <= i < |ds|
      ensures ParseDocumentRefWith(DocumentRefElement(ds[i], writePage), pageRef) == Ok(ds[i])
      ensures Lookup(DocumentRefElement(ds[i], writePage), "documentRef").None?
    {
      DocumentRefRoundTripWith(ds[i], writePage, pageRef, writable);
    }
  }

  /** Document references written in order, none of them a wrapper, are
      read back in order. */
  lemma DocumentRefsRoundTripWith(ds: seq<DocumentRef>, writePage: PdfPageRef -> Node, pageRef: Node -> Result<PdfPageRef>,
                                  writable: PdfPageRef -> bool)
    requires forall p :: writable(p) ==> pageRef(writePage(p)) == Ok(p)
    requires forall i :: 0 <= i < |ds| ==> DocumentRefWritable(ds[i], writable)
    ensures ParseDocumentRefsWith(Some(Arr(WriteAll(ds, d => DocumentRefElement(d, writePage)))), pageRef) == Ok(ds)
  {
    var write := d => DocumentRefElement(d, writePage);
    var items := WriteAll(ds, write);
    EachDocumentRefReadBack(ds, writePage, pageRef, writable);
    WriteAllAt(ds, write);
    FlatMapOrPlain(items, "documentRef");
    MapOverWriteAll(ds, write, n => ParseDocumentRefWith(n, pageRef));
  }

  // ------------------------------------------- shared by the version mappers

  /** `v[0]["$"][name]` when `v` is truthy: the attribute of the first
      reference element, such as `codeListRef[0]`'s code-list OID. */
  function FirstRefAttr(v: Option<Node>, name: string): (r: Result<Attr>)
    ensures !Truthy(v) ==> r == Ok(None)
    ensures Truthy(v) && v.value.Arr? && v.value.items == [] ==> r == Err(TypeError)
    ensures Truthy(v) && v.value.Arr? && v.value.items != [] ==> r == AttrOf(v.value.items[0], name)
  {
    if !Truthy(v) then Ok(None)
    else
      var bag :- Attrs(Index0(v.value));
      Ok(AttrIn(bag, name))
  }

  /** `parseExternalCodeList(v[0])` when `v` is truthy. */
  function FirstExternalCodeList(v: Option<Node>): (r: Result<Option<ExternalCodeList>>)
    ensures !Truthy(v) ==> r == Ok(None)
    ensures r.Ok? ==> (r.value.Some? <==> Truthy(v))
    ensures Truthy(v) && v.value.Arr? && v.value.items != [] ==> r == Lift(ParseExternalCodeList(Some(v.value.items[0])), x => Some(x))
  {
    if !Truthy(v) then Ok(None)
    else
      var x :- ParseExternalCodeList(Index0(v.value));
      Ok(Some(x))
  }

  /** `ref.map(r => r["$"]["whereClauseOid"])` over the `whereClauseRef`
      children, read only when the attribute bag has a truthy entry of that
      name: the children alone are not enough. */
  function GatedWhereClauseRefs(n: Node, bag: Node): (r: Result<Option<seq<Attr>>>)
    ensures !Present(AttrIn(bag, "whereClauseRef")) ==> r == Ok(None)
    ensures Present(AttrIn(bag, "whereClauseRef")) ==> r == Lift(MapAttr(Lookup(n, "whereClauseRef"), "whereClauseOid"), refs => Some(refs))
  {
    if Present(AttrIn(bag, "whereClauseRef")) then
      var refs :- MapAttr(Lookup(n, "whereClauseRef"), "whereClauseOid");
      Ok(Some(refs))
    else Ok(None)
  }

  /** `Object.values(parseLeafs(v).leafs)[0]` when `v` is truthy: a dataset's leaf. */
  function DatasetLeaf(v: Option<Node>): (r: Result<Option<Leaf>>)
    ensures !Truthy(v) ==> r == Ok(None)
    ensures Truthy(v) && !v.value.Arr? ==> r == Err(TypeError)
  {
    if !Truthy(v) then Ok(None)
    else
      var leafs :- ParseLeafs(v);
      Ok(FirstValue(leafs))
  }

  /** A dataset with a single leaf element has that leaf. */
  lemma DatasetLeafSingle(l: Leaf)
    ensures DatasetLeaf(Some(Arr([LeafElement(l)]))) == Ok(Some(l))
  {
    LeafsRoundTrip([l]);
    assert WriteAll([l], LeafElement) == [LeafElement(l)];
    FirstValueFromPairs(Keyed([l], LeafKey), 0);
  }
}
