# parse-define-xml in Dafny

A model of the mapping layer of `parse-define-xml`. That library turns a
CDISC Define-XML 2.0 or 2.1 document, optionally with the Analysis Results
Metadata (ARM) 1.0 extension, into plain records.

The library works in three stages:

1. An XML reader turns the document into a tree. The model treats that tree
   as given.
2. A normaliser strips the `def:` and `arm:` namespaces and converts every
   key to lower camel case.
3. One mapper per element kind turns the normalised tree into typed records.
   Keyed collections (code lists, item groups, leafs, and so on) are kept as
   a record plus an `order` array of keys, in document order.

The model follows the code as written, including its quirks. A property
read on `undefined` becomes `TypeError`; each `throw new Error(...)` becomes
`Thrown` with the same message text.

## Modules

| file | module | models |
|---|---|---|
| base.dfy | `Base` | `Option`, `Result`, the two error kinds, digits |
| tree.dfy | `Tree` | the reader's tree (`Str`, `Arr`, `Obj`); JavaScript truthiness; property reads on `undefined`; `map`, `forEach`, `flatMap`, `Number()`; writers that lay out elements |
| names.dfy | `Names` | `removeNamespaces` and `convertAttributeNameToLowerCamelCase` (src/parser/utils.ts) |
| ordered_map.dfy | `OrderedMaps` | the record-plus-order collections every `forEach` builds, as a fold and as a loop |
| reading.dfy | `Reading` | the steps before mapping: prolog, reader outcome, normalisation, the ODM-root check |
| define_core.dfy | `DefineCore` | src/parser/define.core.ts, and the identical private copies in src/parser/define.21.ts |
| define20_core.dfy | `Define20Core` | src/parser/define.20.core.ts |
| define21_core.dfy | `Define21Core` | src/parser/define.21.core.ts |
| arm10.dfy | `Arm10` | src/parser/arm.10.ts |
| define20.dfy | `Define20` | src/parser/define.20.ts |
| define21.dfy | `Define21` | src/parser/define.21.ts |
| define.dfy | `Define` | src/parser/define.ts, which picks the mapper by version and ARM flag |

The mappers are functions over the tree. This matches the source, which
builds each record from its element and never changes the tree.

Where the source loops and updates state, the model has a method with loop
invariants, proved equal to the function that specifies it:

- the `forEach` that fills a record and its order (`OrderedMaps.BuildLoop`);
- the recursive key walk (`Names.RenameWalk`, `Names.NormalizeWalk`);
- the sub-class loop of `parseClass` (`Define21.ParseSubClassesLoop`).

The mappers have partners of three kinds:

- For the leaf-level records, a writer that lays a record out as the reader
  would, with a round-trip lemma. These are the `DefineCore` records
  (translated texts, aliases, leafs, check values, range checks,
  where-clauses, enumerated and code-list items, external code lists,
  formal expressions, global variables), the page and document references
  of both versions, the 2.0 item reference, the 2.1 standard and the ARM
  analysis dataset.
- For the keyed collections, lemmas that every record is filed under its
  own key.
- For the composite records (definitions, item groups, metadata version,
  study, ODM, ARM results and displays), contracts that tie each part to
  the reading of its child. Lemmas relate the 2.0 and 2.1 mappers, and the
  mappers with and without ARM. The composite records have no writer.

## Model

| member | source | states |
|---|---|---|
| Names.StripKey | src/parser/utils.ts:14-18 | a key beginning with `def:` or `arm:` loses exactly those four characters; every other key is kept |
| Names.StripKeyInverse | src/parser/utils.ts:16-17 | stripping undoes prefixing a key with `def:` or with `arm:` |
| Names.StripKeyKeepsOtherNamespaces | src/parser/utils.ts:16-17 | `xlink:` and `xml:` keys are kept; `def:leafID` and `arm:ResultDisplay` lose their prefix |
| Names.Lower | src/parser/utils.ts:46 | `toLowerCase` on an ASCII character: capitals move down by 32, every other character is kept, and the result is never a capital |
| Names.LowerAll | src/parser/utils.ts:46 | lower-casing a string keeps its length and lower-cases each character in place |
| Names.AbbrevSearch | src/parser/utils.ts:47 | finds the last position up to `j` where OID, CRF or ID follows a lower-case letter, or shows there is none |
| Names.AbbrevSearchIsTest | src/parser/utils.ts:47 | the search succeeds exactly when `/[a-z](OID\|CRF\|ID)/` matches the key |
| Names.AlnumRun | src/parser/utils.ts:49 | the end of the longest run of ASCII letters and digits from `i`: every character before it is one, the one at it is not |
| Names.Anchor | src/parser/utils.ts:49 | where the greedy match of `^([a-zA-Z0-9]*[a-z])(OID\|CRF\|ID)` ends its first group: the largest such end, or none when the pattern does not match |
| Names.ReplaceAbbrevChars | src/parser/utils.ts:49-53 | the abbreviation rewrite keeps the key's length and changes only the first character and the abbreviation's tail, both lower-cased |
| Names.CamelKeyUngated | src/parser/utils.ts:43 | a key that neither starts with a capital nor contains `leafID` is left unchanged |
| Names.CamelKeyAllCaps | src/parser/utils.ts:44-46 | a gated key made only of capitals, digits and `_` is lower-cased whole and has no capital left |
| Names.CamelKeyAbbrev | src/parser/utils.ts:47-53 | a gated key that matches the anchored pattern is rewritten at the greedy match's end |
| Names.CamelKeyAbbrevUnanchored | src/parser/utils.ts:47-53 | when the unanchored test matches but the anchored pattern does not, the key is kept as it is, and the default rule is not applied |
| Names.CamelKeyDefault | src/parser/utils.ts:54-58 | a gated key with no abbreviation is `odmVersion` when it is `ODMVersion`; otherwise its first character is lower-cased |
| Names.CamelKeyStable | src/parser/utils.ts:42-58 | every rule except the abbreviation rewrite gives a key that converting again leaves unchanged |
| Names.CamelKeyNotIdempotent | src/parser/utils.ts:42-58 | converting `XleafIDleafID` twice differs from converting it once (see Notes) |
| Names.CamelKeyExamplesAllCaps | src/parser/utils.ts:44-46 | `OID` becomes `oid` and `ODM` becomes `odm` |
| Names.CamelKeyExamplesAbbrev | src/parser/utils.ts:47-53 | `FileOID` becomes `fileOid`, `AnnotatedCRF` becomes `annotatedCrf`, and `leafID` becomes `leafId` |
| Names.CamelKeyExamplesDefault | src/parser/utils.ts:54-58 | `ODMVersion` becomes `odmVersion`, `SASDatasetName` becomes `sASDatasetName`, and `PDFPageRef` becomes `pDFPageRef` |
| Names.CamelKeyExamplesUngated | src/parser/utils.ts:43 | `$`, `value` and `xlink:href` are kept |
| Names.Put | src/parser/utils.ts:61 | `result[key] = value`: that key now reads `value` and every other key reads as before |
| Names.PutAllFind | src/parser/utils.ts:39-63 | a key of an object filled by assignment reads the last value assigned to it |
| Names.PutAllDistinct | src/parser/utils.ts:39-63 | assigning distinct keys in order builds exactly those pairs, in that order |
| Names.RenameShape | src/parser/utils.ts:33-35 | strings are kept; arrays are renamed element by element with the same length; objects stay objects |
| Names.RenameLookup | src/parser/utils.ts:36-64 | a key of a renamed object holds the renamed value of the last field whose key renames to it |
| Names.RenameInPlace | src/parser/utils.ts:36-64 | when no two keys collide after renaming, each field keeps its place under its new key |
| Names.RenameWalk | src/parser/utils.ts:5-26 | the recursive walk with its `for … in` loop computes the renaming function |
| Names.NormalizeWalk | src/parser/define.20.ts:483 | stripping namespaces and then camel-casing, done as walks, is the normalisation function |
| Names.NormalizeInPlace | src/parser/define.20.ts:483 | an object whose keys do not collide after normalisation keeps its fields in place under the normalised keys |
| Tree.FindFirst | src/parser/utils.ts:61 | a lookup finds nothing exactly when no field has that key; otherwise it finds the first such field |
| Tree.IfPresent | src/parser/define.20.ts:130-138 | `if (x) r.f = x`: the field is set exactly when the attribute is defined and not empty, and then it holds the attribute |
| Tree.Get | src/parser/define.21.ts:704-706 | reading a property of `undefined` is a TypeError; otherwise it is the lookup |
| Tree.At0 | src/parser/define.21.ts:705-706 | `v[0]` on `undefined` is a TypeError; otherwise it is the first element |
| Tree.Index0 | src/parser/define.21.ts:705-706 | `n[0]` of an array is its first element, or `undefined` when the array is empty |
| Tree.AsArray | src/parser/define.core.ts:30 | `map` and `forEach` succeed exactly on arrays, and walk their elements |
| Tree.Attrs | src/parser/define.core.ts:31-32 | reading `v["$"]` succeeds exactly when `v` is defined and has a bag |
| Tree.AttrOf | src/parser/define.core.ts:31-32 | `n["$"][name]` fails exactly when the bag is missing, and otherwise reads the attribute |
| Tree.WriteAll | src/parser/define.core.ts:43-55 | a writer lays out one element per record |
| Tree.MapOverWriteAll | src/parser/define.core.ts:29-34 | `map` reads back a list of records from their elements when it reads back each one |
| Tree.AttrNode | src/parser/define.core.ts:31-32 | a written attribute is read back as itself |
| Tree.Fields | src/parser/define.core.ts:47-51 | a writer's element has no more fields than its layout has names (an absent value writes no field) |
| Tree.FindFields | src/parser/define.core.ts:47-51 | each name of a writer's layout reads back the value put under it |
| Tree.FindAbsent | src/parser/define.core.ts:47-51 | a name outside the layout reads as `undefined` |
| Tree.MapAll | src/parser/define.core.ts:29-34 | `items.map(f)` succeeds exactly when `f` succeeds on every element, giving `f`'s value for each element in order; otherwise it fails with the error of some element, all elements before it having succeeded |
| Tree.MapOver | src/parser/define.core.ts:29-34 | `v.map(f)` on a value that is not an array is a TypeError; on success each result is `f` of the element at the same position |
| Tree.MapAllFirstError | src/parser/define.core.ts:29-34 | the error of a map is that of the first element that fails |
| Tree.LiftAll | src/parser/define.21.ts:128-145 | post-processing every element of a result keeps its success and its length |
| Tree.MapAllLift | src/parser/define.21.ts:128-145 | mapping with a function that post-processes another's results is post-processing the other map |
| Tree.MapIfPresentLift | src/parser/define.core.ts:65-73 | the same for the guarded map |
| Tree.MapIfPresent | src/parser/define.core.ts:65-73 | `if (!v) return []; return v.map(f)`: empty when falsy, a TypeError on a truthy non-array, otherwise one result per element |
| Tree.MapAttr | src/parser/define.20.ts:145-147 | `v.map(x => x["$"][name])` succeeds exactly on an array whose elements all have a bag, and reads each element's attribute in order |
| Tree.MapIfPresentWriteAll | src/parser/define.core.ts:65-73 | the guarded map reads back a list of records from their elements |
| Tree.WhenPresent | src/parser/define.20.ts:306-345 | `if (v) r.f = g(v)`: unset when `v` is falsy; otherwise `g`'s value or `g`'s error |
| Tree.FlatMapOrAppend | src/parser/define.20.core.ts:32 | `flatMap(obj => obj.documentRef ?? [obj])` distributes over concatenation, so document order is kept |
| Tree.FlatMapOrLength | src/parser/define.20.core.ts:32 | the flattened list is as long as all contributions together |
| Tree.FlatMapOrPlain | src/parser/define.20.core.ts:32 | elements without the key contribute themselves, so the list is unchanged |
| Tree.ToNumber | src/parser/define.20.core.ts:19 | `Number()` reads a plain decimal as its value and keeps any other text as it is |
| Tree.DecimalText | src/parser/define.20.core.ts:19 | the decimal text of a natural number is digits only |
| Tree.ToNumberDecimalText | src/parser/define.20.core.ts:19 | `Number()` reads back the number whose decimal text it is given |
| OrderedMaps.FromPairs | src/parser/define.core.ts:53-54 | `record[key] = value; order.push(key)` from left to right: the order is the keys in sequence, duplicates included, and the record has exactly the keys of the order |
| OrderedMaps.FromPairsLastWins | src/parser/define.core.ts:53-54 | a key holds the value of the last pair with that key |
| OrderedMaps.FromPairsDistinct | src/parser/define.core.ts:53-54 | with distinct keys the order has no duplicates and the record has as many keys as the order |
| OrderedMaps.DuplicateKey | src/parser/define.core.ts:53-54 | a repeated key keeps the later record but appears twice in the order |
| OrderedMaps.Entries | src/parser/define.core.ts:43-55 | the fold over the callback succeeds exactly when the callback succeeds on every node, and yields at most one pair per node |
| OrderedMaps.EntriesFirstError | src/parser/define.core.ts:43-55 | a failing fold fails with the error of the first node whose callback fails |
| OrderedMaps.EntriesAllKept | src/parser/define.core.ts:43-55 | when no node is skipped, there is one pair per node, in order |
| OrderedMaps.EntriesSkip | src/parser/define.core.ts:45 | a skipped node contributes nothing |
| OrderedMaps.EntriesPrefixErr | src/parser/define.core.ts:43-55 | once a prefix fails, the whole fold fails with the same error |
| OrderedMaps.BuildFrom | src/parser/define.core.ts:41-57 | falsy input gives the empty map; a truthy non-array is a TypeError; otherwise the fold over the elements |
| OrderedMaps.BuildLoop | src/parser/define.core.ts:43-55 | the `forEach` loop that updates the record and the order computes the fold |
| OrderedMaps.FromPairsAll | src/parser/define.core.ts:53-54 | a relation every pair satisfies holds of every stored record |
| OrderedMaps.EntriesAll | src/parser/define.core.ts:43-55 | a relation every callback pair satisfies holds of every pair of the fold |
| OrderedMaps.BuildFromAll | src/parser/define.core.ts:41-57 | every record of a built map satisfies, with its key, what every callback pair satisfies |
| OrderedMaps.EntriesWriteAll | src/parser/define.core.ts:43-55 | the fold reads back the records from their written elements, in order, with their keys |
| OrderedMaps.BuildFromWriteAll | src/parser/define.core.ts:36-58 | a keyed collection written element by element is read back as the map built from its keyed records |
| OrderedMaps.FirstValueFromPairs | src/parser/define.20.ts:276 | `Object.values(record)[0]` is the last record stored under the first key |
| Reading.OdmRoot | src/parser/define.20.ts:478-487 | a failed read is reported with the reader's message; otherwise the normalised tree's `odm`, which must be truthy or the parser throws the missing-root message |
| Reading.OdmRootFound | src/parser/define.20.ts:483-487 | a document whose root is `ODM` yields that element, normalised |
| Reading.OdmRootMissing | src/parser/define.20.ts:485-487 | a root that does not normalise to `odm` is rejected with the missing-root message |
| DefineCore.YesOnly | src/parser/define.core.ts:108-116 | a Yes-only flag: `Yes` sets it; absent or empty leaves it unset; anything else throws the "Expected \"Yes\"" message with the value |
| DefineCore.YesOnlyRoundTrip | src/parser/define.core.ts:108-116 | the flag read back is the flag written, and a flag read without error came from its own attribute |
| DefineCore.YesNo | src/parser/define.21.ts:529-534 | a strict Yes/No attribute: OK exactly for `Yes` or `No`, true exactly for `Yes`; otherwise the given error |
| DefineCore.YesNoRoundTrip | src/parser/define.21.ts:529-534 | a written Yes/No reads back, and any attribute read as `b` is the one written for `b` |
| DefineCore.OptionalYesNo | src/parser/define.21.ts:571-586 | a Yes/No attribute checked only when present |
| DefineCore.OptionalNumber | src/parser/define.20.core.ts:18-23 | `if (a) r.f = Number(a)`: set exactly when present, and a text that is not a plain decimal is kept as it is |
| DefineCore.OptionalNumberRoundTrip | src/parser/define.20.core.ts:18-23 | every writable number is read back |
| DefineCore.BagOnlyReads | src/parser/define.core.ts:31-32 | an element with only a bag exposes that bag |
| DefineCore.ParseTranslatedText | src/parser/define.core.ts:18-27 | without `translatedText` the read is a TypeError; a language is kept only when present |
| DefineCore.TranslatedTextRoundTrip | src/parser/define.core.ts:18-27 | a writable translated text is read back from its element |
| DefineCore.TranslatedTextWithoutText | src/parser/define.core.ts:21 | a text element with a language but no text takes the whole element as its value (the `value \|\| text` fallback) |
| DefineCore.ParseTexts | src/parser/define.core.ts:18-27 | the texts of a `description`: a TypeError on a non-array; otherwise one per element |
| DefineCore.TextsRoundTrip | src/parser/define.core.ts:18-27 | writable texts are read back in order |
| DefineCore.ParseAlias | src/parser/define.core.ts:30-33 | an alias fails exactly without a bag, and holds the bag's `context` and `name` |
| DefineCore.ParseAliases | src/parser/define.core.ts:29-34 | unguarded `map`: succeeds exactly on an array whose elements all have a bag, one alias per element |
| DefineCore.AliasRoundTrip | src/parser/define.core.ts:30-33 | an alias is read back from its element |
| DefineCore.AliasesRoundTrip | src/parser/define.core.ts:29-34 | aliases are read back in order |
| DefineCore.LeafEntry | src/parser/define.core.ts:43-55 | a node without a truthy bag is skipped; a kept node without `title` is a TypeError; a leaf is filed under its id |
| DefineCore.ParseLeafs | src/parser/define.core.ts:36-58 | falsy input gives no leafs; a truthy non-array is a TypeError |
| DefineCore.LeafsFiledById | src/parser/define.core.ts:53-54 | every leaf is filed under its own id |
| DefineCore.LeafRoundTrip | src/parser/define.core.ts:47-54 | a leaf is read back from its element under its id |
| DefineCore.LeafsRoundTrip | src/parser/define.core.ts:36-58 | leafs written in order are read back as the map of their keyed records |
| DefineCore.CheckValue | src/parser/define.core.ts:62 | `cv["_"] \|\| cv`: the `_` child when truthy, otherwise the element itself |
| DefineCore.ParseCheckValues | src/parser/define.core.ts:60-63 | falsy input gives none; a truthy input succeeds exactly as an array, one value per element |
| DefineCore.CheckValueIgnoresTextKey | src/parser/define.core.ts:62 | the reader puts text under `value`, so a check value is the whole element (see Notes) |
| DefineCore.CheckValuesRoundTrip | src/parser/define.core.ts:60-63 | elements without a truthy `_` are read back as they are |
| DefineCore.ParseRangeCheck | src/parser/define.core.ts:67-72 | without a bag it is a TypeError; it reads `itemOid`, `comparator` and `softHard`; it has no check values without a `checkValue` child |
| DefineCore.ParseRangeChecks | src/parser/define.core.ts:65-73 | falsy input gives none; otherwise one range check per element |
| DefineCore.RangeCheckRoundTrip | src/parser/define.core.ts:67-72 | a writable range check is read back |
| DefineCore.RangeChecksRoundTrip | src/parser/define.core.ts:65-73 | writable range checks are read back in order |
| DefineCore.WhereClauseEntry | src/parser/define.core.ts:81-92 | a node without a truthy bag is skipped; a where-clause is filed under its OID, keeps `commentOid` only when present, and has no range checks without a `rangeCheck` child |
| DefineCore.ParseWhereClauses | src/parser/define.core.ts:75-94 | falsy input gives the empty map; a truthy non-array is a TypeError |
| DefineCore.WhereClausesFiledByOid | src/parser/define.core.ts:90-91 | every where-clause is filed under its own OID |
| DefineCore.WhereClauseRoundTrip | src/parser/define.core.ts:81-92 | a writable where-clause is read back under its key |
| DefineCore.WhereClausesRoundTrip | src/parser/define.core.ts:75-94 | where-clauses written in order are read back as the map of their keyed records |
| DefineCore.ParseEnumeratedItem | src/parser/define.core.ts:98-121 | without a bag it is a TypeError; a present `extendedValue` other than `Yes` throws the Yes-only message, and a read item never has one; it reads `codedValue`; rank and order number are their numbers when present; the flag is true exactly for `Yes`; the aliases are those read from the `alias` child, exactly when it is truthy |
| DefineCore.ParseEnumeratedItems | src/parser/define.core.ts:96-122 | falsy input gives none; otherwise one item per element |
| DefineCore.EnumeratedItemRoundTrip | src/parser/define.core.ts:98-121 | a writable enumerated item is read back |
| DefineCore.EnumeratedItemsRoundTrip | src/parser/define.core.ts:96-122 | writable enumerated items are read back in order |
| DefineCore.ParseCodeListItem | src/parser/define.core.ts:126-150 | without a bag it is a TypeError; a failing `decode` child fails the item; then a present `extendedValue` other than `Yes` throws the Yes-only message, and a read item never has one; the decodes are those read from the `decode` child, or empty without one; it reads `codedValue`; rank and order number are their numbers when present; the flag is true exactly for `Yes`; the aliases are those read from the `alias` child, exactly when it is truthy |
| DefineCore.ParseCodeListItems | src/parser/define.core.ts:124-151 | falsy input gives none; otherwise one item per element |
| DefineCore.CodeListItemRoundTrip | src/parser/define.core.ts:126-150 | a writable code-list item is read back |
| DefineCore.CodeListItemsRoundTrip | src/parser/define.core.ts:124-151 | writable code-list items are read back in order |
| DefineCore.ParseExternalCodeList | src/parser/define.core.ts:153-165 | fails exactly on `undefined` or a missing bag; reads `dictionary` and `version`, and `ref` and `href` only when present |
| DefineCore.ExternalCodeListRoundTrip | src/parser/define.core.ts:153-165 | an external code list is read back |
| DefineCore.ParseFormalExpression | src/parser/define.core.ts:169-172 | fails exactly without a bag; holds the bag's `context` and the element's `value` |
| DefineCore.ParseFormalExpressions | src/parser/define.core.ts:167-173 | falsy input gives none; otherwise one expression per element |
| DefineCore.FormalExpressionRoundTrip | src/parser/define.core.ts:169-172 | a formal expression is read back |
| DefineCore.FormalExpressionsRoundTrip | src/parser/define.core.ts:167-173 | any list of formal expressions, empty included, is read back in order |
| DefineCore.ParseGlobalVariables | src/parser/define.core.ts:175-179 | succeeds exactly when the element is defined and has all three children (study name, description, protocol name); every failure is a TypeError |
| DefineCore.GlobalVariablesRoundTrip | src/parser/define.core.ts:175-179 | global variables are read back |
| DefineCore.DocumentRefLeafId | src/parser/define.20.core.ts:35 | `docRef["$"] && docRef["$"].leafId`: undefined without a bag, the empty string for an empty bag, otherwise the attribute |
| DefineCore.ParseDocumentRefWith | src/parser/define.20.core.ts:34-40 | a reference holds its leaf id, and page references exactly when it has a truthy `pDFPageRef` |
| DefineCore.ParseDocumentRefsWith | src/parser/define.20.core.ts:29-41 | falsy input gives none; a truthy non-array is a TypeError; otherwise one reference per flattened element |
| DefineCore.DocumentRefWrapperFlattens | src/parser/define.20.core.ts:32 | a wrapper holding `documentRef` children reads as those children |
| DefineCore.DocumentRefRoundTripWith | src/parser/define.20.core.ts:34-40 | a reference with writable page references is read back and is not taken for a wrapper |
| DefineCore.DocumentRefsRoundTripWith | src/parser/define.20.core.ts:29-41 | references written in order are read back in order |
| DefineCore.FirstRefAttr | src/parser/define.20.ts:214-222 | `v[0]["$"][name]` when `v` is truthy: unset when falsy, and a TypeError on an empty array |
| DefineCore.FirstExternalCodeList | src/parser/define.20.ts:63-65 | `parseExternalCodeList(v[0])` when `v` is truthy: set exactly when truthy |
| DefineCore.GatedWhereClauseRefs | src/parser/define.20.ts:145-147 | the `whereClauseRef` children are read only when the bag has a present `whereClauseRef` attribute |
| DefineCore.DatasetLeaf | src/parser/define.20.ts:275-277 | a dataset's leaf: unset when falsy, and a TypeError on a truthy non-array |
| DefineCore.DatasetLeafSingle | src/parser/define.20.ts:275-277 | a dataset with a single leaf element has that leaf |
| Define20Core.ParsePdfPageRef | src/parser/define.20.core.ts:13-26 | fails exactly without a bag; never has a title; reads `type` and `pageRefs`; has a first page and a last page exactly when `firstPage` and `lastPage` are present |
| Define20Core.ParsePdfPageRefs | src/parser/define.20.core.ts:9-27 | falsy input gives none, and no page reference has a title |
| Define20Core.ParseDocumentRefs | src/parser/define.20.core.ts:29-41 | falsy input gives none; a truthy non-array is a TypeError |
| Define20Core.PdfPageRefRoundTrip | src/parser/define.20.core.ts:13-26 | a writable page reference is read back |
| Define20Core.DocumentRefsRoundTrip | src/parser/define.20.core.ts:29-41 | references with writable page references are read back in order |
| Define21Core.ParsePdfPageRef | src/parser/define.21.core.ts:13-29 | as in 2.0, and the title is kept when present |
| Define21Core.ParseDocumentRefs | src/parser/define.21.core.ts:32-44 | falsy input gives none; a truthy non-array is a TypeError |
| Define21Core.PdfPageRefRoundTrip | src/parser/define.21.core.ts:13-29 | a writable page reference is read back, title included |
| Define21Core.DocumentRefsRoundTrip | src/parser/define.21.core.ts:32-44 | references with writable page references are read back in order |
| Define21Core.PdfPageRefVersions | src/parser/define.21.core.ts:13-29 | the 2.0 reading of a page reference is the 2.1 reading without its title |
| Define21Core.DocumentRefsVersions | src/parser/define.21.core.ts:32-44 | for any input, the 2.0 reading of document references is the 2.1 reading without page titles, errors included |
| Arm10.ParseVersion | src/parser/arm.10.ts:18-26 | the version tag is accepted exactly for `2.0` and `2.1`; any other throws "Unsupported defineVer: " with the tag |
| Arm10.DocumentRefsBranches | src/parser/arm.10.ts:223-234 | the 2.0 and 2.1 branches read the same references, the 2.0 one without page titles |
| Arm10.ParseAnalysisDataset | src/parser/arm.10.ts:193-208 | without a bag it is a TypeError; reads `itemGroupOid`; the where-clause references are the `whereClauseOid` of each `whereClauseRef` child and the analysis variables the `itemOid` of each `analysisVariable` child, each set exactly when that child is truthy; a where-clause child without a bag is a TypeError |
| Arm10.AnalysisDatasetRoundTrip | src/parser/arm.10.ts:193-208 | an analysis dataset is read back from the element it is written as |
| Arm10.AnalysisDatasetEntry | src/parser/arm.10.ts:178-182 | every dataset is the one read from its element, filed under its item group OID; a failing element fails the fold |
| Arm10.ParseAnalysisDatasets | src/parser/arm.10.ts:175-191 | `undefined`, a missing first element, or a first element without an `analysisDataset` array is a TypeError; the datasets are the fold over that array's elements, failing with the first failing one; the comment OID is the first element's `commentOid` when present |
| Arm10.AnalysisDatasetsInOrder | src/parser/arm.10.ts:178-182 | datasets are kept one per element, in document order, each under its item group OID |
| Arm10.ParseDocumentation | src/parser/arm.10.ts:215-238 | `undefined` or a missing first element is a TypeError; the description is required, a missing one is a TypeError and a failing one fails the documentation; the description is the first element's translated texts; the documents are its `documentRef` children read by the version's mapper, exactly when that child is truthy |
| Arm10.DocumentationBranches | src/parser/arm.10.ts:215-238 | the 2.0 and 2.1 branches read the same documentation and fail alike; the 2.0 one drops the page titles |
| Arm10.ParseProgrammingCode | src/parser/arm.10.ts:132-146 | a missing first element is a TypeError; context and code are read only when the first element has a bag, the context then being its `context` attribute when present and the code its truthy `code` child; the documents are its `documentRef` children read by the version's mapper, exactly when that child is truthy, and a failing read fails the programming code |
| Arm10.ProgrammingCodeBranches | src/parser/arm.10.ts:132-146 | the 2.0 and 2.1 branches read the same programming code and fail alike; the 2.0 one drops the page titles |
| Arm10.ParseAnalysisResult | src/parser/arm.10.ts:109-173 | without a bag it is a TypeError; reads `oid`, `analysisReason` and `analysisPurpose`; the description and the analysis datasets are those read from their children; keeps the parameter OID only when the element itself has a truthy `parameterOid` child; the documentation and programming code are those read from their children, exactly when each child is truthy |
| Arm10.ParameterOidOnlyFromNode | src/parser/arm.10.ts:122-124 | an element carrying `parameterOid` only as an attribute loses it (see Notes) |
| Arm10.AnalysisResultEntry | src/parser/arm.10.ts:101-105 | every analysis result is the one read from its element by `parseAnalysisResult`, filed under its OID; a failing element fails with the same error, and none is skipped |
| Arm10.ParseAnalysisResults | src/parser/arm.10.ts:98-107 | unguarded `forEach`: a TypeError unless the input is an array |
| Arm10.ParseResultDisplay | src/parser/arm.10.ts:43-60 | the analysis results are read first and must be an array; reads `oid` and `name`; the analysis results and description are those read from their children; the documents are those read from `documentRef` by the version's mapper, exactly when it is truthy |
| Arm10.ResultDisplayEntry | src/parser/arm.10.ts:43-59 | every display is the one read from its element, filed under its OID; a failing element fails with the same error, and none is skipped |
| Arm10.ParseResultDisplays | src/parser/arm.10.ts:39-85 | unguarded `forEach`: a TypeError unless the input is an array |
| Arm10.ParseAnalysisResultDisplays | src/parser/arm.10.ts:18-26 | an unsupported tag throws; a supported tag on `undefined` or on an input without a first element is a TypeError; otherwise the result is the displays read from the first element's `resultDisplay` children for that version |
| Arm10.AnalysisResultDisplaysFiledByOid | src/parser/arm.10.ts:18-26 | every display read from an `AnalysisResultDisplays` element is filed under its own OID, and so is every analysis result of each display |
| Arm10.ResultDisplaysFiledByOid | src/parser/arm.10.ts:58-59 | every display is filed under its own OID |
| Arm10.AnalysisResultsFiledByOid | src/parser/arm.10.ts:103-104 | every analysis result is filed under its own OID |
| Arm10.AnalysisDatasetsFiledByOid | src/parser/arm.10.ts:180-181 | every analysis dataset is filed under its own item group OID |
| Define20.ParseOrigin | src/parser/define.20.ts:25-36 | `undefined` or a missing bag is a TypeError; the origin's type is the `type` attribute; description and document references are those read from their children, attached exactly when those children are truthy |
| Define20.FirstOrigin | src/parser/define.20.ts:217-219 | `[parseOrigin(origin[0])]`: set exactly when `origin` is truthy, and then exactly one origin |
| Define20.FirstOriginOnly | src/parser/define.20.ts:217-219 | origin elements after the first are never read |
| Define20.CodeListEntry | src/parser/define.20.ts:44-68 | a node without a truthy bag is skipped; a code list is filed under its OID, holds its attributes, and its aliases, enumerated items, code-list items and external code list are those read from their children, each attached exactly when its child is truthy |
| Define20.ParseCodeLists | src/parser/define.20.ts:38-70 | falsy input gives the empty map; a truthy non-array is a TypeError |
| Define20.CodeListsFiledByOid | src/parser/define.20.ts:38-70 | every code list is filed under its own OID |
| Define20.CommentDefEntry | src/parser/define.20.ts:78-90 | no node is skipped; a missing bag is a TypeError; a comment is filed under its OID, and its description and document references are those read from their children, exactly when each child is truthy |
| Define20.ParseCommentDefs | src/parser/define.20.ts:72-92 | falsy input gives the empty map; a truthy non-array is a TypeError |
| Define20.CommentDefsFiledByOid | src/parser/define.20.ts:72-92 | every comment is filed under its own OID |
| Define20.MethodDefEntry | src/parser/define.20.ts:100-117 | no node is skipped; a missing bag is a TypeError; a method is filed under its OID with its name and type, and its description, document references and formal expressions are those read from their children, exactly when each child is truthy |
| Define20.ParseMethodDefs | src/parser/define.20.ts:94-119 | falsy input gives the empty map; a truthy non-array is a TypeError |
| Define20.MethodDefsFiledByOid | src/parser/define.20.ts:94-119 | every method is filed under its own OID |
| Define20.ParseItemRef | src/parser/define.20.ts:121-150 | without a bag it is a TypeError; `mandatory` must be `Yes` or `No` (absence included), or the 2.0 message is thrown; optional attributes are kept only when present; where-clause references are set exactly when the `whereClauseRef` attribute is present |
| Define20.ItemRefEntry | src/parser/define.20.ts:173-184 | a node without a truthy bag or a present `itemOid` is skipped; a reference is filed under its item OID |
| Define20.ParseItemRefs | src/parser/define.20.ts:173-184 | falsy input gives the empty map; a truthy non-array is a TypeError |
| Define20.ItemRefsFiledByItemOid | src/parser/define.20.ts:173-184 | every item reference is filed under its own item OID |
| Define20.WhereClauseRefsRoundTrip | src/parser/define.20.ts:146 | where-clause references are read back from their elements |
| Define20.GatedWhereClauseRefsRoundTrip | src/parser/define.20.ts:145-147 | an item reference's where-clause references are read back through the attribute gate |
| Define20.ItemRefRoundTrip | src/parser/define.20.ts:121-150 | a writable item reference is read back from its element |
| Define20.WhereClauseRefsDropped | src/parser/define.20.ts:145-147 | `whereClauseRef` children without an attribute of that name are dropped (see Notes) |
| Define20.ValueListEntry | src/parser/define.20.ts:158-169 | the item references are read first and their error wins; then a missing bag is a TypeError; a value list is filed under its OID |
| Define20.ParseValueLists | src/parser/define.20.ts:152-171 | falsy input gives the empty map; a truthy non-array is a TypeError |
| Define20.ValueListsFiledByOid | src/parser/define.20.ts:152-171 | every value list is filed under its own OID |
| Define20.ItemDefEntry | src/parser/define.20.ts:190-225 | no node is skipped; numbers and optional attributes are kept only when present; the description is read from its child when truthy; the code-list and value-list references are the first reference's OID; the origins are the one read from the first origin child |
| Define20.ParseItemDefs | src/parser/define.20.ts:186-227 | falsy input gives the empty map; a truthy non-array is a TypeError |
| Define20.ItemDefsFiledByOid | src/parser/define.20.ts:186-227 | every item definition is filed under its own OID |
| Define20.ItemGroupEntry | src/parser/define.20.ts:235-280 | item references are read first; `repeating` must be `Yes` or `No` or the 2.0 message is thrown; then a present `isReferenceData` other than `Yes` or `No` throws "Invalid value for ItemGroupDef.isReferenceData: " with the value, and a read item group has it absent, `Yes` or `No`; it holds its attributes, and the description, aliases and leaf are those read from their children |
| Define20.ParseItemGroups | src/parser/define.20.ts:229-282 | falsy input gives the empty map; a truthy non-array is a TypeError |
| Define20.ItemGroupsFiledByOid | src/parser/define.20.ts:229-282 | every item group is filed under its own OID |
| Define20.WithReferences | src/parser/define.20.ts:306-325 | annotated CRF, supplemental documents, value lists and where-clauses are each those read from their child, attached exactly when it is truthy; nothing else changes |
| Define20.WithDefinitions | src/parser/define.20.ts:326-345 | code lists, methods, comments and leafs are each those read from their child, attached exactly when it is truthy; nothing else changes |
| Define20.MetaDataVersionBase | src/parser/define.20.ts:290-345 | item groups, then item definitions, then the bag; the result holds the attributes, the two maps and every optional collection read from its child, attached exactly when it is truthy; no result displays |
| Define20.ParseMetaDataVersion | src/parser/define.20.ts:289-356 | `undefined` is a TypeError; the result has result displays exactly when `hasArm` |
| Define20.MetaDataVersionArm | src/parser/define.20.ts:347-355 | with `hasArm` the metadata version is the one read without it, plus the result displays; an error without ARM is the same error with ARM |
| Define20.MissingResultDisplays | src/parser/define.20.ts:350 | with `hasArm` but no `AnalysisResultDisplays` element the read fails with a TypeError |
| Define20.ParseStudy | src/parser/define.20.ts:363-379 | `undefined` or a missing bag is a TypeError; reads the OID; needs both children; the global variables and metadata version are those read from the first of each; has result displays exactly when `hasArm` |
| Define20.ParseOdm | src/parser/define.20.ts:386-430 | reads the study first, and the study is the one read from the first `study` child; the ODM version and file type are fixed constants; the namespaces, `xsi:schemaLocation`, file OID and creation time are the element's attributes; optional attributes are kept only when present; `xmlns:arm` is set exactly when `hasArm` |
| Define20.WithoutArm | src/parser/define.20.ts:421-429 | taking the ARM parts off leaves no ARM namespace and no result displays |
| Define20.ParseDefineXml | src/parser/define.20.ts:439-496 | a failed read gives the reader's message, a missing root gives the root error; on success the prolog is passed through and ARM parts are present exactly when `hasArm` |
| Define20.StudyArm | src/parser/define.20.ts:363-379 | a study read with ARM reads without it too, as the same study without result displays |
| Define20.OdmArm | src/parser/define.20.ts:386-430 | an ODM read with ARM reads without it too, as the same ODM without the ARM parts |
| Define20.ArmOnlyAdds | src/parser/define.20.ts:489-495 | a document read with `hasArm` is the document read without it, plus the ARM parts |
| Define21.ParseOrigin | src/parser/define.21.ts:129-144 | without a bag it is a TypeError; reads the type, and keeps the source only when present |
| Define21.ParseOrigins | src/parser/define.21.ts:128-145 | every origin element is read, in order |
| Define21.OriginVersions | src/parser/define.21.ts:128-145 | the 2.0 mapper reads an origin as 2.1 does, without the source and page titles |
| Define21.OriginsAllKept | src/parser/define.21.ts:476 | where 2.0 keeps only the first origin, 2.1 keeps them all, and 2.0's one is 2.1's first |
| Define21.CodeListEntry | src/parser/define.21.ts:258-300 | as in 2.0, plus the standard reference, the comment OID and the description read from its child; once the aliases, items and external code list are read, a present `isNonStandard` other than `Yes` throws its Yes-only message, and a read code list has it absent or `Yes` |
| Define21.ParseCodeLists | src/parser/define.21.ts:254-302 | falsy input gives the empty map; a truthy non-array is a TypeError |
| Define21.CodeListsFiledByOid | src/parser/define.21.ts:254-302 | every code list is filed under its own OID |
| Define21.CommentDefEntry | src/parser/define.21.ts:310-322 | no node is skipped; a missing bag is a TypeError; a comment is filed under its OID, and its description and document references are those read from their children, exactly when each child is truthy |
| Define21.ParseCommentDefs | src/parser/define.21.ts:304-324 | falsy input gives the empty map; a truthy non-array is a TypeError |
| Define21.CommentDefsFiledByOid | src/parser/define.21.ts:304-324 | every comment is filed under its own OID |
| Define21.MethodDefEntry | src/parser/define.21.ts:338-355 | no node is skipped; a missing bag is a TypeError; a method is filed under its OID, and its description, document references and formal expressions are those read from their children, exactly when each child is truthy |
| Define21.ParseMethodDefs | src/parser/define.21.ts:334-357 | falsy input gives the empty map; a truthy non-array is a TypeError |
| Define21.MethodDefsFiledByOid | src/parser/define.21.ts:334-357 | every method is filed under its own OID |
| Define21.ParseItemRef | src/parser/define.21.ts:359-405 | without a bag it is a TypeError; a bad `mandatory` throws the 2.1 message; the optional attributes are kept only when present and the where-clause references are the `whereClauseOid` values, exactly when the `whereClauseRef` attribute is present; an element 2.0 reads but whose `isNonStandard` is present and not `Yes` throws its Yes-only message; a read item reference is the 2.0 reading plus the standard OID and the flag |
| Define21.ItemRefIn20Reads | src/parser/define.21.ts:359-405 | an item reference 2.1 reads is read by 2.0 as the same record without the standard fields |
| Define21.ItemRefFrom20 | src/parser/define.21.ts:394-402 | 2.1 fails beyond 2.0 only on a bad `isNonStandard` |
| Define21.ItemRefFailsIn20 | src/parser/define.21.ts:359-372 | whatever 2.0 rejects, 2.1 rejects too |
| Define21.ItemRefEntry | src/parser/define.21.ts:431-442 | a node without a truthy bag or a present `itemOid` is skipped; a reference is filed under its item OID |
| Define21.ParseItemRefs | src/parser/define.21.ts:431-442 | falsy input gives the empty map; a truthy non-array is a TypeError |
| Define21.ItemRefsFiledByItemOid | src/parser/define.21.ts:431-442 | every item reference is filed under its own item OID |
| Define21.ValueListEntry | src/parser/define.21.ts:413-427 | the item references are read first; then a missing bag is a TypeError; a value list is filed under its OID, with its description only when present |
| Define21.ParseValueLists | src/parser/define.21.ts:407-429 | falsy input gives the empty map; a truthy non-array is a TypeError |
| Define21.ValueListsFiledByOid | src/parser/define.21.ts:407-429 | every value list is filed under its own OID |
| Define21.ItemDefEntry | src/parser/define.21.ts:448-486 | as in 2.0, but the origins are every origin element read, and the aliases are those read from their child |
| Define21.ParseItemDefs | src/parser/define.21.ts:444-488 | falsy input gives the empty map; a truthy non-array is a TypeError |
| Define21.ItemDefsFiledByOid | src/parser/define.21.ts:444-488 | every item definition is filed under its own OID |
| Define21.ParseSubClass | src/parser/define.21.ts:503-513 | fails with a TypeError exactly without a bag; reads `name`, and the parent class only when present |
| Define21.ParseSubClassesLoop | src/parser/define.21.ts:501-515 | the loop that pushes each sub-class computes the map over the sub-class elements, first error included |
| Define21.ParseClass | src/parser/define.21.ts:490-517 | anything but an array with a truthy first element throws the class message; sub-classes are attached exactly when the first element has a truthy `subClass` child |
| Define21.ItemGroupBase | src/parser/define.21.ts:526-545 | item references first; then the bag; `repeating` must be `Yes` or `No` or the 2.1 message is thrown; the record holds the attributes |
| Define21.StandardFlags | src/parser/define.21.ts:549-564 | `isNonStandard` is checked first, then `hasNoData`: each present value other than `Yes` throws its Yes-only message; a successful read has neither, and each flag is true exactly for `Yes` |
| Define21.WithStandardParts | src/parser/define.21.ts:546-586 | the standard OID; the two Yes-only flags fail first, as `StandardFlags` does; the class is the one read from its child when truthy; the domain; `isReferenceData` checked when present; nothing else changes |
| Define21.WithDescriptions | src/parser/define.21.ts:587-599 | comment OID when present; description, aliases and leaf are those read from their children; nothing else changes |
| Define21.ItemGroupEntry | src/parser/define.21.ts:525-602 | no node is skipped; a failing base fails the entry; then a present `isNonStandard` other than `Yes` throws its Yes-only message, then the same for `hasNoData`; a read item group has neither; it is the three steps in order, filed under its OID |
| Define21.ParseItemGroups | src/parser/define.21.ts:519-604 | falsy input gives the empty map; a truthy non-array is a TypeError |
| Define21.ItemGroupsFiledByOid | src/parser/define.21.ts:519-604 | every item group is filed under its own OID |
| Define21.ReferenceDataMessageShowsChild | src/parser/define.21.ts:582-584 | the message for a bad `isReferenceData` shows the element's child of that name, so it says "received undefined" (see Notes) |
| Define21.StandardEntry | src/parser/define.21.ts:610-628 | fails with a TypeError exactly without a bag; no node is skipped; a standard is filed under its OID, with optional parts only when present |
| Define21.StandardsIn | src/parser/define.21.ts:610 | the `standard` children of one `Standards` element make the map; a non-array is a TypeError |
| Define21.ParseStandards | src/parser/define.21.ts:606-630 | falsy input or a missing first element gives the empty map; otherwise the first element's standards |
| Define21.StandardsFiledByOid | src/parser/define.21.ts:626-627 | every standard is filed under its own OID |
| Define21.StandardsFirstOnly | src/parser/define.21.ts:610 | `Standards` elements after the first are never read |
| Define21.StandardRoundTrip | src/parser/define.21.ts:611-625 | a writable standard is read back under its key |
| Define21.StandardsRoundTrip | src/parser/define.21.ts:606-630 | standards written in one `Standards` element are read back as the map of their keyed records |
| Define21.WithReferences | src/parser/define.21.ts:653-672 | annotated CRF, supplemental documents, value lists and where-clauses are each those read from their child, attached exactly when it is truthy; nothing else changes |
| Define21.WithDefinitions | src/parser/define.21.ts:673-692 | code lists, methods, comments and leafs are each those read from their child, attached exactly when it is truthy; nothing else changes |
| Define21.MetaDataVersionMaps | src/parser/define.21.ts:633-635 | item groups, item definitions and standards are read in that order, and the first error wins |
| Define21.ParseMetaDataVersion | src/parser/define.21.ts:632-695 | `undefined` is a TypeError; the three maps come before the bag; the comment OID only when present; every optional part is the one read from its child, attached exactly when that child is truthy |
| Define21.ParseStudy | src/parser/define.21.ts:703-707 | `undefined` or a missing bag is a TypeError; reads the OID; needs both children; the global variables and metadata version are those read from the first of each |
| Define21.ParseOdm | src/parser/define.21.ts:709-740 | the bag is read before the study, which is the one read from the first `study` child; the ODM version and file type are fixed constants; the namespaces, `xsi:schemaLocation`, file OID and creation time are the element's attributes; optional attributes are kept only when present |
| Define21.ParseDefineXml | src/parser/define.21.ts:745-798 | a failed read gives the reader's message, a missing root gives the root error; otherwise the prolog with the mapped ODM |
| Define.ParseDefineXml | src/parser/define.ts:14-28 | versions other than `2.0` and `2.1` throw the unsupported message; a 2.0 document comes only from `2.0`, a 2.1 document only from `2.1`; a 2.0 document has the ARM namespace exactly when ARM was asked for |
| Define.Route20 | src/parser/define.ts:15-23 | `2.0` is read by the 2.0 mapper with the flag as given |
| Define.Route21 | src/parser/define.ts:18-26 | `2.1` is read by the 2.1 mapper, and the ARM flag changes nothing |
| Define.ArmOnlyAdds20 | src/parser/define.ts:15-23 | asking for ARM on a 2.0 document only adds the ARM parts |

## Left out

- XML reading (xml2js) and the `async`/`Promise` plumbing. The reader's outcome, a tree or a failure message, is a parameter (`Reading.ReadOutcome`).
- The prolog's regular expressions (src/parser/define.20.ts:449-470). The version, encoding and stylesheet values are a parameter (`Reading.Prolog`), passed through unchanged.
- Tree.ToNumber: reads only plain decimal naturals as numbers. Any other text, such as signs, fractions, exponents, hexadecimal or surrounding spaces, is kept as text rather than converted, because floating point is out of scope.
- Attributes that are not strings read as absent (`Tree.StrOf`). The reader only ever produces string attribute values.
- A field set to `undefined` (`r.f = undefined`) is modelled as a missing field. Only the ARM namespace of a 2.0 ODM keeps the difference: `xmlnsArm` is `Some(None)` there.
- `Object.values` and `for … in` order integer-like keys first. The model keeps every key in insertion order (`OrderedMaps.FirstValue`, `Names.Put`).
- The `throw` statements at src/parser/arm.10.ts:172 and :237 cannot be reached: the caller has already checked the tag. The version is a two-valued type (`Arm10.DefineVersion`).
- Upper and lower case: only ASCII letters.
- `hasArm` values other than `true` and `false` in src/parser/define.ts are not modelled; the flag is a `bool`.
- Keys of elements without their key attribute: the source files such an element under the string "undefined" but pushes the value `undefined` onto the order array. The model files it under "undefined" and writes "undefined" in the order too (`Tree.Show`), so it does not tell the two apart.
- Type casts and TypeScript interfaces (src/interfaces/) describe no behaviour and are not modelled.

## Notes

- **Normalisation is not idempotent.** `Names.CamelKeyNotIdempotent` gives a key, `XleafIDleafID`, that changes again on a second pass. The code is followed. Every key without an anchored abbreviation is stable (`Names.CamelKeyStable`).
- **Shared mappers are modelled once.** src/parser/define.21.ts carries private copies of the src/parser/define.core.ts mappers (translated text, aliases, leafs, check values, range checks, where-clauses, enumerated and code-list items, external code lists, formal expressions, global variables). They are identical, so `DefineCore` models them once.
- **Quirks are modelled as written:**
  - An item reference's `whereClauseRef` children are read only when the bag holds an attribute of that name, which the XML schema never has (`Define20.WhereClauseRefsDropped`).
  - 2.0 keeps only the first origin (`Define20.FirstOriginOnly`).
  - An analysis result keeps `parameterOid` only when the element itself, not its bag, has it (`Arm10.ParameterOidOnlyFromNode`).
  - The 2.1 mapper ignores the ARM flag (`Define.Route21`).
  - The 2.1 `isReferenceData` message shows the element's child rather than the attribute (`Define21.ReferenceDataMessageShowsChild`).
  - The 2.1 ODM bag is read before the study, while 2.0 reads the study first, so the two report different errors on a malformed ODM.
  - A check value is the element's `_` key, but the reader puts text under `value`, so the whole element is kept (`DefineCore.CheckValueIgnoresTextKey`).
