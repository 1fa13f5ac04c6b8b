/**
 * The key normaliser applied to the whole parsed tree before any mapping:
 * a leading `def:` or `arm:` namespace is stripped from every key, then every
 * key is rewritten to lower camel case by an ordered list of rules. Both are
 * instances of one tree walk that renames the keys of every object and
 * rebuilds it by assignment into a fresh object.
 */
module Names {
  import opened Base
  import opened Tree

  // ---------------------------------------------------------------------
  // Namespace stripping

  predicate HasNamespace(k: string) {
    StartsWith(k, "def:") || StartsWith(k, "arm:")
  }

  /** A key beginning with `def:` or `arm:` loses exactly that prefix; every
      other key, `xlink:href` and `xml:lang` among them, is kept. */
  function StripKey(k: string): (r: string)
    ensures HasNamespace(k) ==> |r| == |k| - 4 && k == k[..4] + r
    ensures !HasNamespace(k) ==> r == k
  {
    if HasNamespace(k) then k[4..] else k
  }

  /** Stripping undoes prefixing with either namespace. */
  lemma StripKeyInverse(k: string)
    ensures StripKey("def:" + k) == k && StripKey("arm:" + k) == k
  {
    assert ("def:" + k)[..4] == "def:";
    assert ("arm:" + k)[..4] == "arm:";
    assert ("def:" + k)[4..] == k;
    assert ("arm:" + k)[4..] == k;
  }

  /** The namespaces the mapper reads as such are kept. */
  lemma StripKeyKeepsOtherNamespaces()
    ensures StripKey("xlink:href") == "xlink:href"
    ensures StripKey("xml:lang") == "xml:lang"
    ensures StripKey("def:leafID") == "leafID"
    ensures StripKey("arm:ResultDisplay") == "ResultDisplay"
  {
    assert "xlink:href"[..4] == "xlin";
    assert "xml:lang"[..4] == "xml:";
    assert "def:leafID"[..4] == "def:";
    assert "arm:ResultDisplay"[..4] == "arm:";
  }

  // ---------------------------------------------------------------------
  // Lower camel case

  predicate IsUpper(c: char) { 'A' <= c <= 'Z' }
  predicate IsLower(c: char) { 'a' <= c <= 'z' }
  predicate IsAlnum(c: char) { IsUpper(c) || IsLower(c) || IsDigit(c) }

  /** `toLowerCase` on one character of the ASCII range. */
  function Lower(c: char): (r: char)
    ensures !IsUpper(r)
    ensures IsUpper(c) ==> IsLower(r) && r as int == c as int + 32
    ensures !IsUpper(c) ==> r == c
  {
    if IsUpper(c) then (c as int + 32) as char else c
  }

  function LowerAll(s: string): (r: string)
    ensures |r| == |s| && forall i :: 0 <= i < |s| ==> r[i] == Lower(s[i])
  {
    seq(|s|, i requires 0 <= i < |s| => Lower(s[i]))
  }

  /** `/^[A-Z]|leafID/`: only these keys are renamed. */
  predicate Gated(k: string) {
    (|k| > 0 && IsUpper(k[0])) || Contains(k, "leafID")
  }

  predicate IsCapsChar(c: char) { IsUpper(c) || IsDigit(c) || c == '_' }

  /** `/^[A-Z0-9_]+$/`. */
  predicate AllCaps(k: string) {
    |k| > 0 && forall i :: 0 <= i < |k| ==> IsCapsChar(k[i])
  }

  /** A lower-case letter ends at `j` and one of OID, CRF, ID starts there. */
  predicate AbbrevAt(k: string, j: nat) {
    0 < j <= |k| && IsLower(k[j - 1]) && (OccursAt("OID", k, j) || OccursAt("CRF", k, j) || OccursAt("ID", k, j))
  }

  /** `/[a-z](OID|CRF|ID)/.test(k)`. */
  predicate HasAbbrev(k: string) {
    exists j: nat | j <= |k| :: AbbrevAt(k, j)
  }

  function AbbrevLen(k: string, j: nat): (n: nat)
    requires AbbrevAt(k, j)
    ensures j + n <= |k| && (n == 2 || n == 3)
  {
    if OccursAt("ID", k, j) then 2 else 3
  }

  /** The largest `i <= j` at which an abbreviation follows a lower-case letter. */
  function AbbrevSearch(k: string, j: nat): (r: Option<nat>)
    requires j <= |k|
    ensures r.Some? ==> r.value <= j && AbbrevAt(k, r.value)
                        && forall i :: r.value < i <= j ==> !AbbrevAt(k, i)
    ensures r.None? ==> forall i: nat :: i <= j ==> !AbbrevAt(k, i)
    decreases j
  {
    if j == 0 then None
    else if AbbrevAt(k, j) then Some(j)
    else AbbrevSearch(k, j - 1)
  }

  /** The length of the longest prefix of `k[i..]` made of ASCII letters and digits, plus `i`. */
  function AlnumRun(k: string, i: nat): (r: nat)
    requires i <= |k|
    ensures i <= r <= |k|
    ensures forall m :: i <= m < r ==> IsAlnum(k[m])
    ensures r < |k| ==> !IsAlnum(k[r])
    decreases |k| - i
  {
    if i < |k| && IsAlnum(k[i]) then AlnumRun(k, i + 1) else i
  }

  /** The regular expression `^([a-zA-Z0-9]*[a-z])(OID|CRF|ID)` matches with
      its first group ending at `j`. */
  predicate AnchoredAt(k: string, j: nat) {
    AbbrevAt(k, j) && forall m :: 0 <= m < j ==> IsAlnum(k[m])
  }

  /** Where the greedy, anchored match ends its first group, if it matches:
      backtracking from the longest run of letters and digits, the last
      position that works. */
  function Anchor(k: string): (r: Option<nat>)
    ensures r.Some? ==> AnchoredAt(k, r.value) && forall i :: r.value < i <= |k| ==> !AnchoredAt(k, i)
    ensures r.None? ==> forall i :: !AnchoredAt(k, i)
  {
    var run := AlnumRun(k, 0);
    var r := AbbrevSearch(k, run);
    assert forall i :: run < i <= |k| ==> !AnchoredAt(k, i) by {
      forall i | run < i <= |k| ensures !AnchoredAt(k, i) {
        if run < |k| { assert !IsAlnum(k[run]); }
      }
    }
    r
  }

  /** The replacement of the match ending its first group at `j`: first letter
      of the key lowered, the abbreviation's tail lowered, the rest kept. */
  function ReplaceAbbrev(k: string, j: nat): string
    requires AbbrevAt(k, j)
  {
    var n := AbbrevLen(k, j);
    [Lower(k[0])] + k[1..j] + [k[j]] + LowerAll(k[j + 1..j + n]) + k[j + n..]
  }

  /** The replacement changes only the first character and the tail of the
      abbreviation, each lowered; the abbreviation keeps its first letter. */
  lemma ReplaceAbbrevChars(k: string, j: nat)
    requires AbbrevAt(k, j)
    ensures |ReplaceAbbrev(k, j)| == |k|
    ensures forall i :: 0 <= i < |k| ==>
      ReplaceAbbrev(k, j)[i] == if i == 0 || j < i < j + AbbrevLen(k, j) then Lower(k[i]) else k[i]
  {
  }

  /** The replacement assembled from its parts. */
  lemma ReplaceAbbrevParts(k: string, j: nat, mid: string, tail: string, rest: string, out: string)
    requires AbbrevAt(k, j)
    requires k[1..j] == mid && LowerAll(k[j + 1..j + AbbrevLen(k, j)]) == tail && k[j + AbbrevLen(k, j)..] == rest
    requires out == [Lower(k[0])] + mid + [k[j]] + tail + rest
    ensures ReplaceAbbrev(k, j) == out
  {
  }

  /** The abbreviation rule: the anchored match rewritten, or the key kept when
      the anchored match fails. */
  function AbbrevRule(k: string): string {
    match Anchor(k)
    case None => k
    case Some(j) => ReplaceAbbrev(k, j)
  }

  /** `convertAttributeNameToLowerCamelCase` on a single key. */
  function CamelKey(k: string): (r: string)
  {
    if !Gated(k) then k
    else if AllCaps(k) then LowerAll(k)
    else if AbbrevSearch(k, |k|).Some? then AbbrevRule(k)
    else if k == "ODMVersion" then "odmVersion"
    else
      assert |k| > 0 by { if !(|k| > 0 && IsUpper(k[0])) { var i: nat :| i <= |k| && OccursAt("leafID", k, i); } }
      [Lower(k[0])] + k[1..]
  }

  /** The abbreviation test of the source is the search's success. */
  lemma AbbrevSearchIsTest(k: string)
    ensures AbbrevSearch(k, |k|).Some? <==> HasAbbrev(k)
  {
    var r := AbbrevSearch(k, |k|);
    if r.Some? {
      assert AbbrevAt(k, r.value);
    }
  }

  /** A key the gate refuses is left as it is. */
  lemma CamelKeyUngated(k: string)
    requires !Gated(k)
    ensures CamelKey(k) == k
  {
  }

  /** A gated key of capitals, digits and underscores is lower-cased whole,
      and is then of lower case throughout. */
  lemma CamelKeyAllCaps(k: string)
    requires Gated(k) && AllCaps(k)
    ensures CamelKey(k) == LowerAll(k)
    ensures forall i :: 0 <= i < |k| ==> !IsUpper(CamelKey(k)[i])
  {
  }

  /** A gated key with an abbreviation after a lower-case letter, matched from
      the start: the longest such match is the one rewritten. */
  lemma CamelKeyAbbrev(k: string, j: nat)
    requires Gated(k) && !AllCaps(k) && AnchoredAt(k, j)
    requires forall i :: j < i <= |k| ==> !AnchoredAt(k, i)
    ensures CamelKey(k) == ReplaceAbbrev(k, j)
  {
    AbbrevSearchIsTest(k);
  }

  /** The abbreviation test can succeed where the anchored match fails (a
      character outside letters and digits before the abbreviation); the key
      is then kept as it is. */
  lemma CamelKeyAbbrevUnanchored(k: string)
    requires Gated(k) && !AllCaps(k) && HasAbbrev(k) && forall i :: !AnchoredAt(k, i)
    ensures CamelKey(k) == k
  {
    AbbrevSearchIsTest(k);
  }

  /** The two keys without a match of the abbreviation rule: the version
      attribute has a fixed spelling, every other gated key has only its first
      character lowered. */
  lemma CamelKeyDefault(k: string)
    requires Gated(k) && !AllCaps(k) && !HasAbbrev(k)
    ensures |k| > 0
    ensures k == "ODMVersion" ==> CamelKey(k) == "odmVersion"
    ensures k != "ODMVersion" ==> CamelKey(k) == [Lower(k[0])] + k[1..]
  {
    AbbrevSearchIsTest(k);
    if !(|k| > 0 && IsUpper(k[0])) {
      var i: nat :| i <= |k| && OccursAt("leafID", k, i);
    }
  }

  /** An occurrence of `leafID` is an abbreviation after a lower-case letter. */
  lemma LeafIdIsAbbrev(k: string, i: nat)
    requires OccursAt("leafID", k, i)
    ensures AbbrevAt(k, i + 4)
  {
    assert k[i + 3] == "leafID"[3];
    assert k[i + 4..i + 6] == "leafID"[4..6];
  }

  /** Lowering the first character of a key cannot create an occurrence of
      `leafID` that is not an abbreviation of the key itself. */
  lemma LeafIdAfterFirst(k: string, i: nat)
    requires |k| > 0 && OccursAt("leafID", [Lower(k[0])] + k[1..], i)
    ensures AbbrevAt(k, i + 4)
  {
    var r := [Lower(k[0])] + k[1..];
    assert r[i..i + 6][3] == r[i + 3] == k[i + 3];
    assert r[i..i + 6][4] == r[i + 4] == k[i + 4];
    assert r[i..i + 6][5] == r[i + 5] == k[i + 5];
    assert k[i + 4..i + 6] == "ID";
  }

  /** A string starting with no capital and holding no `I` is refused by the gate. */
  lemma NoCapitalIUngated(s: string)
    requires |s| > 0 ==> !IsUpper(s[0])
    requires forall i :: 0 <= i < |s| ==> s[i] != 'I'
    ensures !Gated(s)
  {
    forall i: nat | i <= |s| ensures !OccursAt("leafID", s, i) {
      if i + 6 <= |s| {
        assert s[i..i + 6][4] == s[i + 4];
      }
    }
  }

  /** A string with no upper-case character is refused by the gate. */
  lemma NoUpperUngated(s: string)
    requires forall i :: 0 <= i < |s| ==> !IsUpper(s[i])
    ensures !Gated(s)
  {
    forall i: nat | i <= |s| ensures !OccursAt("leafID", s, i) {
      if i + 6 <= |s| {
        assert s[i..i + 6][4] == s[i + 4];
      }
    }
  }

  /** Every rule except the abbreviation rule produces a key the gate refuses,
      so applying the conversion again changes nothing. */
  lemma {:induction false} CamelKeyStable(k: string)
    requires !(Gated(k) && !AllCaps(k) && Anchor(k).Some?)
    ensures !Gated(k) || !HasAbbrev(k) || AllCaps(k) ==> !Gated(CamelKey(k)) || CamelKey(k) == k
    ensures CamelKey(CamelKey(k)) == CamelKey(k)
  {
    var r := CamelKey(k);
    if !Gated(k) {
    } else if AllCaps(k) {
      NoUpperUngated(r);
    } else if HasAbbrev(k) {
      CamelKeyAbbrevUnanchored(k);
    } else if k == "ODMVersion" {
      CamelKeyDefault(k);
      NoCapitalIUngated(r);
    } else {
      CamelKeyDefault(k);
      assert r == [Lower(k[0])] + k[1..];
      if !(|k| > 0 && IsUpper(k[0])) {
        var i: nat :| i <= |k| && OccursAt("leafID", k, i);
        LeafIdIsAbbrev(k, i);
        assert false;
      }
      if Contains(r, "leafID") {
        var i: nat :| i <= |r| && OccursAt("leafID", r, i);
        LeafIdAfterFirst(k, i);
        assert false;
      }
    }
  }

  /** The search settles on `i` when no later position up to `j` qualifies. */
  lemma AbbrevSearchFinds(k: string, j: nat, i: nat)
    requires i <= j <= |k| && AbbrevAt(k, i)
    requires forall m :: i < m <= j ==> !AbbrevAt(k, m)
    ensures AbbrevSearch(k, j) == Some(i)
  {
  }

  /** The characters an abbreviation after a lower-case letter is made of. */
  lemma AbbrevAtChars(k: string, m: nat)
    requires AbbrevAt(k, m)
    ensures m < |k| && IsLower(k[m - 1]) && (k[m] == 'O' || k[m] == 'C' || k[m] == 'I')
    ensures k[m] == 'I' ==> m + 1 < |k| && k[m + 1] == 'D'
  {
    if OccursAt("OID", k, m) {
      assert k[m] == k[m..m + 3][0];
    } else if OccursAt("CRF", k, m) {
      assert k[m] == k[m..m + 3][0];
    } else {
      assert k[m] == k[m..m + 2][0];
      assert k[m + 1] == k[m..m + 2][1];
    }
  }

  /** The conversion is not idempotent: a key with `leafID` twice is rewritten
      at its last abbreviation, and the output still passes the gate and is
      rewritten at the first one. */
  lemma CamelKeyNotIdempotent()
    ensures CamelKey("XleafIDleafID") == "xleafIDleafId"
    ensures CamelKey(CamelKey("XleafIDleafID")) == "xleafIdleafId" != CamelKey("XleafIDleafID")
  {
    CamelKeyTwiceLeafIdFirst();
    CamelKeyTwiceLeafIdSecond();
  }

  lemma TwiceLeafIdFirstFacts(k: string)
    requires k == "XleafIDleafID"
    ensures Gated(k) && !AllCaps(k) && AnchoredAt(k, 11)
    ensures forall m :: 11 < m <= |k| ==> !AnchoredAt(k, m)
  {
    assert !IsCapsChar(k[1]);
    forall m | 11 < m <= |k| ensures !AnchoredAt(k, m) {
      if AbbrevAt(k, m) { AbbrevAtChars(k, m); }
    }
  }
  lemma TwiceLeafIdFirstReplace(k: string)
    requires k == "XleafIDleafID"
    ensures AbbrevAt(k, 11) && ReplaceAbbrev(k, 11) == "xleafIDleafId"
  {
    assert AbbrevAt(k, 11) && AbbrevLen(k, 11) == 2;
    assert k[1..11] == "leafIDleaf" && k[12..13] == "D" && k[13..] == "";
    assert LowerAll("D") == "d";
    ReplaceAbbrevParts(k, 11, "leafIDleaf", "d", "", "xleafIDleafId");
  }

  lemma CamelKeyTwiceLeafIdFirst()
    ensures CamelKey("XleafIDleafID") == "xleafIDleafId"
  {
    TwiceLeafIdFirstFacts("XleafIDleafID");
    CamelKeyAbbrev("XleafIDleafID", 11);
    TwiceLeafIdFirstReplace("XleafIDleafID");
  }

  lemma TwiceLeafIdSecondFacts(k: string)
    requires k == "xleafIDleafId"
    ensures Gated(k) && !AllCaps(k) && AnchoredAt(k, 5)
    ensures forall m :: 5 < m <= |k| ==> !AnchoredAt(k, m)
  {
    assert OccursAt("leafID", k, 1);
    assert !IsCapsChar(k[0]);
    forall m | 5 < m <= |k| ensures !AnchoredAt(k, m) {
      if AbbrevAt(k, m) { AbbrevAtChars(k, m); }
    }
  }
  lemma TwiceLeafIdSecondReplace(k: string)
    requires k == "xleafIDleafId"
    ensures AbbrevAt(k, 5) && ReplaceAbbrev(k, 5) == "xleafIdleafId"
  {
    ReplaceAbbrevParts(k, 5, "leaf", "d", "leafId", "xleafIdleafId");
  }

  lemma CamelKeyTwiceLeafIdSecond()
    ensures CamelKey("xleafIDleafId") == "xleafIdleafId"
  {
    TwiceLeafIdSecondFacts("xleafIDleafId");
    CamelKeyAbbrev("xleafIDleafId", 5);
    TwiceLeafIdSecondReplace("xleafIDleafId");
  }

  /** Keys of capitals only are lower-cased whole. */
  lemma CamelKeyExamplesAllCaps()
    ensures CamelKey("OID") == "oid"
    ensures CamelKey("ODM") == "odm"
  {
  }

  /** Keys with an abbreviation after a lower-case letter. */
  lemma CamelKeyExamplesAbbrev()
    ensures CamelKey("FileOID") == "fileOid"
    ensures CamelKey("AnnotatedCRF") == "annotatedCrf"
    ensures CamelKey("leafID") == "leafId"
  {
    CamelKeyFileOid();
    CamelKeyAnnotatedCrf();
    CamelKeyLeafId();
  }

  lemma FileOidFacts(k: string)
    requires k == "FileOID"
    ensures Gated(k) && !AllCaps(k) && AnchoredAt(k, 4)
    ensures forall m :: 4 < m <= |k| ==> !AnchoredAt(k, m)
  {
    assert !IsCapsChar(k[1]);
    forall m | 4 < m <= |k| ensures !AnchoredAt(k, m) {
      if AbbrevAt(k, m) { AbbrevAtChars(k, m); }
    }
  }
  lemma FileOidReplace(k: string)
    requires k == "FileOID"
    ensures AbbrevAt(k, 4) && ReplaceAbbrev(k, 4) == "fileOid"
  {
    assert k[4..7] == "OID" && k[4..6][0] == 'O';
    assert !OccursAt("ID", k, 4);
    assert AbbrevLen(k, 4) == 3;
    assert k[5..7] == ['I', 'D'];
    assert Lower('I') == 'i' && Lower('D') == 'd';
    assert LowerAll(k[5..7]) == "id";
    ReplaceAbbrevParts(k, 4, "ile", "id", "", "fileOid");
  }

  lemma CamelKeyFileOid()
    ensures CamelKey("FileOID") == "fileOid"
  {
    FileOidFacts("FileOID");
    CamelKeyAbbrev("FileOID", 4);
    FileOidReplace("FileOID");
  }

  lemma AnnotatedCrfFacts(k: string)
    requires k == "AnnotatedCRF"
    ensures Gated(k) && !AllCaps(k) && AnchoredAt(k, 9)
    ensures forall m :: 9 < m <= |k| ==> !AnchoredAt(k, m)
  {
    assert !IsCapsChar(k[1]);
    forall m | 9 < m <= |k| ensures !AnchoredAt(k, m) {
      if AbbrevAt(k, m) { AbbrevAtChars(k, m); }
    }
  }
  lemma AnnotatedCrfReplace(k: string)
    requires k == "AnnotatedCRF"
    ensures AbbrevAt(k, 9) && ReplaceAbbrev(k, 9) == "annotatedCrf"
  {
    assert k[9..12] == "CRF" && k[9..11][0] == 'C';
    assert !OccursAt("ID", k, 9);
    assert AbbrevLen(k, 9) == 3;
    assert k[10..12] == ['R', 'F'];
    assert Lower('R') == 'r' && Lower('F') == 'f';
    assert LowerAll(k[10..12]) == "rf";
    ReplaceAbbrevParts(k, 9, "nnotated", "rf", "", "annotatedCrf");
  }

  lemma CamelKeyAnnotatedCrf()
    ensures CamelKey("AnnotatedCRF") == "annotatedCrf"
  {
    AnnotatedCrfFacts("AnnotatedCRF");
    CamelKeyAbbrev("AnnotatedCRF", 9);
    AnnotatedCrfReplace("AnnotatedCRF");
  }

  lemma LeafIdFacts(k: string)
    requires k == "leafID"
    ensures Gated(k) && !AllCaps(k) && AnchoredAt(k, 4)
    ensures forall m :: 4 < m <= |k| ==> !AnchoredAt(k, m)
  {
    assert OccursAt("leafID", k, 0);
    assert !IsCapsChar(k[0]);
    forall m | 4 < m <= |k| ensures !AnchoredAt(k, m) {
      if AbbrevAt(k, m) { AbbrevAtChars(k, m); }
    }
  }
  lemma LeafIdReplace(k: string)
    requires k == "leafID"
    ensures AbbrevAt(k, 4) && ReplaceAbbrev(k, 4) == "leafId"
  {
    ReplaceAbbrevParts(k, 4, "eaf", "d", "", "leafId");
  }

  lemma CamelKeyLeafId()
    ensures CamelKey("leafID") == "leafId"
  {
    LeafIdFacts("leafID");
    CamelKeyAbbrev("leafID", 4);
    LeafIdReplace("leafID");
  }

  /** The version attribute and the default rule. */
  lemma CamelKeyExamplesDefault()
    ensures CamelKey("ODMVersion") == "odmVersion"
    ensures CamelKey("SASDatasetName") == "sASDatasetName"
    ensures CamelKey("PDFPageRef") == "pDFPageRef"
  {
    CamelKeyDefaultExample("ODMVersion", "odmVersion");
    CamelKeyDefaultExample("SASDatasetName", "sASDatasetName");
    CamelKeyDefaultExample("PDFPageRef", "pDFPageRef");
  }

  lemma CamelKeyDefaultExample(k: string, out: string)
    requires || (k == "ODMVersion" && out == "odmVersion")
             || (k == "SASDatasetName" && out == "sASDatasetName")
             || (k == "PDFPageRef" && out == "pDFPageRef")
    ensures CamelKey(k) == out
  {
    DefaultFacts(k);
    CamelKeyDefault(k);
    assert k != "ODMVersion" ==> [Lower(k[0])] + k[1..] == out;
  }

  lemma DefaultFacts(k: string)
    requires k == "ODMVersion" || k == "SASDatasetName" || k == "PDFPageRef"
    ensures Gated(k) && !AllCaps(k) && !HasAbbrev(k)
  {
    assert !IsCapsChar(k[4]);
    forall m | 0 < m <= |k| ensures !AbbrevAt(k, m) {
      if AbbrevAt(k, m) { AbbrevAtChars(k, m); }
    }
  }

  /** Keys the gate refuses. */
  lemma CamelKeyExamplesUngated()
    ensures CamelKey("$") == "$" && CamelKey("value") == "value" && CamelKey("xlink:href") == "xlink:href"
  {
    NoUpperUngated("value");
    NoUpperUngated("xlink:href");
    NoUpperUngated("$");
  }

  // ---------------------------------------------------------------------
  // The tree walk

  /** `result[key] = value` on an object built by assignment: an existing key
      keeps its place and takes the new value, a new key goes last. */
  function Put(fields: seq<(string, Node)>, key: string, value: Node): (r: seq<(string, Node)>)
    ensures forall k :: Find(r, k) == if k == key then Some(value) else Find(fields, k)
  {
    if fields == [] then [(key, value)]
    else if fields[0].0 == key then [(key, value)] + fields[1..]
    else [fields[0]] + Put(fields[1..], key, value)
  }

  /** The assignments of a `for … in` loop into a fresh object, in order. */
  function PutAll(pairs: seq<(string, Node)>): seq<(string, Node)>
  {
    if pairs == [] then [] else Put(PutAll(pairs[..|pairs| - 1]), pairs[|pairs| - 1].0, pairs[|pairs| - 1].1)
  }

  /** The value of the last pair with key `k`. */
  function LastValue(pairs: seq<(string, Node)>, k: string): (r: Option<Node>)
    ensures r.None? <==> forall i :: 0 <= i < |pairs| ==> pairs[i].0 != k
    ensures r.Some? ==> exists i :: 0 <= i < |pairs| && pairs[i] == (k, r.value)
                                    && forall j :: i < j < |pairs| ==> pairs[j].0 != k
  {
    if pairs == [] then None
    else if pairs[|pairs| - 1].0 == k then Some(pairs[|pairs| - 1].1)
    else LastValue(pairs[..|pairs| - 1], k)
  }

  /** Reading a key of an object filled by assignment gives the value last
      assigned to that key. */
  lemma {:induction false} PutAllFind(pairs: seq<(string, Node)>, k: string)
    ensures Find(PutAll(pairs), k) == LastValue(pairs, k)
  {
    if pairs != [] {
      PutAllFind(pairs[..|pairs| - 1], k);
    }
  }

  predicate DistinctKeys(pairs: seq<(string, Node)>) {
    forall i, j :: 0 <= i < j < |pairs| ==> pairs[i].0 != pairs[j].0
  }

  /** Assigning distinct keys in order builds the pairs themselves: every key
      in its place. */
  lemma {:induction false} PutAllDistinct(pairs: seq<(string, Node)>)
    requires DistinctKeys(pairs)
    ensures PutAll(pairs) == pairs
  {
    if pairs != [] {
      var init := pairs[..|pairs| - 1];
      PutAllDistinct(init);
      PutAppendNew(init, pairs[|pairs| - 1].0, pairs[|pairs| - 1].1);
    }
  }

  lemma {:induction false} PutAppendNew(fields: seq<(string, Node)>, key: string, value: Node)
    requires forall i :: 0 <= i < |fields| ==> fields[i].0 != key
    ensures Put(fields, key, value) == fields + [(key, value)]
  {
    if fields != [] {
      PutAppendNew(fields[1..], key, value);
    }
  }

  /** Renaming every key of every object with `f`, values renamed recursively. */
  function Rename(n: Node, f: string -> string): (r: Node)
    decreases n
  {
    match n
    case Str(_) => n
    case Arr(items) => Arr(seq(|items|, i requires 0 <= i < |items| => Rename(items[i], f)))
    case Obj(fields) => Obj(PutAll(seq(|fields|, i requires 0 <= i < |fields| => (f(fields[i].0), Rename(fields[i].1, f)))))
  }

  /** Arrays are renamed element-wise, keeping length and order; strings are
      returned unchanged; objects stay objects. */
  lemma RenameShape(n: Node, f: string -> string)
    ensures n.Str? ==> Rename(n, f) == n
    ensures n.Arr? ==> Rename(n, f).Arr? && |Rename(n, f).items| == |n.items|
                       && forall i :: 0 <= i < |n.items| ==> Rename(n, f).items[i] == Rename(n.items[i], f)
    ensures n.Obj? ==> Rename(n, f).Obj?
  {
  }

  /** Each key of a renamed object holds the renamed value of the last field
      whose key renames to it. */
  lemma RenameLookup(fields: seq<(string, Node)>, f: string -> string, k: string)
    ensures Lookup(Rename(Obj(fields), f), k)
         == LastValue(seq(|fields|, i requires 0 <= i < |fields| => (f(fields[i].0), Rename(fields[i].1, f))), k)
  {
    PutAllFind(seq(|fields|, i requires 0 <= i < |fields| => (f(fields[i].0), Rename(fields[i].1, f))), k);
  }

  /** When no two keys of an object rename to the same key, the object keeps
      its fields in place: each key renamed and its value renamed. */
  lemma RenameInPlace(fields: seq<(string, Node)>, f: string -> string)
    requires forall i, j :: 0 <= i < j < |fields| ==> f(fields[i].0) != f(fields[j].0)
    ensures var r := Rename(Obj(fields), f);
      |r.fields| == |fields| && forall i :: 0 <= i < |fields| ==> r.fields[i] == (f(fields[i].0), Rename(fields[i].1, f))
  {
    var pairs := seq(|fields|, i requires 0 <= i < |fields| => (f(fields[i].0), Rename(fields[i].1, f)));
    assert DistinctKeys(pairs);
    PutAllDistinct(pairs);
  }

  /** `removeNamespaces` and `convertAttributeNameToLowerCamelCase` as one walk:
      a recursive call per value, and a loop per object that assigns each
      renamed key into a fresh object. */
  method RenameWalk(n: Node, f: string -> string) returns (r: Node)
    ensures r == Rename(n, f)
    decreases n
  {
    match n
    case Str(_) =>
      r := n;
    case Arr(items) =>
      var out: seq<Node> := [];
      var i := 0;
      while i < |items|
        invariant 0 <= i <= |items|
        invariant out == seq(i, j requires 0 <= j < i => Rename(items[j], f))
      {
        var c := RenameWalk(items[i], f);
        out := out + [c];
        i := i + 1;
      }
      r := Arr(out);
    case Obj(fields) =>
      ghost var pairs := seq(|fields|, j requires 0 <= j < |fields| => (f(fields[j].0), Rename(fields[j].1, f)));
      var result: seq<(string, Node)> := [];
      var i := 0;
      while i < |fields|
        invariant 0 <= i <= |fields|
        invariant result == PutAll(pairs[..i])
      {
        var key := f(fields[i].0);
        var value := RenameWalk(fields[i].1, f);
        assert pairs[..i + 1][..i] == pairs[..i];
        result := Put(result, key, value);
        i := i + 1;
      }
      assert pairs[..|fields|] == pairs;
      r := Obj(result);
  }

  /** The whole normalisation: namespaces stripped, then keys camel-cased. */
  function Normalize(n: Node): Node {
    Rename(Rename(n, StripKey), CamelKey)
  }

  method NormalizeWalk(n: Node) returns (r: Node)
    ensures r == Normalize(n)
  {
    var stripped := RenameWalk(n, StripKey);
    r := RenameWalk(stripped, CamelKey);
  }

  /** Normalising an object whose keys neither collide after stripping nor
      after conversion renames each key in place, with both rewrites applied
      in turn. */
  lemma NormalizeInPlace(fields: seq<(string, Node)>)
    requires forall i, j :: 0 <= i < j < |fields| ==> StripKey(fields[i].0) != StripKey(fields[j].0)
    requires forall i, j :: 0 <= i < j < |fields| ==> CamelKey(StripKey(fields[i].0)) != CamelKey(StripKey(fields[j].0))
    ensures var r := Normalize(Obj(fields));
      |r.fields| == |fields|
      && forall i :: 0 <= i < |fields| ==> r.fields[i] == (CamelKey(StripKey(fields[i].0)), Normalize(fields[i].1))
  {
    RenameInPlace(fields, StripKey);
    var s := Rename(Obj(fields), StripKey);
    RenameInPlace(s.fields, CamelKey);
  }
}
