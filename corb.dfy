/**
 * The Cross-Origin Read Blocking audit: from the captured records and the
 * page's final URL it keeps the "blockable" records (same-origin documents
 * that are not served with `X-Content-Type-Options: nosniff`) and turns them
 * into a verdict, a score, a display string and a one-column table.
 *
 * The origin of a URL (`new URL(...)` followed by `URL.originsMatch`) and the
 * number formatter `Util.formatNumber` belong to other modules of the
 * program; they are parameters here.
 */
module Corb {
  import opened Seqs
  import opened Records

  /** The name the source compares a lower-cased header name with. */
  const NosniffNameAsWritten := "X-Content-Type-Options"
  /** The lower-case spelling the comparison needs. */
  const NosniffName := "x-content-type-options"
  const NosniffValue := "nosniff"

  /** `record._responseHeaders || []`: a missing list reads as the empty list. */
  function HeadersOf(r: NetworkRecord): seq<Option<Header>>
  {
    match r.responseHeaders
    case None => []
    case Some(list) => list
  }

  /**
   * Through `HeadersOf`, a record without a header list is judged exactly
   * like the same record with an empty one, by both nosniff tests.
   */
  lemma MissingHeadersReadAsEmpty(r: NetworkRecord)
    requires r.responseHeaders.None?
    ensures IsNosniffRecord(r) == IsNosniffRecord(r.(responseHeaders := Some([])))
    ensures IsNosniffRecordAsWritten(r) == IsNosniffRecordAsWritten(r.(responseHeaders := Some([])))
    ensures !IsNosniffRecord(r)
  {
    assert HeadersOf(r) == HeadersOf(r.(responseHeaders := Some([]))) == [];
  }

  // ---------------------------------------------------------------------
  // isNosniffRecord, as written

  /** The `findIndex` callback as written: null entries are skipped, then both sides are lower-cased. */
  predicate IsNosniffHeaderAsWritten(h: Option<Header>) {
    h.Some? && ToLower(h.value.name) == NosniffNameAsWritten && ToLower(h.value.value) == NosniffValue
  }

  predicate IsNosniffRecordAsWritten(r: NetworkRecord) {
    FindIndex(HeadersOf(r), IsNosniffHeaderAsWritten) != -1
  }

  /** The predicate as written holds of no record at all. */
  lemma NosniffAsWrittenNeverHolds(r: NetworkRecord)
    ensures !IsNosniffRecordAsWritten(r)
  {
    var hs := HeadersOf(r);
    forall i | 0 <= i < |hs|
      ensures !IsNosniffHeaderAsWritten(hs[i])
    {
      if hs[i].Some? {
        LowerHasNoUpper(hs[i].value.name, NosniffNameAsWritten, 0);
      }
    }
  }

  // ---------------------------------------------------------------------
  // isNosniffRecord, with the comparison the audit evidently intends

  predicate IsNosniffHeader(h: Option<Header>) {
    h.Some? && ToLower(h.value.name) == NosniffName && ToLower(h.value.value) == NosniffValue
  }

  /**
   * True exactly when some (non-null) header is `x-content-type-options: nosniff`
   * in any letter case; false when the record has no header list.
   */
  function IsNosniffRecord(r: NetworkRecord): (b: bool)
    ensures b <==> exists i :: 0 <= i < |HeadersOf(r)| && IsNosniffHeader(HeadersOf(r)[i])
    ensures r.responseHeaders.None? ==> !b
  {
    FindIndex(HeadersOf(r), IsNosniffHeader) != -1
  }

  /** Header order does not matter: a nosniff header anywhere in the list is found. */
  lemma NosniffAnywhere(r: NetworkRecord, before: seq<Option<Header>>, h: Header, after: seq<Option<Header>>)
    requires r.responseHeaders == Some(before + [Some(h)] + after)
    requires ToLower(h.name) == NosniffName && ToLower(h.value) == NosniffValue
    ensures IsNosniffRecord(r)
  {
    assert HeadersOf(r)[|before|] == Some(h);
  }

  /** `X-Content-Type-Options: NoSniff` is recognised by the intended predicate and missed as written. */
  lemma NosniffMixedCaseHeader(r: NetworkRecord)
    requires r.responseHeaders == Some([Some(Header("X-Content-Type-Options", "NoSniff"))])
    ensures IsNosniffRecord(r)
    ensures !IsNosniffRecordAsWritten(r)
  {
    var h := Header("X-Content-Type-Options", "NoSniff");
    LowerNosniffName();
    LowerNosniffValue();
    assert HeadersOf(r)[0] == Some(h);
    NosniffAsWrittenNeverHolds(r);
  }

  lemma LowerNosniffName()
    ensures ToLower("X-Content-Type-Options") == NosniffName
  {
    var s := "X-Content-Type-Options";
    forall i | 0 <= i < |s|
      ensures ToLower(s)[i] == NosniffName[i]
    {
    }
  }

  lemma LowerNosniffValue()
    ensures ToLower("NoSniff") == NosniffValue
  {
    var s := "NoSniff";
    forall i | 0 <= i < |s|
      ensures ToLower(s)[i] == NosniffValue[i]
    {
    }
  }

  // ---------------------------------------------------------------------
  // isDocumentRecord

  /** True exactly when a resource type is present and named `Document`. */
  function IsDocumentRecord(r: NetworkRecord): (b: bool)
    ensures b <==> r.resourceType == Some(ResourceType("Document"))
    ensures r.resourceType.None? ==> !b
  {
    r.resourceType.Some? && r.resourceType.value.name == "Document"
  }

  // ---------------------------------------------------------------------
  // isSameOriginRecord

  /** The origin of a URL: scheme, host and port. */
  datatype Origin = Origin(scheme: string, host: string, port: nat)

  /** `URL.originsMatch(new URL(a), new URL(b))`. */
  predicate OriginsMatch(a: string, b: string, originOf: string -> Origin) {
    originOf(a) == originOf(b)
  }

  predicate IsSameOriginRecord(r: NetworkRecord, mainUrl: string, originOf: string -> Origin) {
    OriginsMatch(r.url, mainUrl, originOf)
  }

  lemma OriginsMatchReflexive(a: string, originOf: string -> Origin)
    ensures OriginsMatch(a, a, originOf)
  {
  }

  lemma OriginsMatchSymmetric(a: string, b: string, originOf: string -> Origin)
    ensures OriginsMatch(a, b, originOf) == OriginsMatch(b, a, originOf)
  {
  }

  /** Whether a record is same-origin depends on nothing but the two origins. */
  lemma SameOriginOnlyByOrigin(r1: NetworkRecord, r2: NetworkRecord, mainUrl: string, originOf: string -> Origin)
    requires originOf(r1.url) == originOf(r2.url)
    ensures IsSameOriginRecord(r1, mainUrl, originOf) == IsSameOriginRecord(r2, mainUrl, originOf)
  {
  }

  // ---------------------------------------------------------------------
  // blockableRecords

  predicate IsBlockable(r: NetworkRecord, mainUrl: string, originOf: string -> Origin) {
    !IsNosniffRecord(r) && IsDocumentRecord(r) && IsSameOriginRecord(r, mainUrl, originOf)
  }

  /** `networkRecords.filter(...)`: the blockable records, in capture order. */
  function BlockableRecords(records: seq<NetworkRecord>, mainUrl: string, originOf: string -> Origin): (bs: seq<NetworkRecord>)
    ensures |bs| <= |records|
    ensures forall i :: 0 <= i < |bs| ==> bs[i] in records && IsBlockable(bs[i], mainUrl, originOf)
  {
    Filter(records, r => IsBlockable(r, mainUrl, originOf))
  }

  /**
   * The blockable records are exactly the input records that are not nosniff,
   * are documents and are same-origin; they form an order-preserving
   * subsequence of the input, each kept as often as it occurs.
   */
  lemma BlockableRecordsExactly(records: seq<NetworkRecord>, mainUrl: string, originOf: string -> Origin)
    ensures forall x :: x in BlockableRecords(records, mainUrl, originOf) <==>
      x in records && !IsNosniffRecord(x) && IsDocumentRecord(x) && IsSameOriginRecord(x, mainUrl, originOf)
    ensures IsSubsequence(BlockableRecords(records, mainUrl, originOf), records)
    ensures forall x :: multiset(BlockableRecords(records, mainUrl, originOf))[x] == (if IsBlockable(x, mainUrl, originOf) then multiset(records)[x] else 0)
    ensures |BlockableRecords(records, mainUrl, originOf)| == Count(records, r => IsBlockable(r, mainUrl, originOf))
  {
    var p := r => IsBlockable(r, mainUrl, originOf);
    FilterMembership(records, p);
    FilterIsSubsequence(records, p);
    forall x ensures multiset(Filter(records, p))[x] == if p(x) then multiset(records)[x] else 0 {
      FilterMultiset(records, p, x);
    }
    FilterLength(records, p);
  }

  /** Together these two determine the filter: it keeps a single record exactly when it is blockable, and it respects concatenation. */
  lemma BlockableRecordsSingle(r: NetworkRecord, mainUrl: string, originOf: string -> Origin)
    ensures BlockableRecords([r], mainUrl, originOf) == if IsBlockable(r, mainUrl, originOf) then [r] else []
  {
    assert [r][1..] == [];
  }

  lemma BlockableRecordsAppend(a: seq<NetworkRecord>, b: seq<NetworkRecord>, mainUrl: string, originOf: string -> Origin)
    ensures BlockableRecords(a + b, mainUrl, originOf) ==
      BlockableRecords(a, mainUrl, originOf) + BlockableRecords(b, mainUrl, originOf)
  {
    FilterAppend(a, b, r => IsBlockable(r, mainUrl, originOf));
  }

  /** The filter as written, with the nosniff test that never holds. */
  function BlockableRecordsAsWritten(records: seq<NetworkRecord>, mainUrl: string, originOf: string -> Origin): seq<NetworkRecord>
  {
    Filter(records, r => !IsNosniffRecordAsWritten(r) && IsDocumentRecord(r) && IsSameOriginRecord(r, mainUrl, originOf))
  }

  /** As written the filter keeps every same-origin document, nosniff or not. */
  lemma {:induction false} BlockableAsWrittenIgnoresNosniff(records: seq<NetworkRecord>, mainUrl: string, originOf: string -> Origin)
    ensures BlockableRecordsAsWritten(records, mainUrl, originOf) ==
      Filter(records, r => IsDocumentRecord(r) && IsSameOriginRecord(r, mainUrl, originOf))
  {
    if records != [] {
      NosniffAsWrittenNeverHolds(records[0]);
      BlockableAsWrittenIgnoresNosniff(records[1..], mainUrl, originOf);
    }
  }

  // ---------------------------------------------------------------------
  // displayValue

  /** What the template literal puts between the number and the noun: a line break and ten spaces. */
  const Separator := "\n          "

  /**
   * Empty for no blockable record; otherwise the formatted count, the
   * separator and a noun that is plural exactly when the count exceeds one.
   */
  function DisplayValue(count: nat, formatNumber: nat -> string): (d: string)
    ensures d == "" <==> count == 0
    ensures count > 0 ==> |d| > |formatNumber(count)| + |Separator|
    ensures count > 0 ==> d[..|formatNumber(count)|] == formatNumber(count)
    ensures count > 0 ==> d[|formatNumber(count)|..|formatNumber(count)| + |Separator|] == Separator
    ensures count > 0 ==> (d[|d| - 1] == 's' <==> count > 1)
    ensures count > 0 ==> d[|formatNumber(count)| + |Separator|..] == if count == 1 then "resource" else "resources"
  {
    if count > 0 then formatNumber(count) + Separator + (if count == 1 then "resource" else "resources") else ""
  }

  // ---------------------------------------------------------------------
  // score

  /** The intended score `1 / (blockableRecords.length + 1)`: in (0, 1], and 1 exactly for no blockable record. */
  function Score(count: nat): (s: real)
    ensures 0.0 < s <= 1.0
    ensures s == 1.0 <==> count == 0
    ensures s * (count as real + 1.0) == 1.0
  {
    1.0 / (count as real + 1.0)
  }

  /** More blockable records never raise the score. */
  lemma ScoreDecreasing(m: nat, n: nat)
    requires m < n
    ensures Score(n) < Score(m)
  {
    var a, b := m as real + 1.0, n as real + 1.0;
    assert Score(m) * a == 1.0 && Score(n) * b == 1.0;
    assert Score(n) * a < Score(n) * b;
  }

  /** A JavaScript number, as far as the score expression needs one. */
  datatype JsNumber = Num(v: real) | NaN | Infinity

  predicate IsDigit(c: char) {
    '0' <= c <= '9'
  }

  function DecimalValue(s: string): nat
    requires forall i :: 0 <= i < |s| ==> IsDigit(s[i])
  {
    if s == [] then 0
    else
      var c := s[|s| - 1];
      assert IsDigit(c);
      DecimalValue(s[..|s| - 1]) * 10 + (c as int - '0' as int)
  }

  /**
   * `Number(s)` for the strings the score expression builds: the empty string
   * is 0, a string of decimal digits is its value, and anything else is NaN.
   */
  function StringToNumber(s: string): JsNumber {
    if forall i :: 0 <= i < |s| ==> IsDigit(s[i]) then Num(DecimalValue(s) as real) else NaN
  }

  /** `1 / x` on JavaScript numbers. */
  function OneOver(x: JsNumber): JsNumber {
    match x
    case NaN => NaN
    case Infinity => Num(0.0)
    case Num(v) => if v == 0.0 then Infinity else Num(1.0 / v)
  }

  /**
   * `String(array)`: the elements' strings joined with commas. A network
   * record is an object without its own `toString`, so each one reads as
   * `[object Object]`.
   */
  function ArrayToString(records: seq<NetworkRecord>): (s: string)
    ensures records == [] <==> s == ""
    ensures records != [] ==> s[0] == '['
  {
    if records == [] then ""
    else if |records| == 1 then "[object Object]"
    else "[object Object]," + ArrayToString(records[1..])
  }

  /** `1 / (blockableRecords + 1)` as written: `array + 1` concatenates strings, and `/` converts that string back to a number. */
  function ScoreAsWritten(blockable: seq<NetworkRecord>): JsNumber {
    OneOver(StringToNumber(ArrayToString(blockable) + "1"))
  }

  /** For no blockable record the expression happens to give the intended 1 ... */
  lemma ScoreAsWrittenEmpty()
    ensures ScoreAsWritten([]) == Num(Score(0))
  {
    assert ArrayToString([]) + "1" == "1";
    assert DecimalValue("1") == 1 by {
      assert "1"[..0] == "";
    }
  }

  /** ... and for any blockable record at all it is NaN instead of `1 / (n + 1)`. */
  lemma ScoreAsWrittenIsNaN(blockable: seq<NetworkRecord>)
    requires |blockable| > 0
    ensures ScoreAsWritten(blockable) == NaN
    ensures ScoreAsWritten(blockable) != Num(Score(|blockable|))
  {
    var s := ArrayToString(blockable) + "1";
    assert s[0] == '[' && !IsDigit(s[0]);
  }

  // ---------------------------------------------------------------------
  // audit

  datatype Heading = Heading(key: string, itemType: string, text: string)

  /** `Audit.makeTableDetails(headings, items)`, kept as its two arguments. */
  datatype TableDetails = TableDetails(headings: seq<Heading>, items: seq<NetworkRecord>)

  const UrlHeadings := [Heading("url", "url", "URL")]

  datatype AuditResult = AuditResult(rawValue: bool, score: real, displayValue: string, details: TableDetails)

  /** The audit over the captured records and the page's final URL. */
  function Audit(records: seq<NetworkRecord>, finalUrl: string, originOf: string -> Origin, formatNumber: nat -> string): (res: AuditResult)
    ensures res.rawValue <==> forall r :: r in records ==> !IsBlockable(r, finalUrl, originOf)
    ensures res.details.headings == UrlHeadings
    ensures res.details.items == BlockableRecords(records, finalUrl, originOf)
    ensures res.displayValue == DisplayValue(|res.details.items|, formatNumber)
    ensures res.displayValue == "" <==> res.rawValue
    ensures res.score == Score(|res.details.items|)
    ensures res.score == 1.0 <==> res.rawValue
  {
    var blockable := BlockableRecords(records, finalUrl, originOf);
    BlockableRecordsExactly(records, finalUrl, originOf);
    AuditResult(
      |blockable| == 0,
      Score(|blockable|),
      DisplayValue(|blockable|, formatNumber),
      TableDetails(UrlHeadings, blockable))
  }
}
