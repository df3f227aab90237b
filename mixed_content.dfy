/**
 * The mixed-content audit: it keeps the captured records that were
 * delivered over an allow-listed scheme or from a loopback domain, elides
 * their URLs, and reports a verdict, a count string, the elided URLs and a
 * list of URL items.
 *
 * `URL.elideDataURI` and `Util.formatNumber` belong to other modules of the
 * program; they are parameters here.
 */
module MixedContent {
  import opened Seqs
  import opened Records

  const SecureSchemes: seq<string> := ["data", "https", "wss", "blob", "chrome", "chrome-extension"]
  const SecureDomains: seq<string> := ["localhost", "127.0.0.1"]

  /** `Array.prototype.includes` on strings: exact, case-sensitive equality with some element. */
  predicate Includes(list: seq<string>, x: string) {
    x in list
  }

  predicate IsSecureRecord(r: NetworkRecord) {
    Includes(SecureSchemes, r.scheme) || Includes(SecureSchemes, r.protocol) || Includes(SecureDomains, r.domain)
  }

  /** Secure exactly when the scheme or the protocol is one of the six secure schemes, or the domain one of the two loopback names. */
  lemma IsSecureRecordExactly(r: NetworkRecord)
    ensures IsSecureRecord(r) <==>
      r.scheme in {"data", "https", "wss", "blob", "chrome", "chrome-extension"} ||
      r.protocol in {"data", "https", "wss", "blob", "chrome", "chrome-extension"} ||
      r.domain in {"localhost", "127.0.0.1"}
  {
  }

  /** Membership is case-sensitive: `HTTPS` over plain HTTP from a public host is not secure. */
  lemma UpperCaseSchemeIsNotSecure(r: NetworkRecord)
    requires r.scheme == "HTTPS" && r.protocol == "http/1.1" && r.domain == "example.com"
    ensures !IsSecureRecord(r)
  {
    IsSecureRecordExactly(r);
  }

  /** `{url: URL.elideDataURI(record.url)}`. */
  datatype UrlEntry = UrlEntry(url: string)

  /** `networkRecords.filter(isSecureRecord).map(...)`: one elided URL per secure record, in capture order. */
  function SecureRecords(records: seq<NetworkRecord>, elide: string -> string): (es: seq<UrlEntry>)
    ensures |es| == Count(records, IsSecureRecord)
    ensures forall e :: e in es ==> exists r :: r in records && IsSecureRecord(r) && e == UrlEntry(elide(r.url))
  {
    var kept := Filter(records, IsSecureRecord);
    FilterLength(records, IsSecureRecord);
    var es := Map(kept, (r: NetworkRecord) => UrlEntry(elide(r.url)));
    assert forall e :: e in es ==> exists i :: 0 <= i < |kept| && e == UrlEntry(elide(kept[i].url));
    es
  }

  /** Together these two determine the result: one entry for a single secure record, none otherwise, and concatenation is respected. */
  lemma SecureRecordsSingle(r: NetworkRecord, elide: string -> string)
    ensures SecureRecords([r], elide) == if IsSecureRecord(r) then [UrlEntry(elide(r.url))] else []
  {
    assert [r][1..] == [];
  }

  lemma SecureRecordsAppend(a: seq<NetworkRecord>, b: seq<NetworkRecord>, elide: string -> string)
    ensures SecureRecords(a + b, elide) == SecureRecords(a, elide) + SecureRecords(b, elide)
  {
    var f := (r: NetworkRecord) => UrlEntry(elide(r.url));
    FilterAppend(a, b, IsSecureRecord);
    MapAppend(Filter(a, IsSecureRecord), Filter(b, IsSecureRecord), f);
  }

  /** No entry exactly when no record is secure. */
  lemma {:induction false} SecureRecordsEmpty(records: seq<NetworkRecord>, elide: string -> string)
    ensures SecureRecords(records, elide) == [] <==> forall r :: r in records ==> !IsSecureRecord(r)
  {
    if records != [] {
      SecureRecordsEmpty(records[1..], elide);
      assert records == [records[0]] + records[1..];
      SecureRecordsAppend([records[0]], records[1..], elide);
      SecureRecordsSingle(records[0], elide);
    }
  }

  /** Empty for none, `1 secure request found` for one, and the formatted count in the plural otherwise. */
  function DisplayValue(count: nat, formatNumber: nat -> string): (d: string)
    ensures d == "" <==> count == 0
    ensures count == 1 ==> d == "1 secure request found"
    ensures count > 1 ==> |d| >= |formatNumber(count)|
    ensures count > 1 ==> d[..|formatNumber(count)|] == formatNumber(count)
    ensures count > 1 ==> d[|formatNumber(count)|..] == " secure requests found"
  {
    if count > 1 then formatNumber(count) + " secure requests found"
    else if count == 1 then "1 secure request found"
    else ""
  }

  /** A list item `{type, text}`. */
  datatype Item = Item(kind: string, text: string)

  datatype ListDetails = ListDetails(kind: string, header: Item, items: seq<Item>)

  datatype ExtendedInfo = ExtendedInfo(value: seq<UrlEntry>)

  datatype AuditResult = AuditResult(rawValue: bool, displayValue: string, extendedInfo: ExtendedInfo, details: ListDetails)

  /** The audit over the captured records. */
  function Audit(records: seq<NetworkRecord>, formatNumber: nat -> string, elide: string -> string): (res: AuditResult)
    ensures res.rawValue <==> exists r :: r in records && IsSecureRecord(r)
    ensures res.extendedInfo.value == SecureRecords(records, elide)
    ensures res.displayValue == DisplayValue(Count(records, IsSecureRecord), formatNumber)
    ensures res.details.kind == "list" && res.details.header == Item("text", "Secure URLs:")
    ensures |res.details.items| == |res.extendedInfo.value|
    ensures forall i :: 0 <= i < |res.details.items| ==> res.details.items[i] == Item("url", res.extendedInfo.value[i].url)
  {
    var secure := SecureRecords(records, elide);
    SecureRecordsEmpty(records, elide);
    AuditResult(
      |secure| != 0,
      DisplayValue(|secure|, formatNumber),
      ExtendedInfo(secure),
      ListDetails("list", Item("text", "Secure URLs:"), Map(secure, (e: UrlEntry) => Item("url", e.url))))
  }
}
