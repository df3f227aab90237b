/**
 * Whole-audit consequences on small concrete inputs: what each audit reports
 * for no records, for a lone unprotected same-origin document, for the same
 * document served with nosniff, and for a mix of secure and plain requests.
 */
module Scenarios {
  import opened Seqs
  import opened Records
  import Corb
  import MixedContent

  /** With no records the CORB audit passes and reports nothing ... */
  lemma NoRecordsCorb(mainUrl: string, originOf: string -> Corb.Origin, formatNumber: nat -> string)
    ensures Corb.Audit([], mainUrl, originOf, formatNumber).rawValue
    ensures Corb.Audit([], mainUrl, originOf, formatNumber).displayValue == ""
    ensures Corb.Audit([], mainUrl, originOf, formatNumber).details.items == []
    ensures Corb.Audit([], mainUrl, originOf, formatNumber).score == 1.0
  {
  }

  /** ... while the mixed-content audit does not pass, and reports nothing either. */
  lemma NoRecordsMixedContent(formatNumber: nat -> string, elide: string -> string)
    ensures !MixedContent.Audit([], formatNumber, elide).rawValue
    ensures MixedContent.Audit([], formatNumber, elide).displayValue == ""
    ensures MixedContent.Audit([], formatNumber, elide).details.items == []
  {
  }

  function Page(url: string, headers: Option<seq<Option<Header>>>): NetworkRecord {
    NetworkRecord(url, "https", "h2", "example.com", Some(ResourceType("Document")), headers)
  }

  /** A same-origin document without headers is blockable: the audit fails and lists it. */
  lemma UnprotectedDocument(mainUrl: string, originOf: string -> Corb.Origin, formatNumber: nat -> string)
    ensures
      var res := Corb.Audit([Page(mainUrl, None)], mainUrl, originOf, formatNumber);
      && !res.rawValue
      && res.details.items == [Page(mainUrl, None)]
      && res.displayValue == formatNumber(1) + Corb.Separator + "resource"
      && res.score == 0.5
  {
    Corb.BlockableRecordsSingle(Page(mainUrl, None), mainUrl, originOf);
  }

  /** Served with `X-Content-Type-Options: nosniff` the same document is not blockable and the audit passes ... */
  lemma ProtectedDocument(mainUrl: string, originOf: string -> Corb.Origin, formatNumber: nat -> string)
    ensures
      var r := Page(mainUrl, Some([Some(Header("X-Content-Type-Options", "nosniff"))]));
      var res := Corb.Audit([r], mainUrl, originOf, formatNumber);
      res.rawValue && res.details.items == []
  {
    var r := Page(mainUrl, Some([Some(Header("X-Content-Type-Options", "nosniff"))]));
    assert [] + [Some(Header("X-Content-Type-Options", "nosniff"))] + [] == [Some(Header("X-Content-Type-Options", "nosniff"))];
    Corb.LowerNosniffName();
    ToLowerWithoutUpper("nosniff");
    Corb.NosniffAnywhere(r, [], Header("X-Content-Type-Options", "nosniff"), []);
    Corb.BlockableRecordsSingle(r, mainUrl, originOf);
  }

  /** ... while the filter as written still keeps it. */
  lemma ProtectedDocumentAsWritten(mainUrl: string, originOf: string -> Corb.Origin)
    ensures
      var r := Page(mainUrl, Some([Some(Header("X-Content-Type-Options", "nosniff"))]));
      Corb.BlockableRecordsAsWritten([r], mainUrl, originOf) == [r]
  {
    var r := Page(mainUrl, Some([Some(Header("X-Content-Type-Options", "nosniff"))]));
    Corb.NosniffAsWrittenNeverHolds(r);
    assert [r][1..] == [];
  }

  function Request(scheme: string): NetworkRecord {
    NetworkRecord(scheme + "://example.com/", scheme, "http/1.1", "example.com", None, None)
  }

  /** Three HTTPS requests among seven plain HTTP ones: three entries, a pass, and the plural count string. */
  lemma ThreeSecureOfTen(formatNumber: nat -> string, elide: string -> string)
    ensures
      var h, p := Request("https"), Request("http");
      var records := [h, p, p, h, p, p, p, h, p, p];
      var res := MixedContent.Audit(records, formatNumber, elide);
      && |res.extendedInfo.value| == 3
      && res.rawValue
      && res.displayValue == formatNumber(3) + " secure requests found"
  {
    var h, p := Request("https"), Request("http");
    MixedContent.IsSecureRecordExactly(h);
    MixedContent.IsSecureRecordExactly(p);
    var records := [h, p, p, h, p, p, p, h, p, p];
    assert Count(records, MixedContent.IsSecureRecord) == 3 by {
      var q := MixedContent.IsSecureRecord;
      assert Count([h], q) == 1 && Count([p], q) == 0 by {
        assert [h][1..] == [] && [p][1..] == [];
      }
      assert Count([p, p], q) == 0 by { CountAppend([p], [p], q); }
      assert Count([h, p, p], q) == 1 by { CountAppend([h], [p, p], q); }
      assert Count([h, p, p, p], q) == 1 by { CountAppend([h, p, p], [p], q); }
      assert records == [h, p, p] + [h, p, p, p] + [h, p, p];
      CountAppend([h, p, p] + [h, p, p, p], [h, p, p], q);
      CountAppend([h, p, p], [h, p, p, p], q);
    }
  }
}
