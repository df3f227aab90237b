# Lighthouse CORB and mixed-content audits, modelled in Dafny

This project models the record classification at the heart of two Lighthouse
audits. Each audit receives the network records captured while a page loaded.

- The **Cross-Origin Read Blocking (CORB) audit** keeps the "blockable" records.
  These are same-origin documents that are not protected by
  `X-Content-Type-Options: nosniff`. From them it builds a pass/fail value
  (`rawValue`), a score, a display string and a one-column URL table.
- The **mixed-content audit** keeps the records delivered over an allow-listed
  scheme (`data`, `https`, `wss`, `blob`, `chrome`, `chrome-extension`) or from
  a loopback domain (`localhost`, `127.0.0.1`). It elides their URLs and reports
  `rawValue`, a count string, `extendedInfo` and a list of URL items.

Both audits are pure. They are modelled as datatypes, functions and lemmas:

- `seqs.dfy` (module `Seqs`): `Array.prototype.filter`, `map` and `findIndex` as
  functions over sequences, with what the audits rely on. Filtering keeps
  exactly the elements that satisfy the predicate, with their multiplicity. It
  yields an order-preserving subsequence, distributes over concatenation and is
  idempotent.
- `records.dfy` (module `Records`): the network record and `toLowerCase`.
- `corb.dfy` (module `Corb`): `isNosniffRecord`, `isDocumentRecord`,
  `isSameOriginRecord`, the `blockableRecords` filter and the audit result.
- `mixed_content.dfy` (module `MixedContent`): the allow-lists,
  `isSecureRecord`, `secureRecords` and the audit result.
- `scenarios.dfy` (module `Scenarios`): whole-audit consequences on small
  concrete inputs.

Three collaborators live in modules this model does not have. They are
function-valued parameters:

- `originOf`: the origin that `new URL(...)` computes, compared by `URL.originsMatch`.
- `elide`: `URL.elideDataURI`.
- `formatNumber`: `Util.formatNumber`.

Points where the code does something other than its own comments or
neighbouring code suggest, modelled as the code does them:

- `isSecureRecord` also tests `record.protocol` against the secure schemes
  (mixed-content.js:37), although its JSDoc type at line 32 lists only
  `scheme` and `domain`.
- The nosniff test (corb.js:45) and the score (corb.js:90) are modelled as
  written, each with a corrected twin (see "## Findings"). The CORB audit
  result uses the corrected twins.
- The mixed-content `rawValue` is true when at least one secure record exists
  (mixed-content.js:72). The insecure-record variant is commented out at lines
  48-50, and the model keeps the polarity of the live code.

## Model

| member | source | states |
|---|---|---|
| `Seqs.Filter` | lighthouse-core/audits/corb.js:75-78 | `filter` returns no more elements than its input, and each one is an input element that satisfies the predicate |
| `Seqs.FilterMembership` | lighthouse-core/audits/corb.js:75-78 | an element is in the filtered sequence exactly when it is in the input and satisfies the predicate |
| `Seqs.FilterIsSubsequence` | lighthouse-core/audits/corb.js:75-78 | the filtered sequence is an order-preserving subsequence of the input |
| `Seqs.FilterAppend` | lighthouse-core/audits/corb.js:75-78 | filtering a concatenation is concatenating the filtered parts, so no kept element moves past another |
| `Seqs.FilterMultiset` | lighthouse-core/audits/corb.js:75-78 | each element that satisfies the predicate is kept as many times as it occurs; every other element is dropped |
| `Seqs.FilterLength` | lighthouse-core/audits/mixed-content.js:52-53 | the filtered length equals the number of input elements satisfying the predicate |
| `Seqs.CountAppend` | lighthouse-core/audits/mixed-content.js:52-53 | the number of matching elements in a concatenation is the sum over its parts |
| `Seqs.FilterIdempotent` | lighthouse-core/audits/corb.js:75-78 | filtering a second time with the same predicate changes nothing |
| `Seqs.Map` | lighthouse-core/audits/mixed-content.js:54 | `map` keeps the length, and position i holds the image of input element i |
| `Seqs.MapAppend` | lighthouse-core/audits/mixed-content.js:54 | mapping a concatenation is concatenating the mapped parts |
| `Seqs.FindIndex` | lighthouse-core/audits/corb.js:44-47 | `findIndex` gives -1 exactly when no element satisfies the callback; otherwise it gives the first index that does |
| `Records.ToLowerChar` | lighthouse-core/audits/corb.js:45-46 | an upper-case ASCII letter maps to its lower-case letter; every other character is unchanged; the result is never upper-case |
| `Records.ToLower` | lighthouse-core/audits/corb.js:45-46 | `toLowerCase` keeps the length, lowers character by character, and leaves no upper-case letter |
| `Records.LowerHasNoUpper` | lighthouse-core/audits/corb.js:45 | a lower-cased string never equals a string that contains an upper-case letter |
| `Records.ToLowerWithoutUpper` | lighthouse-core/audits/corb.js:46 | a string without upper-case letters is its own lower-case form |
| `Corb.MissingHeadersReadAsEmpty` | lighthouse-core/audits/corb.js:44 | through `HeadersOf`, a record with no header list gets the same answer from both nosniff tests as the same record with an empty list, and is not nosniff |
| `Corb.NosniffAsWrittenNeverHolds` | lighthouse-core/audits/corb.js:43-48 | as written, `isNosniffRecord` is false for every record |
| `Corb.IsNosniffRecord` | lighthouse-core/audits/corb.js:43-48 | with the lower-case name, true exactly when some non-null header is `x-content-type-options: nosniff` in any letter case; false when the header list is missing |
| `Corb.NosniffAnywhere` | lighthouse-core/audits/corb.js:44-47 | a nosniff header at any position of the list makes the record nosniff, whatever comes before or after it |
| `Corb.NosniffMixedCaseHeader` | lighthouse-core/audits/corb.js:45-46 | `X-Content-Type-Options: NoSniff` is recognised by the corrected predicate and missed as written |
| `Corb.LowerNosniffName` | lighthouse-core/audits/corb.js:45 | lower-casing the header name gives `x-content-type-options`, not the literal it is compared with |
| `Corb.LowerNosniffValue` | lighthouse-core/audits/corb.js:46 | lower-casing `NoSniff` gives `nosniff` |
| `Corb.IsDocumentRecord` | lighthouse-core/audits/corb.js:54-56 | true exactly when a resource type is present and named `Document`; false when it is absent |
| `Corb.OriginsMatchReflexive` | lighthouse-core/audits/corb.js:63-65 | every URL is same-origin with itself |
| `Corb.OriginsMatchSymmetric` | lighthouse-core/audits/corb.js:63-65 | swapping the two URLs does not change the answer |
| `Corb.SameOriginOnlyByOrigin` | lighthouse-core/audits/corb.js:63-65 | two records with the same origin get the same same-origin answer |
| `Corb.BlockableRecords` | lighthouse-core/audits/corb.js:75-78 | with the corrected nosniff test, the blockable records are no more than the input, and each is an input record that is blockable |
| `Corb.BlockableRecordsExactly` | lighthouse-core/audits/corb.js:75-78 | a record is blockable exactly when it is in the input, not nosniff, a document and same-origin; the result is an order-preserving subsequence with the input's multiplicities; its length is the number of blockable input records |
| `Corb.BlockableRecordsSingle` | lighthouse-core/audits/corb.js:75-78 | one record gives itself when blockable and nothing otherwise |
| `Corb.BlockableRecordsAppend` | lighthouse-core/audits/corb.js:75-78 | the blockable records of a concatenation are the blockable records of each part, in order |
| `Corb.BlockableAsWrittenIgnoresNosniff` | lighthouse-core/audits/corb.js:75-78 | as written, the filter keeps every same-origin document, whether or not it is nosniff |
| `Corb.DisplayValue` | lighthouse-core/audits/corb.js:80-84 | empty exactly for a count of 0; otherwise the formatted count, a line break and ten spaces, then `resource` for 1 and `resources` above 1, so it ends in `s` exactly when the count exceeds 1 |
| `Corb.Score` | lighthouse-core/audits/corb.js:90 | the corrected score `1 / (count + 1)` lies in (0, 1], equals 1 exactly for a count of 0, and times `count + 1` gives 1 |
| `Corb.ScoreDecreasing` | lighthouse-core/audits/corb.js:90 | a larger count gives a strictly smaller corrected score |
| `Corb.ArrayToString` | lighthouse-core/audits/corb.js:90 | an array of records converts to the empty string exactly when it is empty, and otherwise to a string that starts with `[` |
| `Corb.ScoreAsWrittenEmpty` | lighthouse-core/audits/corb.js:90 | as written, the score for no blockable record is 1, the intended value |
| `Corb.ScoreAsWrittenIsNaN` | lighthouse-core/audits/corb.js:90 | as written, the score for any non-empty blockable list is NaN, never `1 / (n + 1)` |
| `Corb.Audit` | lighthouse-core/audits/corb.js:71-98 | with the corrected nosniff test and score, `rawValue` holds exactly when no input record is blockable; the details hold the `url` heading and the blockable records; the display string and the corrected score follow the count; the display string is empty, and the score 1, exactly when the audit passes |
| `MixedContent.IsSecureRecordExactly` | lighthouse-core/audits/mixed-content.js:13-39 | a record is secure exactly when its scheme or protocol is one of the six secure schemes, or its domain is `localhost` or `127.0.0.1` |
| `MixedContent.UpperCaseSchemeIsNotSecure` | lighthouse-core/audits/mixed-content.js:36-38 | matching is case-sensitive, so an `HTTPS` scheme with a plain protocol and a public domain is not secure |
| `MixedContent.SecureRecords` | lighthouse-core/audits/mixed-content.js:52-54 | there is one entry per secure input record, and each entry is the elided URL of a secure input record |
| `MixedContent.SecureRecordsSingle` | lighthouse-core/audits/mixed-content.js:52-54 | one record gives its elided URL when it is secure and nothing otherwise |
| `MixedContent.SecureRecordsAppend` | lighthouse-core/audits/mixed-content.js:52-54 | the entries for a concatenation are the entries of each part, in order |
| `MixedContent.SecureRecordsEmpty` | lighthouse-core/audits/mixed-content.js:52-54 | there are no entries exactly when no input record is secure |
| `MixedContent.DisplayValue` | lighthouse-core/audits/mixed-content.js:64-69 | empty exactly for a count of 0; `1 secure request found` for 1; the formatted count followed by ` secure requests found` above 1 |
| `MixedContent.Audit` | lighthouse-core/audits/mixed-content.js:45-88 | `rawValue` holds exactly when some input record is secure; `extendedInfo.value` is the secure entries; the display string follows the number of secure records; the details are a `list` headed `Secure URLs:` with one `url` item per entry, same order, same text |
| `Scenarios.NoRecordsCorb` | lighthouse-core/audits/corb.js:80-97 | with no records the CORB audit passes with an empty display string, no rows and score 1 |
| `Scenarios.NoRecordsMixedContent` | lighthouse-core/audits/mixed-content.js:64-86 | with no records the mixed-content audit does not pass, and its display string and items are empty |
| `Scenarios.UnprotectedDocument` | lighthouse-core/audits/corb.js:75-97 | a same-origin document without headers fails the audit, is the only row, gives the singular display string and score 1/2 |
| `Scenarios.ProtectedDocument` | lighthouse-core/audits/corb.js:43-78 | with the corrected predicate, the same document with `X-Content-Type-Options: nosniff` passes the audit with no rows |
| `Scenarios.ProtectedDocumentAsWritten` | lighthouse-core/audits/corb.js:43-78 | as written, the filter still keeps that protected document |
| `Scenarios.ThreeSecureOfTen` | lighthouse-core/audits/mixed-content.js:52-72 | three HTTPS records among seven HTTP ones give three entries, a true `rawValue` and the plural display string |

## Findings

| source | as written | input that shows it | evidently intended | confidence | as-written member | corrected member |
|---|---|---|---|---|---|---|
| lighthouse-core/audits/corb.js:45 | the lower-cased header name is compared with the mixed-case `'X-Content-Type-Options'`, so `isNosniffRecord` is always false | a same-origin `Document` record with the single header `X-Content-Type-Options: nosniff` is reported as blockable | compare with `'x-content-type-options'` | high; not executed | `Corb.NosniffAsWrittenNeverHolds`, `Scenarios.ProtectedDocumentAsWritten` | `Corb.IsNosniffRecord`, `Scenarios.ProtectedDocument` |
| lighthouse-core/audits/corb.js:90 | `1 / (blockableRecords + 1)` adds 1 to the array itself: the array becomes a string, `"1"` is appended, and the string is converted back to a number | one blockable record: the string starts with `[object Object]` and the score is NaN instead of 0.5 | `1 / (blockableRecords.length + 1)` | high; not executed | `Corb.ScoreAsWrittenIsNaN` | `Corb.Score`, `Corb.ScoreDecreasing` |

## Left out

- The asynchronous record fetch (`artifacts.requestNetworkRecords(...)` returning a promise) and the artifact lookup are not modelled. The record sequence and the final URL are plain inputs, and a failed fetch is not modelled.
- `Corb.OriginsMatch`: URL parsing and origin extraction are in `lighthouse-core/lib/url-shim.js`, which is not part of this model. The origin is the parameter `originOf`, and a `new URL` that throws on a malformed URL is not modelled.
- `URL.elideDataURI` is in `url-shim` too. It is the parameter `elide`, so nothing is proved about how `data:` URLs are shortened.
- `Util.formatNumber` formats by locale and is not part of this model. It is the parameter `formatNumber`.
- `Audit.makeTableDetails` is not part of this model. The CORB details are kept as its two arguments, the headings and the rows.
- `Records.ToLower` and `Records.ToLowerChar`: `toLowerCase` is modelled on the ASCII letters only. Unicode case mapping is left out, so for example `É` stays unchanged where JavaScript gives `é`. None of the proofs needs it: no lower-cased string contains the upper-case ASCII letters they rely on.
- `Corb.IsDocumentRecord`: in the source the predicate returns the absent resource type itself (`undefined`) when there is none. `filter` treats that as false, and the model returns `false`.
- `Corb.ArrayToString`: it assumes each network record converts to the string `[object Object]`, because the record class does not define its own `toString`. `Corb.StringToNumber` recognises only strings of decimal digits and gives NaN for every other string. For the strings this expression can build (`"1"`, or a string starting with `[`), that is JavaScript's result.
- `MixedContent.DisplayValue`: for a count of 1 the source interpolates the number with its default conversion, which gives `"1"`. The model writes that `"1"` out.
- `Corb.Audit`: it uses the corrected nosniff test and the corrected score, so it differs from the code as written. For one same-origin `Document` record sent with `x-content-type-options: nosniff`, the model gives `rawValue` true and no rows. The code gives `rawValue` false, one row and a NaN score. The as-written behaviour is captured by `Corb.BlockableRecordsAsWritten` and `Corb.ScoreAsWritten` with their lemmas.
- The static `meta` descriptors are left out: they are constant data with nothing to prove.
- The commented-out insecure-record code of the mixed-content audit is left out.
- `lighthouse-core/gather/gatherers/mixed-content.js` is left out. It drives the browser (request interception, event listeners, a mutable pre-redirect URL), and its `afterPass` returns an empty object.
