/**
 * The network record both audits read, as captured by the host before the
 * audit runs, and the string helpers the audits apply to its fields.
 */
module Records {

  datatype Option<+T> = None | Some(value: T)

  /** One response header entry, `{name, value}`. */
  datatype Header = Header(name: string, value: string)

  /** The record's resource type; the audits only ever read its `name()`. */
  datatype ResourceType = ResourceType(name: string)

  /**
   * A captured request. `resourceType` may be absent, the header list may be
   * absent, and an entry of the header list may itself be null.
   */
  datatype NetworkRecord = NetworkRecord(
    url: string,
    scheme: string,
    protocol: string,
    domain: string,
    resourceType: Option<ResourceType>,
    responseHeaders: Option<seq<Option<Header>>>)

  predicate IsUpper(c: char) {
    'A' <= c <= 'Z'
  }

  function ToLowerChar(c: char): (l: char)
    ensures !IsUpper(l)
    ensures IsUpper(c) ==> l as int == c as int + 32
    ensures !IsUpper(c) ==> l == c
  {
    if IsUpper(c) then (c as int + 32) as char else c
  }

  /** `String.prototype.toLowerCase`, restricted to the ASCII letters. */
  function ToLower(s: string): (r: string)
    ensures |r| == |s|
    ensures forall i :: 0 <= i < |s| ==> r[i] == ToLowerChar(s[i])
    ensures forall i :: 0 <= i < |r| ==> !IsUpper(r[i])
  {
    seq(|s|, i requires 0 <= i < |s| => ToLowerChar(s[i]))
  }

  /** A lower-cased string has no upper-case ASCII letter in it, so it never equals a string that has one. */
  lemma LowerHasNoUpper(s: string, t: string, k: nat)
    requires k < |t| && IsUpper(t[k])
    ensures ToLower(s) != t
  {
    if |s| == |t| {
      assert !IsUpper(ToLower(s)[k]);
    }
  }

  /** A string without upper-case letters is its own lower-case form. */
  lemma ToLowerWithoutUpper(s: string)
    requires forall i :: 0 <= i < |s| ==> !IsUpper(s[i])
    ensures ToLower(s) == s
  {
  }
}
