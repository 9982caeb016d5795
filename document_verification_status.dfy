/** The document-verification-status enumeration and its decoder from wire strings. */
module DocumentVerificationStatuses {
  import WireLookup

  datatype DocumentVerificationStatus =
    | NOT_REQUIRED | NOT_ATTEMPTED | PENDING | DOCUMENT_UNREADABLE | FAILED | SUCCEEDED | UNKNOWN
  {
    /** The wire string the member carries (its `type`, its only property). */
    function Type(): (r: string) {
      match this
      case NOT_REQUIRED => "notRequired"
      case NOT_ATTEMPTED => "notAttempted"
      case PENDING => "pending"
      case DOCUMENT_UNREADABLE => "documentUnreadable"
      case FAILED => "failed"
      case SUCCEEDED => "succeeded"
      case UNKNOWN => "Unknown"
    }
  }

  /** `DocumentVerificationStatus.values()`, in declaration order. */
  const VALUES: seq<DocumentVerificationStatus> :=
    [NOT_REQUIRED, NOT_ATTEMPTED, PENDING, DOCUMENT_UNREADABLE, FAILED, SUCCEEDED, UNKNOWN]

  /** Some member carries `s` as its wire string. */
  predicate IsWireValue(s: string) {
    exists m: DocumentVerificationStatus :: m.Type() == s
  }

  /** `String.toDocumentVerificationStatus()`: the member whose wire string is
      exactly `s`, and UNKNOWN when there is none. */
  function ToDocumentVerificationStatus(s: string): (r: DocumentVerificationStatus)
    ensures IsWireValue(s) ==> r.Type() == s
    ensures !IsWireValue(s) ==> r == UNKNOWN
  {
    var wire := (m: DocumentVerificationStatus) => m.Type();
    var found := WireLookup.Find(VALUES, wire, s);
    if found.Some? then found.value
    else
      assert !IsWireValue(s) by {
        forall m: DocumentVerificationStatus ensures m.Type() != s {
          assert m == VALUES[0] || m == VALUES[1] || m == VALUES[2] || m == VALUES[3]
              || m == VALUES[4] || m == VALUES[5] || m == VALUES[6];
          assert m in VALUES && wire(m) == m.Type();
        }
      }
      UNKNOWN
  }

  /** The enumeration has exactly seven members, listed once each. */
  lemma ValuesEnumerateMembers(m: DocumentVerificationStatus)
    ensures |VALUES| == 7 && m in VALUES
    ensures forall i, j :: 0 <= i < j < |VALUES| ==> VALUES[i] != VALUES[j]
  {
  }

  /** No two members share a wire string. */
  lemma WireValuesDistinct(a: DocumentVerificationStatus, b: DocumentVerificationStatus)
    ensures a.Type() == b.Type() <==> a == b
  {
  }

  /** Decoding a member's wire string gives the member back. */
  lemma RoundTrip(m: DocumentVerificationStatus)
    ensures ToDocumentVerificationStatus(m.Type()) == m
  {
    var r := ToDocumentVerificationStatus(m.Type());
    assert IsWireValue(m.Type());
    WireValuesDistinct(r, m);
  }

  /** The decoder in both directions: it yields `m` exactly when `s` is `m`'s
      wire string, or when `m` is UNKNOWN and `s` is no member's wire string. */
  lemma ToDocumentVerificationStatusCharacterized(s: string, m: DocumentVerificationStatus)
    ensures ToDocumentVerificationStatus(s) == m <==> (m.Type() == s || (m == UNKNOWN && !IsWireValue(s)))
  {
    if m.Type() == s {
      RoundTrip(m);
    }
  }

  predicate IsLower(c: char) { 'a' <= c <= 'z' }
  predicate IsUpper(c: char) { 'A' <= c <= 'Z' }

  /** Lower camel case: letters only, starting with a lower-case one. */
  predicate IsLowerCamelCase(s: string) {
    |s| > 0 && IsLower(s[0]) && forall i :: 0 <= i < |s| ==> IsLower(s[i]) || IsUpper(s[i])
  }

  /** UNKNOWN's wire string is the only one that starts with a capital letter;
      the six known statuses are written in lower camel case. */
  lemma OnlyUnknownIsCapitalised(m: DocumentVerificationStatus)
    ensures m != UNKNOWN <==> IsLowerCamelCase(m.Type())
    ensures m == UNKNOWN <==> IsUpper(m.Type()[0])
  {
  }
}
