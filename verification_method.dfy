/** The verification-method enumeration and its decoder from wire strings. */
module VerificationMethods {
  import WireLookup

  datatype VerificationMethod = NONE | KNOWLEDGE_OF_PII | GOVERNMENT_ID | UNKNOWN {
    /** The enum constant's name. */
    function Name(): (r: string) {
      match this
      case NONE => "NONE"
      case KNOWLEDGE_OF_PII => "KNOWLEDGE_OF_PII"
      case GOVERNMENT_ID => "GOVERNMENT_ID"
      case UNKNOWN => "UNKNOWN"
    }

    /** The wire string the member carries (its `type`). */
    function Type(): (r: string) {
      match this
      case NONE => "NONE"
      case KNOWLEDGE_OF_PII => "KNOWLEDGE_OF_PII"
      case GOVERNMENT_ID => "GOVERNMENT_ID"
      case UNKNOWN => "UNKNOWN"
    }
  }

  /** `VerificationMethod.values()`, in declaration order. */
  const VALUES: seq<VerificationMethod> := [NONE, KNOWLEDGE_OF_PII, GOVERNMENT_ID, UNKNOWN]

  /** Some member carries `s` as its wire string. */
  predicate IsWireValue(s: string) {
    exists m: VerificationMethod :: m.Type() == s
  }

  /** `String.toVerificationMethod()`: the member whose wire string is exactly
      `s`, and UNKNOWN when there is none. */
  function ToVerificationMethod(s: string): (r: VerificationMethod)
    ensures IsWireValue(s) ==> r.Type() == s
    ensures !IsWireValue(s) ==> r == UNKNOWN
  {
    var wire := (m: VerificationMethod) => m.Type();
    var found := WireLookup.Find(VALUES, wire, s);
    if found.Some? then found.value
    else
      assert !IsWireValue(s) by {
        forall m: VerificationMethod ensures m.Type() != s {
          assert m == VALUES[0] || m == VALUES[1] || m == VALUES[2] || m == VALUES[3];
          assert m in VALUES && wire(m) == m.Type();
        }
      }
      UNKNOWN
  }

  /** The enumeration has exactly four members, listed once each in this order. */
  lemma ValuesEnumerateMembers(m: VerificationMethod)
    ensures |VALUES| == 4 && m in VALUES
    ensures VALUES[0] == NONE && VALUES[1] == KNOWLEDGE_OF_PII
    ensures VALUES[2] == GOVERNMENT_ID && VALUES[3] == UNKNOWN
  {
  }

  /** Each member's wire string is its own name. */
  lemma WireValueIsName(m: VerificationMethod)
    ensures m.Type() == m.Name()
  {
  }

  /** No two members share a wire string, so at most one member matches. */
  lemma WireValuesDistinct(a: VerificationMethod, b: VerificationMethod)
    ensures a.Type() == b.Type() <==> a == b
  {
  }

  /** Decoding a member's wire string gives the member back. */
  lemma RoundTrip(m: VerificationMethod)
    ensures ToVerificationMethod(m.Type()) == m
  {
    var r := ToVerificationMethod(m.Type());
    assert IsWireValue(m.Type());
    WireValuesDistinct(r, m);
  }

  /** The decoder in both directions: it yields `m` exactly when `s` is `m`'s
      wire string, or when `m` is UNKNOWN and `s` is no member's wire string. */
  lemma ToVerificationMethodCharacterized(s: string, m: VerificationMethod)
    ensures ToVerificationMethod(s) == m <==> (m.Type() == s || (m == UNKNOWN && !IsWireValue(s)))
  {
    if m.Type() == s {
      RoundTrip(m);
    }
    if ToVerificationMethod(s) == m && IsWireValue(s) {
      assert m.Type() == s;
    }
  }
}
