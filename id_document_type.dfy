/** The identity-document-type enumeration and its decoder from wire strings. */
module IdDocumentTypes {
  import WireLookup

  datatype IdDocumentType = DRIVER_LICENSE | PASSPORT | ID_CARD | UNKNOWN {
    /** The enum constant's name. */
    function Name(): (r: string) {
      match this
      case DRIVER_LICENSE => "DRIVER_LICENSE"
      case PASSPORT => "PASSPORT"
      case ID_CARD => "ID_CARD"
      case UNKNOWN => "UNKNOWN"
    }

    /** The wire string the member carries (its `type`). */
    function Type(): (r: string) {
      match this
      case DRIVER_LICENSE => "driverLicense"
      case PASSPORT => "passport"
      case ID_CARD => "idCard"
      case UNKNOWN => "Unknown"
    }
  }

  /** `IdDocumentType.values()`, in declaration order. */
  const VALUES: seq<IdDocumentType> := [DRIVER_LICENSE, PASSPORT, ID_CARD, UNKNOWN]

  /** Some member carries `s` as its wire string. */
  predicate IsWireValue(s: string) {
    exists m: IdDocumentType :: m.Type() == s
  }

  /** `String.toIdDocumentType()`: the member whose wire string is exactly `s`,
      and UNKNOWN when there is none. */
  function ToIdDocumentType(s: string): (r: IdDocumentType)
    ensures IsWireValue(s) ==> r.Type() == s
    ensures !IsWireValue(s) ==> r == UNKNOWN
  {
    var wire := (m: IdDocumentType) => m.Type();
    var found := WireLookup.Find(VALUES, wire, s);
    if found.Some? then found.value
    else
      assert !IsWireValue(s) by {
        forall m: IdDocumentType ensures m.Type() != s {
          assert m == VALUES[0] || m == VALUES[1] || m == VALUES[2] || m == VALUES[3];
          assert m in VALUES && wire(m) == m.Type();
        }
      }
      UNKNOWN
  }

  /** The enumeration has exactly four members, listed once each in this order. */
  lemma ValuesEnumerateMembers(m: IdDocumentType)
    ensures |VALUES| == 4 && m in VALUES
    ensures VALUES[0] == DRIVER_LICENSE && VALUES[1] == PASSPORT
    ensures VALUES[2] == ID_CARD && VALUES[3] == UNKNOWN
  {
  }

  /** No two members share a wire string. */
  lemma WireValuesDistinct(a: IdDocumentType, b: IdDocumentType)
    ensures a.Type() == b.Type() <==> a == b
  {
  }

  /** Decoding a member's wire string gives the member back; in particular the
      document type the client sends decodes to the caller's choice. */
  lemma RoundTrip(m: IdDocumentType)
    ensures ToIdDocumentType(m.Type()) == m
  {
    var r := ToIdDocumentType(m.Type());
    assert IsWireValue(m.Type());
    WireValuesDistinct(r, m);
  }

  /** The decoder in both directions: it yields `m` exactly when `s` is `m`'s
      wire string, or when `m` is UNKNOWN and `s` is no member's wire string. */
  lemma ToIdDocumentTypeCharacterized(s: string, m: IdDocumentType)
    ensures ToIdDocumentType(s) == m <==> (m.Type() == s || (m == UNKNOWN && !IsWireValue(s)))
  {
    if m.Type() == s {
      RoundTrip(m);
    }
  }

  /** UNKNOWN's wire string is "Unknown", not its name: the name "UNKNOWN" is
      no wire string and reaches UNKNOWN only through the fallback; matching is
      case-sensitive, so "Passport" is not PASSPORT. */
  lemma UnknownWireDiffersFromName()
    ensures UNKNOWN.Type() != UNKNOWN.Name()
    ensures !IsWireValue("UNKNOWN") && ToIdDocumentType("UNKNOWN") == UNKNOWN
    ensures !IsWireValue("Passport") && ToIdDocumentType("Passport") == UNKNOWN
  {
    assert forall m: IdDocumentType :: m.Type() != "UNKNOWN" && m.Type() != "Passport";
  }
}
