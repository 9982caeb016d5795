/** Conversion of the service's verified-identity record into the domain entity. */
module VerifiedIdentityTransformer {
  import opened Wrappers
  import opened Longs
  import opened VerificationMethods
  import opened IdDocumentTypes
  import opened DocumentVerificationStatuses
  import opened Entities

  /** The verified-identity fragment as the service returns it: enumerations
      arrive as free text, the verification instant as an optional number of
      milliseconds (a floating-point number on the wire, an integer here). */
  datatype GraphQLVerifiedIdentity = GraphQLVerifiedIdentity(
    owner: string,
    verified: bool,
    verifiedAtEpochMs: Option<int>,
    verificationMethod: string,
    canAttemptVerificationAgain: bool,
    idScanUrl: Option<string>,
    requiredVerificationMethod: Option<string>,
    acceptableDocumentTypes: seq<string>,
    documentVerificationStatus: string)

  /** `acceptableDocumentTypes().map { it.toIdDocumentType() }` */
  function ToIdDocumentTypes(wire: seq<string>): (r: seq<IdDocumentType>)
    ensures |r| == |wire|
    ensures forall i :: 0 <= i < |wire| ==> r[i] == ToIdDocumentType(wire[i])
  {
    if wire == [] then [] else [ToIdDocumentType(wire[0])] + ToIdDocumentTypes(wire[1..])
  }

  /** `toEntity`: a total, field-by-field conversion. Plain fields are copied,
      absent optional fields stay absent, enumerations are decoded (never
      failing), the list keeps its length and order, and the verification
      instant is the given number of milliseconds, unscaled. */
  function ToEntity(graphql: GraphQLVerifiedIdentity): (r: VerifiedIdentity)
    ensures r.owner == graphql.owner
    ensures r.verified == graphql.verified
    ensures r.canAttemptVerificationAgain == graphql.canAttemptVerificationAgain
    ensures r.idScanUrl == graphql.idScanUrl
    ensures r.verifiedAt.None? <==> graphql.verifiedAtEpochMs.None?
    ensures r.verifiedAt.Some? ==> InLongRange(r.verifiedAt.value.epochMs)
    ensures r.verifiedAt.Some? && InLongRange(graphql.verifiedAtEpochMs.value) ==>
              r.verifiedAt.value.epochMs == graphql.verifiedAtEpochMs.value
    ensures graphql.verifiedAtEpochMs.Some? && graphql.verifiedAtEpochMs.value > LONG_MAX ==>
              r.verifiedAt == Some(Date(LONG_MAX))
    ensures graphql.verifiedAtEpochMs.Some? && graphql.verifiedAtEpochMs.value < LONG_MIN ==>
              r.verifiedAt == Some(Date(LONG_MIN))
    ensures r.verificationMethod == ToVerificationMethod(graphql.verificationMethod)
    ensures r.requiredVerificationMethod.None? <==> graphql.requiredVerificationMethod.None?
    ensures r.requiredVerificationMethod.Some? ==>
              r.requiredVerificationMethod.value == ToVerificationMethod(graphql.requiredVerificationMethod.value)
    ensures |r.acceptableDocumentTypes| == |graphql.acceptableDocumentTypes|
    ensures forall i :: 0 <= i < |r.acceptableDocumentTypes| ==>
              r.acceptableDocumentTypes[i] == ToIdDocumentType(graphql.acceptableDocumentTypes[i])
    ensures r.documentVerificationStatus == ToDocumentVerificationStatus(graphql.documentVerificationStatus)
  {
    VerifiedIdentity(
      owner := graphql.owner,
      verified := graphql.verified,
      verifiedAt := match graphql.verifiedAtEpochMs
                    case Some(ms) => Some(Date(SaturateToLong(ms)))
                    case None => None,
      verificationMethod := ToVerificationMethod(graphql.verificationMethod),
      canAttemptVerificationAgain := graphql.canAttemptVerificationAgain,
      idScanUrl := graphql.idScanUrl,
      requiredVerificationMethod := match graphql.requiredVerificationMethod
                                    case Some(s) => Some(ToVerificationMethod(s))
                                    case None => None,
      acceptableDocumentTypes := ToIdDocumentTypes(graphql.acceptableDocumentTypes),
      documentVerificationStatus := ToDocumentVerificationStatus(graphql.documentVerificationStatus))
  }

  /** The wire record that spells out a domain entity: every enumeration as its
      wire string, the instant as its milliseconds. */
  function ToWire(v: VerifiedIdentity): (g: GraphQLVerifiedIdentity)
    ensures |g.acceptableDocumentTypes| == |v.acceptableDocumentTypes|
  {
    GraphQLVerifiedIdentity(
      owner := v.owner,
      verified := v.verified,
      verifiedAtEpochMs := match v.verifiedAt case Some(d) => Some(d.epochMs) case None => None,
      verificationMethod := v.verificationMethod.Type(),
      canAttemptVerificationAgain := v.canAttemptVerificationAgain,
      idScanUrl := v.idScanUrl,
      requiredVerificationMethod := match v.requiredVerificationMethod
                                    case Some(m) => Some(m.Type())
                                    case None => None,
      acceptableDocumentTypes := seq(|v.acceptableDocumentTypes|, i requires 0 <= i < |v.acceptableDocumentTypes| =>
                                       v.acceptableDocumentTypes[i].Type()),
      documentVerificationStatus := v.documentVerificationStatus.Type())
  }

  /** The document-type list of a spelled-out entity decodes back to the
      entity's list. */
  lemma DocumentTypesInvertToWire(v: VerifiedIdentity)
    ensures ToIdDocumentTypes(ToWire(v).acceptableDocumentTypes) == v.acceptableDocumentTypes
  {
    var wire := ToWire(v).acceptableDocumentTypes;
    var decoded := ToIdDocumentTypes(wire);
    forall i | 0 <= i < |v.acceptableDocumentTypes|
      ensures decoded[i] == v.acceptableDocumentTypes[i]
    {
      IdDocumentTypes.RoundTrip(v.acceptableDocumentTypes[i]);
    }
  }

  /** A fully populated record that faithfully spells out an entity converts
      back to exactly that entity, field by field. */
  lemma {:induction false} ToEntityInvertsToWire(v: VerifiedIdentity)
    requires v.verifiedAt.Some? ==> InLongRange(v.verifiedAt.value.epochMs)
    ensures ToEntity(ToWire(v)) == v
  {
    var r := ToEntity(ToWire(v));
    VerificationMethods.RoundTrip(v.verificationMethod);
    DocumentVerificationStatuses.RoundTrip(v.documentVerificationStatus);
    if v.requiredVerificationMethod.Some? {
      VerificationMethods.RoundTrip(v.requiredVerificationMethod.value);
    }
    DocumentTypesInvertToWire(v);
    assert r.verifiedAt == v.verifiedAt;
  }

  /** Decoding never fails: unrecognised strings in every enumerated field,
      including every list element, become that enumeration's UNKNOWN. */
  lemma UnrecognisedValuesBecomeUnknown(graphql: GraphQLVerifiedIdentity)
    ensures !VerificationMethods.IsWireValue(graphql.verificationMethod) ==>
              ToEntity(graphql).verificationMethod == VerificationMethods.UNKNOWN
    ensures graphql.requiredVerificationMethod.Some?
            && !VerificationMethods.IsWireValue(graphql.requiredVerificationMethod.value) ==>
              ToEntity(graphql).requiredVerificationMethod == Some(VerificationMethods.UNKNOWN)
    ensures !DocumentVerificationStatuses.IsWireValue(graphql.documentVerificationStatus) ==>
              ToEntity(graphql).documentVerificationStatus == DocumentVerificationStatuses.UNKNOWN
    ensures forall i :: (0 <= i < |graphql.acceptableDocumentTypes|
                         && !IdDocumentTypes.IsWireValue(graphql.acceptableDocumentTypes[i])) ==>
              ToEntity(graphql).acceptableDocumentTypes[i] == IdDocumentTypes.UNKNOWN
  {
  }
}
