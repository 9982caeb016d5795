/** Conversion of the service's document-capture initiation record. */
module CaptureInitiationInfoTransformer {
  import opened Longs
  import opened Entities

  /** The record as the service returns it: a URL and a non-optional expiry in
      seconds since the epoch (a floating-point number on the wire, an integer
      here). */
  datatype GraphQLInitiateIdentityDocumentCapture = GraphQLInitiateIdentityDocumentCapture(
    documentCaptureUrl: string,
    expiryAtEpochSeconds: int)

  /** Expiries, in seconds, whose conversion to milliseconds fits in a Long. */
  const MAX_EXPIRY_SECONDS: int := LONG_MAX / 1000

  predicate ExpiryFits(seconds: int) {
    -MAX_EXPIRY_SECONDS <= seconds <= MAX_EXPIRY_SECONDS
  }

  /** `toEntity`: total, with no absent case. The URL is copied; the expiry is
      the seconds times 1000, computed in Long arithmetic. */
  function ToEntity(graphql: GraphQLInitiateIdentityDocumentCapture): (r: IdentityDocumentCaptureInitiationInfo)
    ensures r.documentCaptureUrl == graphql.documentCaptureUrl
    ensures InLongRange(r.expiryAt.epochMs)
    ensures (r.expiryAt.epochMs - SaturateToLong(graphql.expiryAtEpochSeconds) * 1000) % TWO_TO_64 == 0
    ensures ExpiryFits(graphql.expiryAtEpochSeconds) ==>
              r.expiryAt.epochMs == graphql.expiryAtEpochSeconds * 1000
  {
    IdentityDocumentCaptureInitiationInfo(
      documentCaptureUrl := graphql.documentCaptureUrl,
      expiryAt := Date(WrapLong(SaturateToLong(graphql.expiryAtEpochSeconds) * 1000)))
  }

  /** A later expiry in seconds gives a later expiry instant. */
  lemma ExpiryIsStrictlyMonotone(a: GraphQLInitiateIdentityDocumentCapture, b: GraphQLInitiateIdentityDocumentCapture)
    requires ExpiryFits(a.expiryAtEpochSeconds) && ExpiryFits(b.expiryAtEpochSeconds)
    requires a.expiryAtEpochSeconds < b.expiryAtEpochSeconds
    ensures ToEntity(a).expiryAt.epochMs < ToEntity(b).expiryAt.epochMs
  {
  }

  /** Past the range where the product fits, Long arithmetic wraps: one
      second beyond `MAX_EXPIRY_SECONDS` gives an instant before the epoch. */
  lemma ExpiryPastRangeWrapsToThePast(url: string)
    ensures ToEntity(GraphQLInitiateIdentityDocumentCapture(url, MAX_EXPIRY_SECONDS + 1)).expiryAt.epochMs
            == (MAX_EXPIRY_SECONDS + 1) * 1000 - TWO_TO_64
    ensures ToEntity(GraphQLInitiateIdentityDocumentCapture(url, MAX_EXPIRY_SECONDS + 1)).expiryAt.epochMs < 0
  {
    var x := (MAX_EXPIRY_SECONDS + 1) * 1000;
    assert LONG_MAX < x < LONG_MAX + TWO_TO_64;
    assert WrapLong(x) == x - TWO_TO_64;
  }
}
