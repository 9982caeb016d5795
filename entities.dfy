/** The domain records the client returns. They have no behaviour. */
module Entities {
  import opened Wrappers
  import opened VerificationMethods
  import opened IdDocumentTypes
  import opened DocumentVerificationStatuses

  /** `java.util.Date`: an instant, as milliseconds since the epoch. The
      field is unbounded here, but `java.util.Date` holds a Long; both
      transformers guarantee a value within `Longs.InLongRange`. */
  datatype Date = Date(epochMs: int)

  /** The outcome of an identity verification. */
  datatype VerifiedIdentity = VerifiedIdentity(
    owner: string,
    verified: bool,
    verifiedAt: Option<Date>,
    verificationMethod: VerificationMethod,
    canAttemptVerificationAgain: bool,
    idScanUrl: Option<string>,
    requiredVerificationMethod: Option<VerificationMethod>,
    acceptableDocumentTypes: seq<IdDocumentType>,
    documentVerificationStatus: DocumentVerificationStatus)

  /** Where to upload identity-document images, and until when. */
  datatype IdentityDocumentCaptureInitiationInfo = IdentityDocumentCaptureInitiationInfo(
    documentCaptureUrl: string,
    expiryAt: Date)
}
