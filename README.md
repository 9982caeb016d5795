# Sudo secure identity verification client: classification and normalisation

This project models the Android client for the Sudo Platform identity verification
service, written in Kotlin. The client offers six operations:

- listing the countries where verification is supported;
- asking whether a face image must come with a document;
- checking the current verification record;
- verifying an identity by knowledge of personal information;
- verifying an identity document;
- capturing and verifying an identity document.

Each operation has the same shape:

1. It refuses to run unless the user is signed in.
2. It sends one GraphQL request.
3. It classifies the first error item of an erroneous response into the client's closed exception taxonomy.
4. It fills in a default for an absent payload, or converts the wire record into a domain entity.
5. It maps anything thrown on the way to a cancellation or to one of the client's own exceptions.

The model is pure. Each operation is a function. It takes whether the user is signed in
and what the transport did (it threw, or it responded with error items and an optional payload).
It returns what the caller receives and which request, if any, was sent. The classifier,
the catch mapping, the two wire-record transformers and the three enumeration decoders
are functions too.

Modules:

- `Wrappers`: `Option` and `Result`.
- `Strings`: Kotlin's `String.contains`, with its meaning as "is a substring".
- `Longs`: the saturating conversion to a 64-bit Long and Long wrap-around.
- `WireLookup`: the linear search that every enumeration decoder performs.
- `VerificationMethods`, `IdDocumentTypes` and `DocumentVerificationStatuses`: the three enumerations with their wire strings and decoders.
- `Entities`: the domain records.
- `VerifiedIdentityTransformer` and `CaptureInitiationInfoTransformer`: wire record to entity.
- `Exceptions`: the exception taxonomy, and the throwables the catch blocks see.
- `ErrorClassifier`: the error-item classifier and the thrown-failure mapping.
- `Client`: the six operations.

Where the parts of the client disagree, the model follows the client's code:

- The exception file declares eleven message-and-cause subclasses plus `UnknownException`.
  The client also constructs `RequiredIdentityInformationNotProvidedException`, so the
  taxonomy here has that twelfth variant as well.
- Classification looks only at the `errorType` attribute of the error item, and only with
  the ten substring markers the client declares. There is no check of an HTTP status code
  and no further marker.
- The document mutations also pass `input.faceImageBase64`, but the document input record
  has no such field. The model's input record follows the record's declaration.

## Model

| member | source | states |
|---|---|---|
| ErrorClassifier.InterpretError | sudoidentityverification/src/main/java/com/sudoplatform/sudoidentityverification/DefaultSudoIdentityVerificationClient.kt:333-359 | The classification never carries a cause. A recognised error carries its error type as message. An unrecognised one is a FailedException whose message is the error item's text. |
| ErrorClassifier.FirstMarkerIndex | sudoidentityverification/src/main/java/com/sudoplatform/sudoidentityverification/DefaultSudoIdentityVerificationClient.kt:335-357 | It returns the index of the first catalogue entry whose marker occurs in the error type, or the catalogue's length when none does. |
| ErrorClassifier.InterpretErrorIsFirstMatch | sudoidentityverification/src/main/java/com/sudoplatform/sudoidentityverification/DefaultSudoIdentityVerificationClient.kt:333-359 | The if/else-if chain equals a lookup of the first matching entry in the ordered catalogue of the ten markers. ServerError and ServiceError both map to InternalServerException. |
| ErrorClassifier.FirstOccurringMarkerDecides | sudoidentityverification/src/main/java/com/sudoplatform/sudoidentityverification/DefaultSudoIdentityVerificationClient.kt:335-357 | If marker k occurs in the error type and no earlier marker does, the result is marker k's variant, with the error type as message. |
| ErrorClassifier.ServerFamilyTakesPrecedence | sudoidentityverification/src/main/java/com/sudoplatform/sudoidentityverification/DefaultSudoIdentityVerificationClient.kt:335-336 | An error type containing ServerError is an InternalServerException, whatever other markers it also contains. |
| ErrorClassifier.UnmarkedErrorFails | sudoidentityverification/src/main/java/com/sudoplatform/sudoidentityverification/DefaultSudoIdentityVerificationClient.kt:358 | An error type that contains no marker yields FailedException carrying the error item's text. |
| ErrorClassifier.AbsentErrorTypeFails | sudoidentityverification/src/main/java/com/sudoplatform/sudoidentityverification/DefaultSudoIdentityVerificationClient.kt:334 | A missing errorType attribute reads as the empty string, which contains no marker, so the result is FailedException. |
| ErrorClassifier.NoMarkerShadowsALaterOne | sudoidentityverification/src/main/java/com/sudoplatform/sudoidentityverification/DefaultSudoIdentityVerificationClient.kt:54-65 | No marker occurs inside a later marker of the chain, so the order of the branches never hides an entry. |
| ErrorClassifier.EveryMarkerIsReachable | sudoidentityverification/src/main/java/com/sudoplatform/sudoidentityverification/DefaultSudoIdentityVerificationClient.kt:335-357 | An error type equal to any marker yields that marker's own variant, with the marker as message. |
| ErrorClassifier.UnsupportedCountryScenario | sudoidentityverification/src/main/java/com/sudoplatform/sudoidentityverification/DefaultSudoIdentityVerificationClient.kt:351-352 | The error type UnsupportedCountryError yields UnsupportedCountryException with that message. |
| ErrorClassifier.InterpretException | sudoidentityverification/src/main/java/com/sudoplatform/sudoidentityverification/DefaultSudoIdentityVerificationClient.kt:361-368 | Cancellations and the client's own exceptions pass through unchanged. Everything else is wrapped in UnknownException. The result is always a cancellation or a client exception. |
| ErrorClassifier.InterpretExceptionIdempotent | sudoidentityverification/src/main/java/com/sudoplatform/sudoidentityverification/DefaultSudoIdentityVerificationClient.kt:361-368 | Applying the mapping twice gives the same result as applying it once. |
| ErrorClassifier.CatchMapping | sudoidentityverification/src/main/java/com/sudoplatform/sudoidentityverification/DefaultSudoIdentityVerificationClient.kt:103-111 | An authorization rejection becomes AuthenticationException and an Apollo failure becomes FailedException, each with the original as cause. Anything else goes through the thrown-failure mapping. |
| ErrorClassifier.CatchMappingPassesThrough | sudoidentityverification/src/main/java/com/sudoplatform/sudoidentityverification/DefaultSudoIdentityVerificationClient.kt:103-111 | The catch block returns the client's own exceptions and cancellations unchanged, so it is idempotent. A foreign throwable becomes UnknownException. |
| Strings.ContainsIsSubstring | sudoidentityverification/src/main/java/com/sudoplatform/sudoidentityverification/DefaultSudoIdentityVerificationClient.kt:335 | `contains` is true exactly when the marker occurs at some position of the string. |
| Longs.SaturateToLong | sudoidentityverification/src/main/java/com/sudoplatform/sudoidentityverification/types/VerifiedIdentityTransformer.kt:11 | The conversion to Long always lands in the Long range. It is the identity inside that range and clamps to the nearest bound outside it. |
| Longs.WrapLong | sudoidentityverification/src/main/java/com/sudoplatform/sudoidentityverification/types/IdentityDocumentCaptureInitiationInfoTransformer.kt:10 | Long arithmetic gives a value in the Long range that is congruent to the exact result modulo 2^64, and equal to it when that fits. |
| WireLookup.Find | sudoidentityverification/src/main/java/com/sudoplatform/sudoidentityverification/types/VerifiedIdentityTransformer.kt:22-30 | A found member carries the sought wire string and is the first one in declaration order that does. Nothing is found exactly when no member carries the string. |
| VerificationMethods.ToVerificationMethod | sudoidentityverification/src/main/java/com/sudoplatform/sudoidentityverification/types/VerifiedIdentityTransformer.kt:22-30 | A wire string decodes to the member carrying it. Any other string decodes to UNKNOWN. |
| VerificationMethods.ToVerificationMethodCharacterized | sudoidentityverification/src/main/java/com/sudoplatform/sudoidentityverification/types/VerifiedIdentityTransformer.kt:22-30 | Decoding yields m if and only if the string is m's wire string, or m is UNKNOWN and the string is no member's wire string. |
| VerificationMethods.RoundTrip | sudoidentityverification/src/main/java/com/sudoplatform/sudoidentityverification/types/VerificationMethod.kt:12-19 | Decoding a member's wire string gives that member back. |
| VerificationMethods.WireValuesDistinct | sudoidentityverification/src/main/java/com/sudoplatform/sudoidentityverification/types/VerificationMethod.kt:12-19 | Two members share a wire string only if they are the same member. |
| VerificationMethods.WireValueIsName | sudoidentityverification/src/main/java/com/sudoplatform/sudoidentityverification/types/VerificationMethod.kt:15-18 | Every member's wire string is its own name. |
| VerificationMethods.ValuesEnumerateMembers | sudoidentityverification/src/main/java/com/sudoplatform/sudoidentityverification/types/VerificationMethod.kt:12-19 | There are exactly four members, each listed once. |
| IdDocumentTypes.ToIdDocumentType | sudoidentityverification/src/main/java/com/sudoplatform/sudoidentityverification/types/VerifiedIdentityTransformer.kt:32-40 | A wire string decodes to the member carrying it. Any other string decodes to UNKNOWN. |
| IdDocumentTypes.ToIdDocumentTypeCharacterized | sudoidentityverification/src/main/java/com/sudoplatform/sudoidentityverification/types/VerifiedIdentityTransformer.kt:32-40 | Decoding yields m if and only if the string is m's wire string, or m is UNKNOWN and the string is no member's wire string. |
| IdDocumentTypes.RoundTrip | sudoidentityverification/src/main/java/com/sudoplatform/sudoidentityverification/types/IdDocumentType.kt:14-19 | Decoding a member's wire string gives that member back. |
| IdDocumentTypes.WireValuesDistinct | sudoidentityverification/src/main/java/com/sudoplatform/sudoidentityverification/types/IdDocumentType.kt:14-19 | Two members share a wire string only if they are the same member. |
| IdDocumentTypes.ValuesEnumerateMembers | sudoidentityverification/src/main/java/com/sudoplatform/sudoidentityverification/types/IdDocumentType.kt:14-19 | There are exactly four members, each listed once. |
| IdDocumentTypes.UnknownWireDiffersFromName | sudoidentityverification/src/main/java/com/sudoplatform/sudoidentityverification/types/IdDocumentType.kt:18 | UNKNOWN's wire string is "Unknown", not its name. "UNKNOWN" and "Passport" are not wire strings, and they decode to UNKNOWN only through the fallback, because matching is case-sensitive. |
| DocumentVerificationStatuses.ToDocumentVerificationStatus | sudoidentityverification/src/main/java/com/sudoplatform/sudoidentityverification/types/VerifiedIdentityTransformer.kt:42-50 | A wire string decodes to the member carrying it. Any other string decodes to UNKNOWN. |
| DocumentVerificationStatuses.ToDocumentVerificationStatusCharacterized | sudoidentityverification/src/main/java/com/sudoplatform/sudoidentityverification/types/VerifiedIdentityTransformer.kt:42-50 | Decoding yields m if and only if the string is m's wire string, or m is UNKNOWN and the string is no member's wire string. |
| DocumentVerificationStatuses.RoundTrip | sudoidentityverification/src/main/java/com/sudoplatform/sudoidentityverification/types/DocumentVerificationStatus.kt:12-22 | Decoding a member's wire string gives that member back. |
| DocumentVerificationStatuses.WireValuesDistinct | sudoidentityverification/src/main/java/com/sudoplatform/sudoidentityverification/types/DocumentVerificationStatus.kt:12-22 | Two members share a wire string only if they are the same member. |
| DocumentVerificationStatuses.ValuesEnumerateMembers | sudoidentityverification/src/main/java/com/sudoplatform/sudoidentityverification/types/DocumentVerificationStatus.kt:12-22 | There are exactly seven members, each listed once. |
| DocumentVerificationStatuses.OnlyUnknownIsCapitalised | sudoidentityverification/src/main/java/com/sudoplatform/sudoidentityverification/types/DocumentVerificationStatus.kt:15-21 | The six known statuses are written in lower camel case. Only UNKNOWN's wire string starts with a capital letter. |
| VerifiedIdentityTransformer.ToIdDocumentTypes | sudoidentityverification/src/main/java/com/sudoplatform/sudoidentityverification/types/VerifiedIdentityTransformer.kt:16 | The decoded list has the same length and order, and each element is decoded on its own. |
| VerifiedIdentityTransformer.ToEntity | sudoidentityverification/src/main/java/com/sudoplatform/sudoidentityverification/types/VerifiedIdentityTransformer.kt:7-19 | Each field is converted on its own. Plain fields are copied, and absent optional fields stay absent. Enumerations are decoded without ever failing. The instant is the given milliseconds when they fit in a Long. Otherwise it is LONG_MAX or LONG_MIN, whichever bound was passed. |
| VerifiedIdentityTransformer.DocumentTypesInvertToWire | sudoidentityverification/src/main/java/com/sudoplatform/sudoidentityverification/types/VerifiedIdentityTransformer.kt:16 | A list of document types written out as wire strings decodes back to the same list, element by element. |
| VerifiedIdentityTransformer.ToEntityInvertsToWire | sudoidentityverification/src/main/java/com/sudoplatform/sudoidentityverification/types/VerifiedIdentityTransformer.kt:7-19 | A wire record that spells out an entity converts back to exactly that entity. |
| VerifiedIdentityTransformer.UnrecognisedValuesBecomeUnknown | sudoidentityverification/src/main/java/com/sudoplatform/sudoidentityverification/types/VerifiedIdentityTransformer.kt:12-17 | An unrecognised verification method, required verification method, status or document type, including any element of the list, becomes that enumeration's UNKNOWN. |
| CaptureInitiationInfoTransformer.ToEntity | sudoidentityverification/src/main/java/com/sudoplatform/sudoidentityverification/types/IdentityDocumentCaptureInitiationInfoTransformer.kt:7-12 | The URL is copied. The expiry is the Long product of the seconds, converted to Long, and 1000: it is congruent to that product modulo 2^64, and equal to the seconds times 1000 whenever that fits. |
| CaptureInitiationInfoTransformer.ExpiryIsStrictlyMonotone | sudoidentityverification/src/main/java/com/sudoplatform/sudoidentityverification/types/IdentityDocumentCaptureInitiationInfoTransformer.kt:10 | Whenever both expiries times 1000 fit in a Long, a later expiry in seconds gives a later expiry instant. |
| CaptureInitiationInfoTransformer.ExpiryPastRangeWrapsToThePast | sudoidentityverification/src/main/java/com/sudoplatform/sudoidentityverification/types/IdentityDocumentCaptureInitiationInfoTransformer.kt:10 | The Long multiplication wraps modulo 2^64. One second past the largest expiry whose milliseconds fit gives a negative instant, before the epoch. |
| Exceptions.SudoIdentityVerificationException.Message | sudoidentityverification/src/main/java/com/sudoplatform/sudoidentityverification/SudoIdentityVerificationException.kt:15 | The message is the one given at construction. UnknownException has none. |
| Exceptions.SudoIdentityVerificationException.Cause | sudoidentityverification/src/main/java/com/sudoplatform/sudoidentityverification/SudoIdentityVerificationException.kt:86-87 | The cause is the one given at construction. UnknownException always has the throwable it wraps. |
| Exceptions.TaxonomyIsClosed | sudoidentityverification/src/main/java/com/sudoplatform/sudoidentityverification/SudoIdentityVerificationException.kt:15-87 | Besides UnknownException there are exactly twelve distinct variants. A variant built without arguments has neither message nor cause. |
| Client.FetcherFor | sudoidentityverification/src/main/java/com/sudoplatform/sudoidentityverification/DefaultSudoIdentityVerificationClient.kt:159-166 | CACHE_ONLY selects the cache-only fetcher, and REMOTE_ONLY selects the network-only fetcher. |
| Client.TryBlock | sudoidentityverification/src/main/java/com/sudoplatform/sudoidentityverification/DefaultSudoIdentityVerificationClient.kt:96-102 | A thrown failure propagates. An erroneous response fails with the classification of its first error item. A missing payload gives the operation's default, and a present payload is converted. |
| Client.Operate | sudoidentityverification/src/main/java/com/sudoplatform/sudoidentityverification/DefaultSudoIdentityVerificationClient.kt:85-111 | A user who is not signed in gets NotSignedInException and no request is sent. Otherwise the request is sent, and any failure reaches the caller as the catch block maps it. |
| Client.ListSupportedCountries | sudoidentityverification/src/main/java/com/sudoplatform/sudoidentityverification/DefaultSudoIdentityVerificationClient.kt:82-113 | It sends the capabilities query. An absent list reads as the empty list, and a present one is returned as is. |
| Client.IsFaceImageRequired | sudoidentityverification/src/main/java/com/sudoplatform/sudoidentityverification/DefaultSudoIdentityVerificationClient.kt:115-146 | It sends the capabilities query. An absent flag reads as false. |
| Client.CheckIdentityVerification | sudoidentityverification/src/main/java/com/sudoplatform/sudoidentityverification/DefaultSudoIdentityVerificationClient.kt:148-191 | The query goes out with the fetcher the option selects. An absent record is FailedException "Query succeeded but output was null.", and a present one is converted. |
| Client.VerifyIdentity | sudoidentityverification/src/main/java/com/sudoplatform/sudoidentityverification/DefaultSudoIdentityVerificationClient.kt:193-238 | The mutation always requests KNOWLEDGE_OF_PII with the caller's input. An absent record is FailedException "Mutation succeeded but output was null.". |
| Client.DocumentRequestFor | sudoidentityverification/src/main/java/com/sudoplatform/sudoidentityverification/DefaultSudoIdentityVerificationClient.kt:248-255 | The request asks for GOVERNMENT_ID and copies the images and country. It sends the document type's own wire string, which decodes back to the caller's document type. |
| Client.VerifyIdentityDocument | sudoidentityverification/src/main/java/com/sudoplatform/sudoidentityverification/DefaultSudoIdentityVerificationClient.kt:240-282 | It sends the document-verification mutation. An absent record is FailedException "Mutation succeeded but output was null.". |
| Client.CaptureAndVerifyIdentityDocument | sudoidentityverification/src/main/java/com/sudoplatform/sudoidentityverification/DefaultSudoIdentityVerificationClient.kt:284-326 | It sends the capture-and-verify mutation. An absent record is FailedException "Mutation succeeded but output was null.". |
| Client.FailuresAreClassified | sudoidentityverification/src/main/java/com/sudoplatform/sudoidentityverification/DefaultSudoIdentityVerificationClient.kt:103-111 | Whatever goes wrong, the caller receives a cancellation or one of the client's own exceptions. |
| Client.OnlyFirstErrorIsClassified | sudoidentityverification/src/main/java/com/sudoplatform/sudoidentityverification/DefaultSudoIdentityVerificationClient.kt:96-99 | Two responses with the same first error item give the same result, whatever their other errors and payload. That result is the first error's classification. |
| Client.ThrownFailureMapping | sudoidentityverification/src/main/java/com/sudoplatform/sudoidentityverification/DefaultSudoIdentityVerificationClient.kt:103-111 | A transport failure reaches the caller as follows: an authorization rejection as AuthenticationException and an Apollo failure as FailedException, each with the original as cause; cancellations and client exceptions unchanged; anything else wrapped in UnknownException. |
| Client.SentMethodsAreWireValues | sudoidentityverification/src/main/java/com/sudoplatform/sudoidentityverification/DefaultSudoIdentityVerificationClient.kt:50-51 | The method strings the client sends are the wire strings of KNOWLEDGE_OF_PII and GOVERNMENT_ID, and they decode back to those members. |

## Left out

- The GraphQL transport (AppSync/Apollo), its caching and the network are not modelled. Their outcome is an input to each operation.
- Coroutines and suspension are not modelled. A cancellation is only a kind of throwable that passes through the catch blocks unchanged.
- Logging is not modelled, because it has no effect on results.
- The sign-in state is a boolean parameter. How the user client determines it is outside this model.
- `reset()` is left out, because it only clears the transport's caches.
- The constructor's choice of GraphQL client is left out, and so is `version`.
- Nested nullable chains such as `data()?.x?.y()` are collapsed into one optional payload. Which link of a chain was null is not distinguished.
- The knowledge-of-PII request is modelled as the caller's input record, without the builder's field-by-field copy.
- Client.DocumentRequestFor: the face image the document mutations pass is not modelled, because the document input record declares no such field.
- VerifiedIdentityTransformer.ToEntity: the verification instant arrives as a floating-point number. Here it is an integer, so fractional milliseconds, NaN and rounding are not modelled, although the saturation of `toLong()` is.
- CaptureInitiationInfoTransformer.ToEntity: the expiry seconds are likewise an integer rather than a floating-point number.
- ErrorClassifier.InterpretError: the fallback message is the error item's `toString()`. This is modelled as an opaque text field of the item, not derived from its other fields.
- The consent types, `IdGenerator`, the legacy top-level `VerifiedIdentity` class and `ApiException` are not part of this model, because the operations modelled here do not use them.
