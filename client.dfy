/** The six operations of the identity-verification client, each as a function
    from the sign-in state and what the GraphQL transport did to what the
    caller receives. The transport itself is not modelled: its outcome is an
    input. */
module Client {
  import opened Wrappers
  import opened Exceptions
  import opened ErrorClassifier
  import opened VerificationMethods
  import opened IdDocumentTypes
  import opened Entities
  import VerifiedIdentityTransformer

  /** The verification-method strings the client puts in its requests. */
  const KNOWLEDGE_OF_PII_METHOD: string := "KNOWLEDGE_OF_PII"
  const GOVERNMENT_ID_METHOD: string := "GOVERNMENT_ID"

  const QUERY_NULL_OUTPUT: string := "Query succeeded but output was null."
  const MUTATION_NULL_OUTPUT: string := "Mutation succeeded but output was null."

  /** Whether a query may be answered from the local cache. */
  datatype QueryOption = CACHE_ONLY | REMOTE_ONLY

  /** The response fetchers of the GraphQL client that the two options select. */
  datatype ResponseFetcher = CacheOnlyFetcher | NetworkOnlyFetcher

  function FetcherFor(option: QueryOption): (f: ResponseFetcher)
    ensures f == CacheOnlyFetcher <==> option == CACHE_ONLY
    ensures f == NetworkOnlyFetcher <==> option == REMOTE_ONLY
  {
    match option
    case CACHE_ONLY => CacheOnlyFetcher
    case REMOTE_ONLY => NetworkOnlyFetcher
  }

  /** Identity details for verification by knowledge of personal information. */
  datatype VerifyIdentityInput = VerifyIdentityInput(
    firstName: string,
    lastName: string,
    address: string,
    city: Option<string>,
    state: Option<string>,
    postalCode: string,
    country: string,
    dateOfBirth: string)

  /** Images of an identity document, with its country and type. */
  datatype VerifyIdentityDocumentInput = VerifyIdentityDocumentInput(
    imageBase64: string,
    backImageBase64: string,
    country: string,
    documentType: IdDocumentType)

  /** The variables of a document-verification mutation. */
  datatype DocumentRequest = DocumentRequest(
    verificationMethod: string,
    imageBase64: string,
    backImageBase64: string,
    country: string,
    documentType: string)

  /** The request an operation hands to the transport. */
  datatype Request =
    | GetIdentityVerificationCapabilitiesQuery
    | CheckIdentityVerificationQuery(fetcher: ResponseFetcher)
    | VerifyIdentityMutation(verificationMethod: string, identity: VerifyIdentityInput)
    | VerifyIdentityDocumentMutation(document: DocumentRequest)
    | CaptureAndVerifyIdentityDocumentMutation(document: DocumentRequest)

  /** What the transport did: threw, or responded with error items (which
      make `hasErrors()` true when there is at least one) and, if the chain
      of nullable fields leading to it is complete, the operation's payload. */
  datatype Outcome<D> =
    | Threw(failure: Throwable)
    | Responded(errors: seq<ErrorItem>, data: Option<D>)

  /** What the caller receives, and the request sent to the transport, if any. */
  datatype Call<V> = Call(result: Result<V, Throwable>, sent: Option<Request>)

  /** The failure every operation raises before anything else when the user
      is not signed in. */
  const NOT_SIGNED_IN: Throwable := Domain(Raised(NotSignedInException))

  /** The body of every operation's `try` block after the request is issued:
      a thrown failure propagates, an erroneous response throws the
      classification of its first error item, a missing payload gives the
      operation's `absent` outcome and a payload is converted by `present`. */
  function TryBlock<D, V>(outcome: Outcome<D>, present: D -> V, absent: Result<V, Throwable>): (r: Result<V, Throwable>)
    ensures outcome.Threw? ==> r == Failure(outcome.failure)
    ensures outcome.Responded? && |outcome.errors| > 0 ==>
              r == Failure(Domain(InterpretError(outcome.errors[0])))
    ensures outcome == Responded([], None) ==> r == absent
    ensures outcome.Responded? && outcome.errors == [] && outcome.data.Some? ==>
              r == Success(present(outcome.data.value))
  {
    match outcome
    case Threw(e) => Failure(e)
    case Responded(errors, data) =>
      if |errors| > 0 then Failure(Domain(InterpretError(errors[0])))
      else
        match data
        case None => absent
        case Some(d) => Success(present(d))
  }

  /** The shape shared by the six operations: check sign-in, send `request`,
      run the `try` block and pass any failure through the catch block. */
  function Operate<D, V>(signedIn: bool, request: Request, outcome: Outcome<D>,
                         present: D -> V, absent: Result<V, Throwable>): (c: Call<V>)
    ensures !signedIn ==> c == Call(Failure(NOT_SIGNED_IN), None)
    ensures signedIn ==> c.sent == Some(request)
    ensures signedIn && TryBlock(outcome, present, absent).Success? ==>
              c.result == TryBlock(outcome, present, absent)
    ensures signedIn && TryBlock(outcome, present, absent).Failure? ==>
              c.result == Failure(CatchMapping(TryBlock(outcome, present, absent).error))
  {
    if !signedIn then Call(Failure(NOT_SIGNED_IN), None)
    else
      var attempt := TryBlock(outcome, present, absent);
      match attempt
      case Success(v) => Call(Success(v), Some(request))
      case Failure(e) => Call(Failure(CatchMapping(e)), Some(request))
  }

  /** `listSupportedCountries`: an absent list reads as the empty list. */
  function ListSupportedCountries(signedIn: bool, outcome: Outcome<seq<string>>): (c: Call<seq<string>>)
    ensures !signedIn ==> c == Call(Failure(NOT_SIGNED_IN), None)
    ensures signedIn ==> c.sent == Some(GetIdentityVerificationCapabilitiesQuery)
    ensures signedIn && outcome == Responded([], None) ==> c.result == Success([])
    ensures signedIn && outcome.Responded? && outcome.errors == [] && outcome.data.Some? ==>
              c.result == Success(outcome.data.value)
  {
    Operate(signedIn, GetIdentityVerificationCapabilitiesQuery, outcome,
            (countries: seq<string>) => countries, Success([]))
  }

  /** `isFaceImageRequired`: an absent flag reads as false. */
  function IsFaceImageRequired(signedIn: bool, outcome: Outcome<bool>): (c: Call<bool>)
    ensures !signedIn ==> c == Call(Failure(NOT_SIGNED_IN), None)
    ensures signedIn ==> c.sent == Some(GetIdentityVerificationCapabilitiesQuery)
    ensures signedIn && outcome == Responded([], None) ==> c.result == Success(false)
    ensures signedIn && outcome.Responded? && outcome.errors == [] && outcome.data.Some? ==>
              c.result == Success(outcome.data.value)
  {
    Operate(signedIn, GetIdentityVerificationCapabilitiesQuery, outcome,
            (required: bool) => required, Success(false))
  }

  /** `checkIdentityVerification`: the query goes out with the fetcher the
      option selects; an absent record is a FailedException. */
  function CheckIdentityVerification(signedIn: bool, option: QueryOption,
                                     outcome: Outcome<VerifiedIdentityTransformer.GraphQLVerifiedIdentity>): (c: Call<VerifiedIdentity>)
    ensures !signedIn ==> c == Call(Failure(NOT_SIGNED_IN), None)
    ensures signedIn ==> c.sent == Some(CheckIdentityVerificationQuery(FetcherFor(option)))
    ensures signedIn && outcome == Responded([], None) ==>
              c.result == Failure(Domain(Raised(FailedException, message := Some(QUERY_NULL_OUTPUT))))
    ensures signedIn && outcome.Responded? && outcome.errors == [] && outcome.data.Some? ==>
              c.result == Success(VerifiedIdentityTransformer.ToEntity(outcome.data.value))
  {
    Operate(signedIn, CheckIdentityVerificationQuery(FetcherFor(option)), outcome,
            VerifiedIdentityTransformer.ToEntity,
            Failure(Domain(Raised(FailedException, message := Some(QUERY_NULL_OUTPUT)))))
  }

  /** `verifyIdentity`: always requests verification by knowledge of personal
      information; an absent record is a FailedException. */
  function VerifyIdentity(signedIn: bool, input: VerifyIdentityInput,
                          outcome: Outcome<VerifiedIdentityTransformer.GraphQLVerifiedIdentity>): (c: Call<VerifiedIdentity>)
    ensures !signedIn ==> c == Call(Failure(NOT_SIGNED_IN), None)
    ensures signedIn ==> c.sent == Some(VerifyIdentityMutation(KNOWLEDGE_OF_PII_METHOD, input))
    ensures signedIn && outcome == Responded([], None) ==>
              c.result == Failure(Domain(Raised(FailedException, message := Some(MUTATION_NULL_OUTPUT))))
    ensures signedIn && outcome.Responded? && outcome.errors == [] && outcome.data.Some? ==>
              c.result == Success(VerifiedIdentityTransformer.ToEntity(outcome.data.value))
  {
    Operate(signedIn, VerifyIdentityMutation(KNOWLEDGE_OF_PII_METHOD, input), outcome,
            VerifiedIdentityTransformer.ToEntity,
            Failure(Domain(Raised(FailedException, message := Some(MUTATION_NULL_OUTPUT)))))
  }

  /** The variables both document operations send: verification by
      government ID, and the document type's wire string. */
  function DocumentRequestFor(input: VerifyIdentityDocumentInput): (r: DocumentRequest)
    ensures r.verificationMethod == GOVERNMENT_ID_METHOD
    ensures r.documentType == input.documentType.Type()
    ensures ToIdDocumentType(r.documentType) == input.documentType
    ensures r.imageBase64 == input.imageBase64 && r.backImageBase64 == input.backImageBase64
    ensures r.country == input.country
  {
    IdDocumentTypes.RoundTrip(input.documentType);
    DocumentRequest(GOVERNMENT_ID_METHOD, input.imageBase64, input.backImageBase64,
                    input.country, input.documentType.Type())
  }

  /** `verifyIdentityDocument`; an absent record is a FailedException. */
  function VerifyIdentityDocument(signedIn: bool, input: VerifyIdentityDocumentInput,
                                  outcome: Outcome<VerifiedIdentityTransformer.GraphQLVerifiedIdentity>): (c: Call<VerifiedIdentity>)
    ensures !signedIn ==> c == Call(Failure(NOT_SIGNED_IN), None)
    ensures signedIn ==> c.sent == Some(VerifyIdentityDocumentMutation(DocumentRequestFor(input)))
    ensures signedIn && outcome == Responded([], None) ==>
              c.result == Failure(Domain(Raised(FailedException, message := Some(MUTATION_NULL_OUTPUT))))
    ensures signedIn && outcome.Responded? && outcome.errors == [] && outcome.data.Some? ==>
              c.result == Success(VerifiedIdentityTransformer.ToEntity(outcome.data.value))
  {
    Operate(signedIn, VerifyIdentityDocumentMutation(DocumentRequestFor(input)), outcome,
            VerifiedIdentityTransformer.ToEntity,
            Failure(Domain(Raised(FailedException, message := Some(MUTATION_NULL_OUTPUT)))))
  }

  /** `captureAndVerifyIdentityDocument`; an absent record is a FailedException. */
  function CaptureAndVerifyIdentityDocument(signedIn: bool, input: VerifyIdentityDocumentInput,
                                            outcome: Outcome<VerifiedIdentityTransformer.GraphQLVerifiedIdentity>): (c: Call<VerifiedIdentity>)
    ensures !signedIn ==> c == Call(Failure(NOT_SIGNED_IN), None)
    ensures signedIn ==> c.sent == Some(CaptureAndVerifyIdentityDocumentMutation(DocumentRequestFor(input)))
    ensures signedIn && outcome == Responded([], None) ==>
              c.result == Failure(Domain(Raised(FailedException, message := Some(MUTATION_NULL_OUTPUT))))
    ensures signedIn && outcome.Responded? && outcome.errors == [] && outcome.data.Some? ==>
              c.result == Success(VerifiedIdentityTransformer.ToEntity(outcome.data.value))
  {
    Operate(signedIn, CaptureAndVerifyIdentityDocumentMutation(DocumentRequestFor(input)), outcome,
            VerifiedIdentityTransformer.ToEntity,
            Failure(Domain(Raised(FailedException, message := Some(MUTATION_NULL_OUTPUT)))))
  }

  // Properties shared by all six operations, stated once for the common shape.

  /** Whatever fails, the caller receives a cancellation or an exception of
      the taxonomy: nothing escapes unclassified. */
  lemma FailuresAreClassified<D, V>(signedIn: bool, request: Request, outcome: Outcome<D>,
                                    present: D -> V, absent: Result<V, Throwable>)
    ensures var c := Operate(signedIn, request, outcome, present, absent);
            c.result.Failure? ==> c.result.error.CancellationException? || c.result.error.Domain?
  {
  }

  /** Only the first error item of an erroneous response matters: the rest,
      and any payload beside them, are ignored. */
  lemma OnlyFirstErrorIsClassified<D, V>(signedIn: bool, request: Request,
                                         errors1: seq<ErrorItem>, data1: Option<D>,
                                         errors2: seq<ErrorItem>, data2: Option<D>,
                                         present: D -> V, absent: Result<V, Throwable>)
    requires |errors1| > 0 && |errors2| > 0 && errors1[0] == errors2[0]
    ensures Operate(signedIn, request, Responded(errors1, data1), present, absent)
            == Operate(signedIn, request, Responded(errors2, data2), present, absent)
    ensures signedIn ==> Operate(signedIn, request, Responded(errors1, data1), present, absent).result
                         == Failure(Domain(InterpretError(errors1[0])))
  {
    CatchMappingPassesThrough(Domain(InterpretError(errors1[0])));
  }

  /** A failure thrown by the transport reaches the caller as the catch block
      maps it: an authorization rejection as AuthenticationException and an
      Apollo failure as FailedException, each with the original as cause;
      cancellations and exceptions of the taxonomy unchanged; anything else
      wrapped in UnknownException. */
  lemma ThrownFailureMapping<D, V>(request: Request, e: Throwable, present: D -> V, absent: Result<V, Throwable>)
    ensures var r := Operate(true, request, Threw(e), present, absent).result;
            && (e.NotAuthorizedException? ==> r == Failure(Domain(Raised(AuthenticationException, cause := Some(e)))))
            && (e.ApolloException? ==> r == Failure(Domain(Raised(FailedException, cause := Some(e)))))
            && (e.CancellationException? || e.Domain? ==> r == Failure(e))
            && (e.OtherThrowable? ==> r == Failure(Domain(UnknownException(e))))
  {
    CatchMappingPassesThrough(e);
  }

  /** The method strings the client sends are wire values of the
      verification-method enumeration and decode to the intended members. */
  lemma SentMethodsAreWireValues()
    ensures KNOWLEDGE_OF_PII_METHOD == VerificationMethod.KNOWLEDGE_OF_PII.Type()
    ensures GOVERNMENT_ID_METHOD == VerificationMethod.GOVERNMENT_ID.Type()
    ensures ToVerificationMethod(KNOWLEDGE_OF_PII_METHOD) == VerificationMethod.KNOWLEDGE_OF_PII
    ensures ToVerificationMethod(GOVERNMENT_ID_METHOD) == VerificationMethod.GOVERNMENT_ID
  {
    VerificationMethods.RoundTrip(VerificationMethod.KNOWLEDGE_OF_PII);
    VerificationMethods.RoundTrip(VerificationMethod.GOVERNMENT_ID);
  }
}
