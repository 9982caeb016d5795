/** How the client turns failures into exceptions of the taxonomy: the
    classifier of structured error items a response carries, the classifier
    of thrown failures, and the mapping every operation's catch block applies. */
module ErrorClassifier {
  import opened Wrappers
  import opened Strings
  import opened Exceptions

  const SERVER_ERROR: string := "ServerError"
  const SERVICE_ERROR: string := "ServiceError"
  const ERROR_RECORD_NOT_FOUND: string := "IdentityVerificationRecordNotFoundError"
  const ERROR_UPDATE_FAILED: string := "IdentityVerificationUpdateFailedError"
  const ERROR_UNSUPPORTED_VERIFICATION_METHOD: string := "UnsupportedVerificationMethodError"
  const ERROR_IMPLAUSIBLE_AGE: string := "ImplausibleAgeError"
  const ERROR_INVALID_AGE: string := "InvalidAgeError"
  const ERROR_UNSUPPORTED_COUNTRY: string := "UnsupportedCountryError"
  const ERROR_UNSUPPORTED_NETWORK_LOCATION: string := "UnsupportedNetworkLocationError"
  const ERROR_REQUIRED_IDENTITY_INFORMATION_NOT_PROVIDED: string := "RequiredIdentityInformationNotProvidedError"

  /** A GraphQL error item, as far as the classifier looks at it: its
      `errorType` custom attribute in string form, if present, and the item's
      own string form. */
  datatype ErrorItem = ErrorItem(errorType: Option<string>, text: string)

  /** The error type the classifier inspects; an absent attribute reads as "". */
  function ErrorTypeOf(e: ErrorItem): (r: string)
    ensures e.errorType.None? ==> r == ""
  {
    e.errorType.GetOr("")
  }

  /** `interpretSudoIdentityVerificationError` */
  function InterpretError(e: ErrorItem): (r: SudoIdentityVerificationException)
    ensures r.Raised? && r.cause.None?
    ensures r.variant == FailedException ==> r.message == Some(e.text)
    ensures r.variant != FailedException ==> r.message == Some(ErrorTypeOf(e))
  {
    var error := ErrorTypeOf(e);
    if Contains(error, SERVER_ERROR) || Contains(error, SERVICE_ERROR) then
      Raised(InternalServerException, message := Some(error))
    else if Contains(error, ERROR_RECORD_NOT_FOUND) then
      Raised(IdentityVerificationRecordNotFoundException, message := Some(error))
    else if Contains(error, ERROR_UPDATE_FAILED) then
      Raised(IdentityVerificationUpdateFailedException, message := Some(error))
    else if Contains(error, ERROR_UNSUPPORTED_VERIFICATION_METHOD) then
      Raised(UnsupportedVerificationMethodException, message := Some(error))
    else if Contains(error, ERROR_IMPLAUSIBLE_AGE) then
      Raised(ImplausibleAgeException, message := Some(error))
    else if Contains(error, ERROR_INVALID_AGE) then
      Raised(InvalidAgeException, message := Some(error))
    else if Contains(error, ERROR_UNSUPPORTED_COUNTRY) then
      Raised(UnsupportedCountryException, message := Some(error))
    else if Contains(error, ERROR_UNSUPPORTED_NETWORK_LOCATION) then
      Raised(UnsupportedNetworkLocationException, message := Some(error))
    else if Contains(error, ERROR_REQUIRED_IDENTITY_INFORMATION_NOT_PROVIDED) then
      Raised(RequiredIdentityInformationNotProvidedException, message := Some(error))
    else
      Raised(FailedException, message := Some(e.text))
  }

  /** The marker catalogue as a table, in the order the classifier tests it. */
  const MARKERS: seq<(string, Variant)> := [
    (SERVER_ERROR, InternalServerException),
    (SERVICE_ERROR, InternalServerException),
    (ERROR_RECORD_NOT_FOUND, IdentityVerificationRecordNotFoundException),
    (ERROR_UPDATE_FAILED, IdentityVerificationUpdateFailedException),
    (ERROR_UNSUPPORTED_VERIFICATION_METHOD, UnsupportedVerificationMethodException),
    (ERROR_IMPLAUSIBLE_AGE, ImplausibleAgeException),
    (ERROR_INVALID_AGE, InvalidAgeException),
    (ERROR_UNSUPPORTED_COUNTRY, UnsupportedCountryException),
    (ERROR_UNSUPPORTED_NETWORK_LOCATION, UnsupportedNetworkLocationException),
    (ERROR_REQUIRED_IDENTITY_INFORMATION_NOT_PROVIDED, RequiredIdentityInformationNotProvidedException)]

  /** Index of the first table entry, from `from` on, whose marker occurs in
      `error`; `|table|` when there is none. */
  function FirstMarkerIndex(error: string, table: seq<(string, Variant)>, from: nat): (k: nat)
    requires from <= |table|
    ensures from <= k <= |table|
    ensures k < |table| ==> Contains(error, table[k].0)
    ensures forall j :: from <= j < k ==> !Contains(error, table[j].0)
    decreases |table| - from
  {
    if from == |table| then from
    else if Contains(error, table[from].0) then from
    else FirstMarkerIndex(error, table, from + 1)
  }

  /** The reference classifier: the variant of the first catalogue entry whose
      marker occurs in the error type, with the error type as message, and
      FailedException with the item's string form otherwise. */
  function ClassifyByTable(e: ErrorItem): (r: SudoIdentityVerificationException)
    ensures r.Raised? && r.cause.None?
  {
    var error := ErrorTypeOf(e);
    var k := FirstMarkerIndex(error, MARKERS, 0);
    if k < |MARKERS| then Raised(MARKERS[k].1, message := Some(error))
    else Raised(FailedException, message := Some(e.text))
  }

  /** The if/else-if chain is the first-match-wins table lookup. */
  lemma InterpretErrorIsFirstMatch(e: ErrorItem)
    ensures InterpretError(e) == ClassifyByTable(e)
  {
    var error := ErrorTypeOf(e);
    var k := FirstMarkerIndex(error, MARKERS, 0);
    assert MARKERS[0] == (SERVER_ERROR, InternalServerException);
    assert MARKERS[1] == (SERVICE_ERROR, InternalServerException);
    assert MARKERS[2] == (ERROR_RECORD_NOT_FOUND, IdentityVerificationRecordNotFoundException);
    assert MARKERS[3] == (ERROR_UPDATE_FAILED, IdentityVerificationUpdateFailedException);
    assert MARKERS[4] == (ERROR_UNSUPPORTED_VERIFICATION_METHOD, UnsupportedVerificationMethodException);
    assert MARKERS[5] == (ERROR_IMPLAUSIBLE_AGE, ImplausibleAgeException);
    assert MARKERS[6] == (ERROR_INVALID_AGE, InvalidAgeException);
    assert MARKERS[7] == (ERROR_UNSUPPORTED_COUNTRY, UnsupportedCountryException);
    assert MARKERS[8] == (ERROR_UNSUPPORTED_NETWORK_LOCATION, UnsupportedNetworkLocationException);
    assert MARKERS[9] == (ERROR_REQUIRED_IDENTITY_INFORMATION_NOT_PROVIDED, RequiredIdentityInformationNotProvidedException);
    assert |MARKERS| == 10;
  }

  /** The entry that decides: when the marker of entry `k` occurs in the error
      type and no earlier marker does, the result is entry `k`'s variant with
      the full error type, whatever surrounds the marker, as its message. */
  lemma FirstOccurringMarkerDecides(e: ErrorItem, k: nat)
    requires k < |MARKERS|
    requires Contains(ErrorTypeOf(e), MARKERS[k].0)
    requires forall j :: 0 <= j < k ==> !Contains(ErrorTypeOf(e), MARKERS[j].0)
    ensures InterpretError(e) == Raised(MARKERS[k].1, message := Some(ErrorTypeOf(e)))
  {
    InterpretErrorIsFirstMatch(e);
    var f := FirstMarkerIndex(ErrorTypeOf(e), MARKERS, 0);
    assert f == k;
  }

  /** An error type containing "ServerError" or "ServiceError" anywhere gives
      InternalServerException, even when other markers occur as well. */
  lemma ServerFamilyTakesPrecedence(prefix: string, suffix: string, text: string)
    ensures InterpretError(ErrorItem(Some(prefix + SERVER_ERROR + suffix), text))
            == Raised(InternalServerException, message := Some(prefix + SERVER_ERROR + suffix))
    ensures InterpretError(ErrorItem(Some(prefix + SERVICE_ERROR + suffix), text))
            == Raised(InternalServerException, message := Some(prefix + SERVICE_ERROR + suffix))
  {
    ContainsInContext(prefix, SERVER_ERROR, suffix);
    ContainsInContext(prefix, SERVICE_ERROR, suffix);
  }

  /** When no marker occurs, in particular when the attribute is absent, the
      result is FailedException carrying the item's string form, not the
      error type. */
  lemma UnmarkedErrorFails(e: ErrorItem)
    requires forall k :: 0 <= k < |MARKERS| ==> !Contains(ErrorTypeOf(e), MARKERS[k].0)
    ensures InterpretError(e) == Raised(FailedException, message := Some(e.text))
  {
    InterpretErrorIsFirstMatch(e);
  }

  lemma AbsentErrorTypeFails(text: string)
    ensures InterpretError(ErrorItem(None, text)) == Raised(FailedException, message := Some(text))
  {
    UnmarkedErrorFails(ErrorItem(None, text));
  }

  /** A character of marker `j` that the later, no longer markers lack. */
  function Distinguisher(j: nat): (c: char) {
    if j <= 1 then 'S'
    else if j <= 3 then 'V'
    else if j == 4 then 'M'
    else if j == 5 then 'g'
    else if j == 6 then 'A'
    else if j == 7 then 'C'
    else 'U'
  }

  /** The distinguishing characters that marker `k` lacks. */
  function Avoided(k: nat): (chars: string) {
    if k <= 6 then "S"
    else if k == 7 then "SgA"
    else if k == 8 then "SgAC"
    else "SVMgACU"
  }

  lemma DistinguishersOccur()
    ensures forall j :: 0 <= j < 9 ==> Distinguisher(j) in MARKERS[j].0
  {
  }

  lemma MiddleMarkersAvoidS()
    ensures AvoidsAll(ERROR_RECORD_NOT_FOUND, "S") && AvoidsAll(ERROR_UPDATE_FAILED, "S")
    ensures AvoidsAll(ERROR_UNSUPPORTED_VERIFICATION_METHOD, "S")
    ensures AvoidsAll(ERROR_IMPLAUSIBLE_AGE, "S") && AvoidsAll(ERROR_INVALID_AGE, "S")
  {
  }

  lemma LateMarkersAvoid()
    ensures AvoidsAll(ERROR_UNSUPPORTED_COUNTRY, "SgA")
    ensures AvoidsAll(ERROR_UNSUPPORTED_NETWORK_LOCATION, "SgAC")
  {
  }

  lemma LastMarkerAvoids()
    ensures AvoidsAll(ERROR_REQUIRED_IDENTITY_INFORMATION_NOT_PROVIDED, "SVMgACU")
  {
  }

  lemma MarkerAvoids(k: nat)
    requires 2 <= k < |MARKERS|
    ensures AvoidsAll(MARKERS[k].0, Avoided(k))
  {
    MiddleMarkersAvoidS();
    LateMarkersAvoid();
    LastMarkerAvoids();
  }

  /** No marker occurs in a later catalogue entry's marker, apart from the two
      markers of the server-error family, which lead to the same variant: an
      earlier marker either holds a character the later one lacks or is
      longer than it. */
  lemma NoMarkerShadowsALaterOne(j: nat, k: nat)
    requires 2 <= k < |MARKERS| && j < k
    ensures !Contains(MARKERS[k].0, MARKERS[j].0)
  {
    var s, t := MARKERS[k].0, MARKERS[j].0;
    if Distinguisher(j) in Avoided(k) {
      DistinguishersOccur();
      MarkerAvoids(k);
      AvoidedNotContained(s, t, Avoided(k), Distinguisher(j));
    } else {
      LongerNotContained(s, t);
    }
  }

  /** No entry of the catalogue is dead: an error type that is exactly the
      marker of entry `k` yields entry `k`'s variant, with the error type as
      message. */
  lemma EveryMarkerIsReachable(e: ErrorItem, k: nat)
    requires k < |MARKERS|
    requires e.errorType == Some(MARKERS[k].0)
    ensures InterpretError(e) == Raised(MARKERS[k].1, message := Some(MARKERS[k].0))
  {
    var error := ErrorTypeOf(e);
    ContainsInContext("", error, "");
    assert "" + error + "" == error;
    if k <= 1 {
      assert Contains(error, SERVER_ERROR) || Contains(error, SERVICE_ERROR);
    } else {
      forall j | 0 <= j < k ensures !Contains(error, MARKERS[j].0) {
        NoMarkerShadowsALaterOne(j, k);
      }
      FirstOccurringMarkerDecides(e, k);
    }
  }

  /** An error item whose error type is "UnsupportedCountryError" is
      classified as UnsupportedCountryException with that error type as its
      message. */
  lemma UnsupportedCountryScenario(e: ErrorItem)
    requires e.errorType == Some(ERROR_UNSUPPORTED_COUNTRY)
    ensures InterpretError(e) == Raised(UnsupportedCountryException, message := Some(ERROR_UNSUPPORTED_COUNTRY))
  {
    EveryMarkerIsReachable(e, 7);
  }

  /** `interpretSudoIdentityVerificationException`: cancellations and the
      client's own exceptions pass through unchanged; anything else becomes
      UnknownException wrapping it. */
  function InterpretException(e: Throwable): (r: Throwable)
    ensures r.CancellationException? || r.Domain?
    ensures r == e <==> (e.CancellationException? || e.Domain?)
    ensures r != e ==> r == Domain(UnknownException(e))
  {
    match e
    case CancellationException(_) => e
    case Domain(_) => e
    case _ => Domain(UnknownException(e))
  }

  /** Classifying a classified failure changes nothing. */
  lemma InterpretExceptionIdempotent(e: Throwable)
    ensures InterpretException(InterpretException(e)) == InterpretException(e)
  {
  }

  /** The `when` of every operation's catch block. */
  function CatchMapping(e: Throwable): (r: Throwable)
    ensures r.CancellationException? || r.Domain?
    ensures e.NotAuthorizedException? ==> r == Domain(Raised(AuthenticationException, cause := Some(e)))
    ensures e.ApolloException? ==> r == Domain(Raised(FailedException, cause := Some(e)))
    ensures !e.NotAuthorizedException? && !e.ApolloException? ==> r == InterpretException(e)
  {
    match e
    case NotAuthorizedException(_) => Domain(Raised(AuthenticationException, cause := Some(e)))
    case ApolloException(_) => Domain(Raised(FailedException, cause := Some(e)))
    case _ => InterpretException(e)
  }

  /** Exceptions of the taxonomy, whether classified response errors or
      thrown by the operation itself, leave the catch block unchanged, and so
      do cancellations; so the mapping is idempotent. */
  lemma CatchMappingPassesThrough(e: Throwable)
    ensures e.Domain? || e.CancellationException? ==> CatchMapping(e) == e
    ensures CatchMapping(CatchMapping(e)) == CatchMapping(e)
    ensures e.OtherThrowable? ==> CatchMapping(e) == Domain(UnknownException(e))
  {
  }
}
