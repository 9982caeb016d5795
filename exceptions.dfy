/** The closed exception taxonomy the client raises, and the throwables that
    can reach its catch blocks. */
module Exceptions {
  import opened Wrappers

  /** What the client's catch blocks can receive. Foreign exception classes
      are told apart only as far as the client looks at them. */
  datatype Throwable =
    | CancellationException(message: Option<string>)
    | NotAuthorizedException(message: Option<string>)
    | ApolloException(message: Option<string>)
    | Domain(exception: SudoIdentityVerificationException)
    | OtherThrowable(className: string, message: Option<string>)

  /** The subclasses of the sealed exception class that carry an optional
      message and an optional cause. */
  datatype Variant =
    | IdentityVerificationRecordNotFoundException
    | IdentityVerificationUpdateFailedException
    | UnsupportedVerificationMethodException
    | ImplausibleAgeException
    | InvalidAgeException
    | UnsupportedCountryException
    | UnsupportedNetworkLocationException
    | NotSignedInException
    | InternalServerException
    | FailedException
    | AuthenticationException
    | RequiredIdentityInformationNotProvidedException

  /** A `SudoIdentityVerificationException`: one of the variants above with
      its message and cause (both absent unless given), or the catch-all
      `UnknownException`, which always wraps a cause and has no message. */
  datatype SudoIdentityVerificationException =
    | Raised(variant: Variant, message: Option<string> := None, cause: Option<Throwable> := None)
    | UnknownException(wrapped: Throwable)
  {
    function Message(): (m: Option<string>)
      ensures UnknownException? ==> m.None?
      ensures Raised? ==> m == message
    {
      match this
      case Raised(_, msg, _) => msg
      case UnknownException(_) => None
    }

    function Cause(): (c: Option<Throwable>)
      ensures UnknownException? ==> c == Some(wrapped)
      ensures Raised? ==> c == cause
    {
      match this
      case Raised(_, _, cse) => cse
      case UnknownException(t) => Some(t)
    }
  }

  /** Every variant, in declaration order. */
  const VARIANTS: seq<Variant> := [
    IdentityVerificationRecordNotFoundException, IdentityVerificationUpdateFailedException,
    UnsupportedVerificationMethodException, ImplausibleAgeException, InvalidAgeException,
    UnsupportedCountryException, UnsupportedNetworkLocationException, NotSignedInException,
    InternalServerException, FailedException, AuthenticationException,
    RequiredIdentityInformationNotProvidedException]

  /** The taxonomy is closed: besides UnknownException there are exactly the
      twelve listed variants, and a variant built without arguments carries
      neither message nor cause. */
  lemma TaxonomyIsClosed(v: Variant)
    ensures |VARIANTS| == 12 && v in VARIANTS
    ensures forall i, j :: 0 <= i < j < |VARIANTS| ==> VARIANTS[i] != VARIANTS[j]
    ensures Raised(v).Message().None? && Raised(v).Cause().None?
  {
  }
}
