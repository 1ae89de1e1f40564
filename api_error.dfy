/** `APIError` (Utilities/APIError.swift): the business-level error of an
    envelope, made of an optional code and an optional message. */
module ApiErrors {
  import opened Types

  /** The error's whole content is these two optional fields. */
  datatype APIError = APIError(code: Option<int>, messageResponse: Option<string>)

  /** `APIError.init(code:messageResponse:)`; both arguments default to nil. */
  function Make(code: Option<int> := None, messageResponse: Option<string> := None): (e: APIError)
    ensures e.code == code && e.messageResponse == messageResponse
  {
    APIError(code, messageResponse)
  }

  /** `APIError.defaultError()`: the error for an envelope that carries no code. */
  function DefaultError(): (e: APIError)
    ensures e.code.None? && e.messageResponse.None?
  {
    Make(None, None)
  }

  /** `init()` with its default arguments builds exactly `defaultError()`. */
  lemma InitDefaultsIsDefaultError()
    ensures Make() == DefaultError()
  {
  }

  /** Two errors are equal exactly when both fields are. */
  lemma ErrorIsItsTwoFields(a: APIError, b: APIError)
    ensures a == b <==> (a.code == b.code && a.messageResponse == b.messageResponse)
  {
  }
}
