/** The response envelope, its pagination block and the status codes the
    back end uses (Utilities/Response.swift). */
module Responses {
  import opened Types
  import opened ApiErrors

  /** `StatusCode`, an enum with `Int` raw values (`success`, `authError`,
      `emptyAccessKey`, `wrongAccessKey`). */
  datatype StatusCode = SuccessCode | AuthErrorCode | EmptyAccessKeyCode | WrongAccessKeyCode {
    function RawValue(): int {
      match this
      case SuccessCode => 200
      case AuthErrorCode => 400
      case EmptyAccessKeyCode => 3005
      case WrongAccessKeyCode => 3006
    }
  }

  /** `StatusCode(rawValue:)`, the failable initialiser Swift derives for the enum. */
  function StatusCodeFromRaw(raw: int): (s: Option<StatusCode>)
    ensures s.Some? ==> s.value.RawValue() == raw
  {
    if raw == 200 then Some(SuccessCode)
    else if raw == 400 then Some(AuthErrorCode)
    else if raw == 3005 then Some(EmptyAccessKeyCode)
    else if raw == 3006 then Some(WrongAccessKeyCode)
    else None
  }

  /** The raw values are 200, 400, 3005 and 3006, pairwise distinct, and
      `rawValue` and `init(rawValue:)` are inverse to each other. */
  lemma StatusCodeRawValues(s: StatusCode, t: StatusCode, raw: int)
    ensures s.RawValue() in {200, 400, 3005, 3006}
    ensures s.RawValue() == t.RawValue() ==> s == t
    ensures StatusCodeFromRaw(s.RawValue()) == Some(s)
    ensures StatusCodeFromRaw(raw).None? <==> raw !in {200, 400, 3005, 3006}
  {
  }

  /** `Pagination`. */
  datatype Pagination = Pagination(currentPage: Option<int>, perPage: Option<int>,
                                   total: Option<int>, totalPage: Option<int>)
  {
    /** `canLoadMore`: a missing page number counts as 0. */
    function CanLoadMore(): (b: bool)
      ensures b <==> currentPage.GetOr(0) < totalPage.GetOr(0)
      ensures currentPage.None? && totalPage.None? ==> !b
    {
      currentPage.GetOr(0) < totalPage.GetOr(0)
    }

    /** `nextPage`: one past the current page, nil when that is unknown. */
    function NextPage(): (n: Option<int>)
      ensures n.None? <==> currentPage.None?
      ensures n.Some? ==> n.value == currentPage.value + 1
    {
      match currentPage
      case None => None
      case Some(current) => Some(current + 1)
    }
  }

  /** `Response<T>`, the decoded envelope `{message, code, data}`. */
  datatype Response<T> = Response(message: Option<string>, code: Option<int>, data: Option<T>) {

    /** `error`: declared optional, but always an error with the envelope's code and message. */
    function Error(): (e: Option<APIError>)
      ensures e.Some?
      ensures e.value.code == code && e.value.messageResponse == message
    {
      Some(Make(code, message))
    }
  }
}
