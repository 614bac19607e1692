/** The interceptor logic both HTTP client wrappers share: the bearer header
    added to outgoing requests and the message an error is reduced to. */
module HttpClient {
  import opened Wrappers
  import opened LocalStorage
  import Text

  type Headers = map<string, string>

  const Authorization: string := "Authorization"
  const ContentType: string := "Content-Type"
  const Json: string := "application/json"

  /** The fallback when neither the server nor the transport says why. */
  const GenericError: string := "An error occurred"

  /** The request interceptor: when `localStorage.getItem('token')` is
      truthy (present and non-empty), `Authorization: Bearer <token>` is set;
      otherwise the headers pass unchanged. No other header is touched. */
  function AttachBearer(h: Headers, st: Store): (r: Headers)
    ensures Text.Truthy(GetItem(st, TokenKey)) ==>
      Authorization in r && r[Authorization] == "Bearer " + st[TokenKey]
    ensures !Text.Truthy(GetItem(st, TokenKey)) ==> r == h
    ensures forall k :: k != Authorization ==> (k in r <==> k in h)
    ensures forall k :: k != Authorization && k in h ==> r[k] == h[k]
  {
    var token := GetItem(st, TokenKey);
    if Text.Truthy(token) then h[Authorization := "Bearer " + token.value] else h
  }

  /** Headers that carry no `Authorization` get one exactly when a truthy
      token is stored. */
  lemma BearerIffToken(h: Headers, st: Store)
    requires Authorization !in h
    ensures Authorization in AttachBearer(h, st) <==> Text.Truthy(GetItem(st, TokenKey))
  {
  }

  /** `error.response`: the status and the `message` field of the body. */
  datatype ErrorResponse = ErrorResponse(status: int, dataMessage: Option<string>)

  /** A failed request: the response, if one arrived, and `error.message`. */
  datatype RequestError = RequestError(response: Option<ErrorResponse>, message: Option<string>)

  /** `error.response?.data?.message`. */
  function ServerMessage(e: RequestError): Option<string> {
    if e.response.Some? then e.response.value.dataMessage else None
  }

  /** `error.response?.data?.message || error.message || 'An error occurred'`:
      the first truthy of the three, so an empty server message falls
      through; the result is never empty. */
  function ErrorMessage(e: RequestError): (m: string)
    ensures m != ""
    ensures Text.Truthy(ServerMessage(e)) ==> m == ServerMessage(e).value
    ensures !Text.Truthy(ServerMessage(e)) && Text.Truthy(e.message) ==> m == e.message.value
    ensures !Text.Truthy(ServerMessage(e)) && !Text.Truthy(e.message) ==> m == GenericError
  {
    Text.Or(ServerMessage(e), Text.Or(e.message, GenericError))
  }

  /** Whatever the error carries, its message is one of its own non-empty
      messages or the generic one. */
  lemma ErrorMessageSource(e: RequestError)
    ensures ErrorMessage(e) == GenericError
      || (ServerMessage(e).Some? && ErrorMessage(e) == ServerMessage(e).value)
      || (e.message.Some? && ErrorMessage(e) == e.message.value)
  {
  }

  /** How a request settles: a response, or an error. */
  datatype Reply<R> = Ok(response: R) | Err(error: RequestError)
}
