/** The pure parts of src/services/api.ts: default headers, the request and
    response interceptors, and `authAPI.logout`. */
module ServicesApi {
  import opened Wrappers
  import opened LocalStorage
  import opened HttpClient
  import Text

  /** The instance's default headers. */
  const DefaultHeaders: Headers := map[ContentType := Json]

  /** The headers every request leaves with: JSON content type, plus the
      bearer header exactly when a truthy token is stored. */
  function RequestHeaders(st: Store): (h: Headers)
    ensures ContentType in h && h[ContentType] == Json
    ensures Authorization in h <==> Text.Truthy(GetItem(st, TokenKey))
    ensures Authorization in h ==> h[Authorization] == "Bearer " + st[TokenKey]
    ensures h.Keys <= {ContentType, Authorization}
  {
    BearerIffToken(DefaultHeaders, st);
    AttachBearer(DefaultHeaders, st)
  }

  /** The response interceptor: a response passes through untouched; an
      error is rejected with its normalised, never empty, message. */
  function HandleReply<R>(reply: Reply<R>): (r: Result<R, string>)
    ensures reply.Ok? ==> r == Success(reply.response)
    ensures reply.Err? ==> r.Failure? && r.error == ErrorMessage(reply.error) && r.error != ""
  {
    match reply
    case Ok(resp) => Success(resp)
    case Err(e) => Failure(ErrorMessage(e))
  }

  /** `authAPI.logout`: the stored token is removed and nothing else. */
  function Logout(st: Store): (r: Store)
    ensures GetItem(r, TokenKey).None?
    ensures forall k :: k != TokenKey ==> GetItem(r, k) == GetItem(st, k)
  {
    RemoveItem(st, TokenKey)
  }

  /** After logout, requests go out without a bearer header. */
  lemma NoBearerAfterLogout(st: Store)
    ensures Authorization !in RequestHeaders(Logout(st))
  {
  }
}
