/** The pure parts of src/utils/api.ts: default and per-call headers, the
    request interceptor, and the response interceptor that ends the session
    on 401. */
module UtilsApi {
  import opened Wrappers
  import opened LocalStorage
  import opened HttpClient
  import Text

  const Accept: string := "Accept"
  const LoginPath: string := "/login"

  /** The instance's default headers. */
  const DefaultHeaders: Headers := map[ContentType := Json, Accept := Json]

  /** The wrapper's calls. */
  datatype Call =
    | GetTasks
    | CreateTask
    | UpdateTask(id: string)
    | DeleteTask(id: string)
    | Login
    | Register
    | GetCurrentUser

  /** The calls that send multipart bodies and so drop the JSON content type
      to let the browser set its own with the boundary. */
  predicate IsMultipart(c: Call) {
    c.CreateTask? || c.UpdateTask?
  }

  /** The headers a call leaves with: the call's own override, then the
      bearer header from the interceptor. */
  function CallHeaders(c: Call, st: Store): (h: Headers)
    ensures ContentType in h <==> !IsMultipart(c)
    ensures ContentType in h ==> h[ContentType] == Json
    ensures Accept in h && h[Accept] == Json
    ensures Authorization in h <==> Text.Truthy(GetItem(st, TokenKey))
    ensures Authorization in h ==> h[Authorization] == "Bearer " + st[TokenKey]
    ensures h.Keys <= {ContentType, Accept, Authorization}
  {
    var base := if IsMultipart(c) then DefaultHeaders - {ContentType} else DefaultHeaders;
    BearerIffToken(base, st);
    AttachBearer(base, st)
  }

  /** The outcome of the response interceptor. */
  datatype Handled<R> = Handled(result: Result<R, string>, storage: Store, redirect: Option<string>)

  /** The response interceptor: a response passes through; an error with
      status 401 clears the stored token and user and sends the browser to
      the login page; every error is rejected with its normalised message. */
  function HandleReply<R>(reply: Reply<R>, st: Store): (h: Handled<R>)
    ensures reply.Ok? ==> h == Handled(Success(reply.response), st, None)
    ensures reply.Err? ==> h.result == Failure(ErrorMessage(reply.error)) && h.result.error != ""
    ensures IsUnauthorized(reply) ==>
      h.redirect == Some(LoginPath)
      && GetItem(h.storage, TokenKey).None? && GetItem(h.storage, UserKey).None?
      && forall k :: k != TokenKey && k != UserKey ==> GetItem(h.storage, k) == GetItem(st, k)
    ensures !IsUnauthorized(reply) ==> h.storage == st && h.redirect.None?
  {
    match reply
    case Ok(resp) => Handled(Success(resp), st, None)
    case Err(e) =>
      var st' := if IsUnauthorized(reply) then RemoveItem(RemoveItem(st, TokenKey), UserKey) else st;
      var redirect := if IsUnauthorized(reply) then Some(LoginPath) else None;
      Handled(Failure(ErrorMessage(e)), st', redirect)
  }

  /** `error.response?.status === 401`. */
  predicate IsUnauthorized<R>(reply: Reply<R>) {
    reply.Err? && reply.error.response.Some? && reply.error.response.value.status == 401
  }

  /** After a 401 the next request of any kind goes out without a bearer
      header. */
  lemma NoBearerAfterUnauthorized<R>(reply: Reply<R>, st: Store, next: Call)
    requires IsUnauthorized(reply)
    ensures Authorization !in CallHeaders(next, HandleReply(reply, st).storage)
  {
  }
}
