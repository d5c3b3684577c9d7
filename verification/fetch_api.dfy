/**
 * The HTTP wrapper every API call goes through (lib/api/fetchApi): turns a
 * response into a returned body or a thrown error, and attaches the stored
 * access token as a bearer header.
 */
module FetchApi {
  import opened Wrappers
  import opened JsValues
  import opened ErrorMessages

  /** A response body: either JSON or something `res.json()` rejects. */
  datatype Body = Unparseable | Parsed(data: JsValue)

  datatype Response = Response(ok: bool, statusText: string, body: Body)

  /** What awaiting `fetchApi` yields: a value, or a thrown value. */
  datatype Outcome = Returned(value: JsValue) | Thrown(error: JsValue)

  /** The backend's structured error body: `data && typeof data === "object" && "userMessage" in data && "message" in data`. */
  predicate IsStructuredError(data: JsValue) {
    Truthy(data) && IsObject(data) && HasKey(data, "userMessage") && HasKey(data, "message")
  }

  /** `a || b`. */
  function Or(a: JsValue, b: JsValue): (r: JsValue)
    ensures Truthy(r) <==> Truthy(a) || Truthy(b)
    ensures Truthy(a) ==> r == a
  {
    if Truthy(a) then a else b
  }

  /** The argument of `new Error(...)` for an unstructured failure: `data?.message || res.statusText || "API Error"`. */
  function FailureArgument(data: JsValue, statusText: string): (r: JsValue)
    ensures Truthy(r)
  {
    Or(OptGet(data, "message"), Or(Str(statusText), Str("API Error")))
  }

  /** `fetchApi` after the response has arrived. */
  function FetchApi(res: Response): (o: Outcome)
    ensures o.Returned? <==> res.ok
    ensures res.ok && res.body.Unparseable? ==> o.value == Obj(map[])
    ensures res.ok && res.body.Parsed? ==> o.value == res.body.data
    ensures !res.ok && res.body.Unparseable? ==>
      o.error == Err(if res.statusText != "" then res.statusText else "Unknown error", map[])
    ensures !res.ok && res.body.Parsed? && IsStructuredError(res.body.data) ==> o.error == res.body.data
    ensures !res.ok && res.body.Parsed? && !IsStructuredError(res.body.data) ==>
      o.error == NewError(FailureArgument(res.body.data, res.statusText))
  {
    match res.body
    case Unparseable =>
      if !res.ok then Thrown(NewError(Str(if res.statusText != "" then res.statusText else "Unknown error")))
      else Returned(Obj(map[]))
    case Parsed(data) =>
      if !res.ok then
        if IsStructuredError(data) then Thrown(data)
        else Thrown(NewError(FailureArgument(data, res.statusText)))
      else Returned(data)
  }

  /** Everything `fetchApi` throws carries a `message` key, so it passes `hasStringMessage`. */
  lemma ThrownHasMessage(res: Response)
    requires !res.ok
    ensures HasStringMessage(FetchApi(res).error)
  {
  }

  /**
   * What `getErrorMessage` shows for a failed call: the string `userMessage`
   * of a structured body, the fixed fallback when that `userMessage` is not
   * a string, and otherwise the first truthy of the body's `message`, the
   * status text and "API Error".
   */
  lemma FailureMessageShown(res: Response)
    requires !res.ok
    ensures res.body.Unparseable? ==>
      GetErrorMessage(FetchApi(res).error) == (if res.statusText != "" then res.statusText else "Unknown error")
    ensures res.body.Parsed? && res.body.data.Obj? && IsStructuredError(res.body.data) ==>
      GetErrorMessage(FetchApi(res).error) ==
        (if res.body.data.fields["userMessage"].Str? then res.body.data.fields["userMessage"].s else UnknownError)
    ensures res.body.Parsed? && !IsStructuredError(res.body.data) ==>
      GetErrorMessage(FetchApi(res).error) == ToDisplayString(FailureArgument(res.body.data, res.statusText))
  {
  }

  /** An unstructured failure never shows an empty message unless the body's `message` is an array. */
  lemma FailureMessageNonEmpty(res: Response)
    requires !res.ok
    requires res.body.Parsed? ==> !IsStructuredError(res.body.data) && !OptGet(res.body.data, "message").Arr?
    ensures GetErrorMessage(FetchApi(res).error) != ""
  {
    if res.body.Parsed? {
      var arg := FailureArgument(res.body.data, res.statusText);
      assert !arg.Arr?;
    }
  }

  /** Header names are stored lower-case, as the `Headers` class normalises them. */
  type Headers = map<string, string>

  const AuthorizationHeader := "authorization"

  /** `mergeHeaders`: `Authorization: Bearer ${authHeader}`, with an absent token spelled "undefined". */
  function MergeHeaders(h: Headers, authHeader: Option<string>): (r: Headers)
    ensures r.Keys == h.Keys + {AuthorizationHeader}
    ensures authHeader.Some? ==> r[AuthorizationHeader] == "Bearer " + authHeader.value
    ensures authHeader.None? ==> r[AuthorizationHeader] == "Bearer undefined"
    ensures forall k :: k in h && k != AuthorizationHeader ==> r[k] == h[k]
  {
    h[AuthorizationHeader := "Bearer " + authHeader.GetOr("undefined")]
  }

  /** `localStorage.getItem("accessToken")`. */
  function AccessToken(storage: map<string, string>): (t: Option<string>)
    ensures t.Some? <==> "accessToken" in storage
    ensures t.Some? ==> t.value == storage["accessToken"]
  {
    if "accessToken" in storage then Some(storage["accessToken"]) else None
  }

  /** `token || undefined`: an empty stored token counts as none. */
  function TruthyToken(t: Option<string>): (r: Option<string>)
    ensures r.Some? <==> t.Some? && t.value != ""
    ensures r.Some? ==> r.value == t.value
  {
    if t.Some? && t.value != "" then t else None
  }

  /** The `RequestInit` fields the client sets; `verb` is the HTTP method. */
  datatype RequestInit = RequestInit(verb: Option<string>, body: Option<string>, headers: Headers)

  datatype Request = Request(url: string, init: RequestInit)

  /** One round trip: the request that went out and what the caller got back. */
  datatype Exchange = Exchange(request: Request, outcome: Outcome)

  /**
   * `fetchApiWithAuth`: exactly one request, carrying the caller's method,
   * body and headers plus the bearer header; its outcome is `fetchApi`'s for
   * the server's response. Nothing is retried or refreshed.
   */
  function FetchApiWithAuth(storage: map<string, string>, url: string, init: RequestInit,
                            server: Request -> Response): (x: Exchange)
    ensures x.request.url == url
    ensures x.request.init.verb == init.verb && x.request.init.body == init.body
    ensures x.request.init.headers.Keys == init.headers.Keys + {AuthorizationHeader}
    ensures forall k :: k in init.headers && k != AuthorizationHeader ==>
      x.request.init.headers[k] == init.headers[k]
    ensures "accessToken" in storage && storage["accessToken"] != "" ==>
      x.request.init.headers[AuthorizationHeader] == "Bearer " + storage["accessToken"]
    ensures !("accessToken" in storage && storage["accessToken"] != "") ==>
      x.request.init.headers[AuthorizationHeader] == "Bearer undefined"
    ensures x.outcome == FetchApi(server(x.request))
  {
    var token := AccessToken(storage);
    var req := Request(url, init.(headers := MergeHeaders(init.headers, TruthyToken(token))));
    Exchange(req, FetchApi(server(req)))
  }
}
