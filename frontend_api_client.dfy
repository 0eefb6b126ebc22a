/** The frontend's `ApiClient` (frontend/src/utils/api/apiClient.ts): an
    in-memory bearer-token store, the header builder used by every verb, and
    the response classifier that hands 401s to a registered callback.  The
    network is a parameter: each verb takes the response the server sends to
    the one request it issues. */
module FrontendApiClient {
  import opened Common

  /** What can sit in the `onUnauthorized` slot once something is registered:
      the refresh trigger of the auth provider, or the no-op left behind on
      unmount. */
  datatype Handler = Rehydrate | NoOp

  type Headers = map<string, string>

  /** One HTTP exchange as seen by the client: the status and the body text. */
  datatype Response = Response(status: int, text: string)

  /** A request as handed to `fetch`; every verb sends credentials (cookies). */
  datatype Request = Request(verb: string, path: string, headers: Headers, body: Option<string>)

  /** How a call settles: with the parsed body, or rejected with an error message. */
  datatype Outcome = Resolved(body: string) | Rejected(message: string)

  /** The settled outcome, plus the handler that was called (not awaited) on the way. */
  datatype Handled = Handled(outcome: Outcome, fired: Option<Handler>)

  const ContentType: string := "application/json"

  /** `Response.ok`: a status in the 2xx range. */
  predicate IsOk(res: Response) {
    200 <= res.status <= 299
  }

  /** A token is sent by `getHeaders` only when it is truthy: present and non-empty. */
  predicate Truthy(token: Option<string>) {
    token.Some? && token.value != ""
  }

  /** How a template literal renders the token: `null` prints as "null". */
  function TokenText(token: Option<string>): (s: string)
    ensures token.Some? ==> s == token.value
    ensures token.None? ==> s == "null"
  {
    match token
    case None => "null"
    case Some(t) => t
  }

  /** `getHeaders()` for a given stored token. */
  function HeadersFor(token: Option<string>): (h: Headers)
    ensures "Content-Type" in h && h["Content-Type"] == ContentType
    ensures "Authorization" in h <==> Truthy(token)
    ensures "Authorization" in h ==> h["Authorization"] == "Bearer " + token.value
    ensures h.Keys <= {"Content-Type", "Authorization"}
  {
    var base := map["Content-Type" := ContentType];
    if Truthy(token) then base["Authorization" := "Bearer " + token.value] else base
  }

  /** The literal header object that `get` builds instead of calling `getHeaders`. */
  function GetHeadersFor(token: Option<string>): (h: Headers)
    ensures "Content-Type" in h && h["Content-Type"] == ContentType
    ensures "Authorization" in h
    ensures token.None? ==> h["Authorization"] == "Bearer null"
    ensures Truthy(token) ==> h == HeadersFor(token)
    ensures !Truthy(token) ==> h != HeadersFor(token)
  {
    map["Content-Type" := ContentType, "Authorization" := "Bearer " + TokenText(token)]
  }

  /** `handleResponse(res, stepName)` for a given handler slot. */
  function Classify(handler: Option<Handler>, res: Response, stepName: string): (r: Handled)
    ensures r.outcome.Resolved? <==> IsOk(res)
    ensures IsOk(res) ==> r == Handled(Resolved(res.text), None)
    ensures r.fired.Some? <==> res.status == 401 && handler.Some?
    ensures r.fired.Some? ==> r.fired == handler && r.outcome == Rejected("Unauthorized")
    ensures !IsOk(res) && r.fired.None? ==> r.outcome == Rejected(stepName + " failed: " + res.text)
  {
    if !IsOk(res) then
      if res.status == 401 && handler.Some? then Handled(Rejected("Unauthorized"), handler)
      else Handled(Rejected(stepName + " failed: " + res.text), None)
    else Handled(Resolved(res.text), None)
  }

  class ApiClient {
    var token: Option<string>
    var onUnauthorized: Option<Handler>

    /** Both slots start out null. */
    constructor ()
      ensures token == None && onUnauthorized == None
    {
      token := None;
      onUnauthorized := None;
    }

    /** Replaces the stored token wholesale; nothing else changes. */
    method SetToken(t: Option<string>)
      modifies this
      ensures token == t && onUnauthorized == old(onUnauthorized)
    {
      token := t;
    }

    method SetOnUnauthorized(h: Handler)
      modifies this
      ensures onUnauthorized == Some(h) && token == old(token)
    {
      onUnauthorized := Some(h);
    }

    function Headers(): (h: Headers)
      reads this
      ensures h == HeadersFor(token)
    {
      HeadersFor(token)
    }

    function HandleResponse(res: Response, stepName: string): (r: Handled)
      reads this
      ensures r == Classify(onUnauthorized, res, stepName)
    {
      Classify(onUnauthorized, res, stepName)
    }

    /** `get(path)`: always sends `Authorization: Bearer <token>`, even with no
        token; exactly one request is issued and its response is final. */
    method Get(path: string, res: Response) returns (sent: Request, result: Handled)
      ensures sent.verb == "GET" && sent.path == path && sent.body.None?
      ensures "Authorization" in sent.headers
      ensures sent.headers["Authorization"] == "Bearer " + TokenText(token)
      ensures "Content-Type" in sent.headers && sent.headers["Content-Type"] == ContentType
      ensures result == Classify(onUnauthorized, res, "GET " + path)
    {
      sent := Request("GET", path, GetHeadersFor(token), None);
      result := HandleResponse(res, "GET " + path);
    }

    /** `post(path, body)`: the headers are `getHeaders()`. */
    method Post(path: string, body: string, res: Response) returns (sent: Request, result: Handled)
      ensures sent == Request("POST", path, HeadersFor(token), Some(body))
      ensures result == Classify(onUnauthorized, res, "POST " + path)
    {
      sent := Request("POST", path, Headers(), Some(body));
      result := HandleResponse(res, "POST " + path);
    }

    method Put(path: string, body: string, res: Response) returns (sent: Request, result: Handled)
      ensures sent == Request("PUT", path, HeadersFor(token), Some(body))
      ensures result == Classify(onUnauthorized, res, "PUT " + path)
    {
      sent := Request("PUT", path, Headers(), Some(body));
      result := HandleResponse(res, "PUT " + path);
    }

    method Delete(path: string, res: Response) returns (sent: Request, result: Handled)
      ensures sent == Request("DELETE", path, HeadersFor(token), None)
      ensures result == Classify(onUnauthorized, res, "DELETE " + path)
    {
      sent := Request("DELETE", path, Headers(), None);
      result := HandleResponse(res, "DELETE " + path);
    }
  }

  /** Setting the same token twice leaves later headers as after the first call. */
  method SetTokenTwice(c: ApiClient, t: Option<string>)
    modifies c
    ensures c.Headers() == HeadersFor(t) && c.onUnauthorized == old(c.onUnauthorized)
  {
    c.SetToken(t);
    var once := c.Headers();
    c.SetToken(t);
    assert c.Headers() == once;
  }

  /** A fresh client has no handler, so a 401 takes the generic error path. */
  method FreshClient401(path: string, text: string) returns (result: Handled)
    ensures result == Handled(Rejected("POST " + path + " failed: " + text), None)
  {
    var c := new ApiClient();
    var _, r := c.Post(path, "{}", Response(401, text));
    result := r;
  }
}
