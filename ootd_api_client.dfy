/** The older client's `ApiClient` (my-ootd/src/utils/api/apiClient.ts): a token
    store and a header builder.  Both verbs hand back the parsed body of the
    one response they receive, whatever its status; JSON parsing is abstracted
    to the body text. */
module OotdApiClient {
  import opened Common
  import Shared = FrontendApiClient

  /** A request as handed to `fetch`. */
  datatype Request = Request(verb: string, path: string, headers: Shared.Headers, body: Option<string>)

  class ApiClient {
    var token: Option<string>

    constructor ()
      ensures token == None
    {
      token := None;
    }

    method SetToken(t: Option<string>)
      modifies this
      ensures token == t
    {
      token := t;
    }

    /** `getHeaders()`: the same rule as the newer client's. */
    function Headers(): (h: Shared.Headers)
      reads this
      ensures "Content-Type" in h && h["Content-Type"] == Shared.ContentType
      ensures "Authorization" in h <==> Shared.Truthy(token)
      ensures "Authorization" in h ==> h["Authorization"] == "Bearer " + token.value
    {
      Shared.HeadersFor(token)
    }

    /** `get(path)`: the body is returned for every status; there is no error branch. */
    method Get(path: string, res: Shared.Response) returns (sent: Request, body: string)
      ensures sent == Request("GET", path, Headers(), None)
      ensures body == res.text
    {
      sent := Request("GET", path, Headers(), None);
      body := res.text;
    }

    method Post(path: string, payload: string, res: Shared.Response) returns (sent: Request, body: string)
      ensures sent == Request("POST", path, Headers(), Some(payload))
      ensures body == res.text
    {
      sent := Request("POST", path, Headers(), Some(payload));
      body := res.text;
    }
  }

  /** `get` and `post` put the same headers on their requests, and an error
      status reaches the caller as an ordinary body. */
  method SameHeaders(c: ApiClient, path: string, payload: string, status: int, text: string)
      returns (g: Request, p: Request, gb: string, pb: string)
    ensures g.headers == p.headers == Shared.HeadersFor(c.token)
    ensures gb == pb == text
  {
    g, gb := c.Get(path, Shared.Response(status, text));
    p, pb := c.Post(path, payload, Shared.Response(status, text));
  }

  /** A fresh client sends no Authorization header until a token is set. */
  method FreshClientHeaders(t: string) returns (before: Shared.Headers, after: Shared.Headers)
    ensures "Authorization" !in before
    ensures t != "" ==> "Authorization" in after && after["Authorization"] == "Bearer " + t
    ensures t == "" ==> "Authorization" !in after
  {
    var c := new ApiClient();
    before := c.Headers();
    c.SetToken(Some(t));
    after := c.Headers();
  }
}
