/** The older `AuthProvider` (my-ootd/src/contexts/AuthContext.tsx).  Its effect
    re-runs whenever `pathname` or `hasCheckedRefresh` changes; while the check
    has not finished it reads `document.cookie` and, when a refresh cookie is
    named there, starts a refresh.  A refresh that settles later uses the
    pathname captured when its effect ran.  This variant never passes the
    token to the API client. */
module OotdAuth {
  import opened Common
  import Auth = FrontendAuth

  /** One refresh call started by the effect, and the pathname it captured. */
  datatype InFlight = InFlight(id: nat, pathname: string)

  /** The effect's side effects, in the order the code performs them. */
  datatype Effect =
    | AccessTokenState(token: Option<string>)
    | UserState(user: Option<Auth.User>)
    | Navigate(path: string)
    | CheckedRefresh

  /** `document.cookie.includes("refresh_token")`. */
  predicate HasRefreshCookie(cookie: string) {
    Contains(cookie, "refresh_token")
  }

  class AuthProvider {
    var user: Option<Auth.User>
    var accessToken: Option<string>
    var hasCheckedRefresh: bool
    var inFlight: seq<InFlight>
    var refreshCalls: nat

    constructor ()
      ensures user == None && accessToken == None && !hasCheckedRefresh
      ensures inFlight == [] && refreshCalls == 0
    {
      user, accessToken, hasCheckedRefresh := None, None, false;
      inFlight, refreshCalls := [], 0;
    }

    /** Children are rendered only once the check has finished. */
    function RendersChildren(): bool
      reads this
    {
      hasCheckedRefresh
    }

    /** One run of the effect with the current cookie string and pathname. */
    method RunEffect(cookie: string, pathname: string) returns (called: bool)
      modifies this
      ensures called <==> !old(hasCheckedRefresh) && HasRefreshCookie(cookie)
      ensures called ==> inFlight == old(inFlight) + [InFlight(old(refreshCalls), pathname)]
                         && refreshCalls == old(refreshCalls) + 1
      ensures !called ==> inFlight == old(inFlight) && refreshCalls == old(refreshCalls)
      ensures hasCheckedRefresh == (old(hasCheckedRefresh) || !HasRefreshCookie(cookie))
      ensures user == old(user) && accessToken == old(accessToken)
    {
      called := false;
      if hasCheckedRefresh {
        return;
      }
      if !HasRefreshCookie(cookie) {
        hasCheckedRefresh := true;
        return;
      }
      inFlight := inFlight + [InFlight(refreshCalls, pathname)];
      refreshCalls := refreshCalls + 1;
      called := true;
    }

    /** The refresh call at position `i` settles: success sets the token and the
        user, failure clears both and redirects unless the captured pathname is
        an authentication page; `finally` marks the check done. */
    method Settle(i: nat, ok: bool, data: Auth.RefreshData) returns (effects: seq<Effect>)
      requires i < |inFlight|
      modifies this
      ensures inFlight == old(inFlight[..i] + inFlight[i + 1..])
      ensures refreshCalls == old(refreshCalls) && hasCheckedRefresh
      ensures ok ==> accessToken == Some(data.accessToken) && user == data.user
      ensures ok ==> effects == [AccessTokenState(Some(data.accessToken)), UserState(data.user), CheckedRefresh]
      ensures !ok ==> accessToken == None && user == None
      ensures !ok ==> effects == [AccessTokenState(None), UserState(None)]
                                 + (if Auth.IsAuthPage(old(inFlight[i].pathname)) then [] else [Navigate("/login")])
                                 + [CheckedRefresh]
    {
      var path := inFlight[i].pathname;
      inFlight := inFlight[..i] + inFlight[i + 1..];
      if ok {
        accessToken := Some(data.accessToken);
        user := data.user;
        effects := [AccessTokenState(Some(data.accessToken)), UserState(data.user)];
      } else {
        accessToken, user := None, None;
        effects := [AccessTokenState(None), UserState(None)];
        if !Auth.IsAuthPage(path) {
          effects := effects + [Navigate("/login")];
        }
      }
      hasCheckedRefresh := true;
      effects := effects + [CheckedRefresh];
    }
  }

  /** After the check has finished, no run of the effect does anything. */
  method NoWorkAfterCheck(p: AuthProvider, cookie: string, pathname: string) returns (called: bool)
    requires p.hasCheckedRefresh
    modifies p
    ensures !called && p.inFlight == old(p.inFlight) && p.refreshCalls == old(p.refreshCalls)
    ensures p.user == old(p.user) && p.accessToken == old(p.accessToken) && p.RendersChildren()
  {
    called := p.RunEffect(cookie, pathname);
  }

  /** No single flight here: a pathname change while a refresh is pending makes
      the effect run again and start a second refresh. */
  method SecondRefreshOnNavigation(cookie: string, first: string, second: string) returns (p: AuthProvider)
    requires HasRefreshCookie(cookie) && first != second
    ensures p.refreshCalls == 2 && |p.inFlight| == 2
    ensures p.inFlight == [InFlight(0, first), InFlight(1, second)]
    ensures !p.RendersChildren()
  {
    p := new AuthProvider();
    var a := p.RunEffect(cookie, first);
    var b := p.RunEffect(cookie, second);
  }

  /** Without a refresh cookie the first run finishes the check with no call. */
  method NoCookieNoCall(cookie: string, pathname: string) returns (p: AuthProvider, called: bool)
    requires !HasRefreshCookie(cookie)
    ensures !called && p.refreshCalls == 0 && p.inFlight == [] && p.RendersChildren()
    ensures p.user == None && p.accessToken == None
  {
    p := new AuthProvider();
    called := p.RunEffect(cookie, pathname);
  }
}
