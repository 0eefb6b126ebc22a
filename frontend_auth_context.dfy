/** The frontend's `AuthProvider` (frontend/src/contexts/AuthContext.tsx) as an
    event-driven state machine.  The refresh promise held in
    `refreshPromiseRef.current` is a handle number: `pending == None` is Idle,
    `pending == Some(h)` is Refreshing with the promise numbered `h`.  The events
    are `Invoke` (a call of `rehydrate`), `SettleOk` and `SettleFail` (the
    refresh call resolving or rejecting).  There is no timeout and no request
    retry: a settle event comes only from the refresh call itself. */
module FrontendAuth {
  import opened Common
  import Api = FrontendApiClient

  datatype User = User(id: string, email: string, username: string)

  /** The parsed body of a successful `/auth/refresh`; `user` is absent when the
      server does not send one. */
  datatype RefreshData = RefreshData(accessToken: string, user: Option<User>)

  /** The side effects of settling a refresh, in the order the code performs them. */
  datatype Effect =
    | ClientToken(token: Option<string>)
    | AccessTokenState(token: Option<string>)
    | UserState(user: Option<User>)
    | Navigate(path: string)
    | PendingCleared
    | CheckedRefresh

  /** The pages from which a failed refresh does not redirect. */
  predicate IsAuthPage(path: string) {
    path == "/login" || path == "/signup"
  }

  class AuthProvider {
    const client: Api.ApiClient
    var user: Option<User>
    var accessToken: Option<string>
    var hasCheckedRefresh: bool
    /** `refreshPromiseRef.current`. */
    var pending: Option<nat>
    /** How many refresh calls have been started, and how many have settled. */
    var refreshCalls: nat
    var settled: nat

    /** At most one refresh is in flight, and the pending handle names it. */
    ghost predicate Valid()
      reads this
    {
      && refreshCalls == settled + (if pending.Some? then 1 else 0)
      && (pending.Some? ==> pending.value == refreshCalls)
    }

    constructor (client: Api.ApiClient)
      ensures Valid() && this.client == client
      ensures user == None && accessToken == None && !hasCheckedRefresh
      ensures pending == None && refreshCalls == 0 && settled == 0
    {
      this.client := client;
      user, accessToken, hasCheckedRefresh := None, None, false;
      pending, refreshCalls, settled := None, 0, 0;
    }

    /** The full-page loader is rendered exactly while no refresh has been checked. */
    function ShowsLoader(): bool
      reads this
    {
      !hasCheckedRefresh
    }

    /** `rehydrate()`: joins the pending refresh if there is one, and otherwise
        starts exactly one and records its handle. */
    method Invoke() returns (handle: nat, started: bool)
      requires Valid()
      modifies this
      ensures Valid()
      ensures started <==> old(pending).None?
      ensures !started ==> handle == old(pending).value && refreshCalls == old(refreshCalls)
      ensures started ==> handle == old(refreshCalls) + 1 && refreshCalls == handle
      ensures pending == Some(handle)
      ensures settled == old(settled) && user == old(user) && accessToken == old(accessToken)
      ensures hasCheckedRefresh == old(hasCheckedRefresh)
    {
      if pending.Some? {
        handle, started := pending.value, false;
        return;
      }
      refreshCalls := refreshCalls + 1;
      handle, started := refreshCalls, true;
      pending := Some(handle);
    }

    /** The refresh resolved with an access token: the client token is set
        before the state setters run, then the handle is cleared and the check
        is recorded.  A body without one goes through `SettleFail`. */
    method SettleOk(data: RefreshData) returns (effects: seq<Effect>)
      requires Valid() && pending.Some?
      modifies this, client
      ensures Valid()
      ensures client.token == Some(data.accessToken) && client.onUnauthorized == old(client.onUnauthorized)
      ensures accessToken == Some(data.accessToken) && user == data.user
      ensures pending == None && settled == old(settled) + 1 && refreshCalls == old(refreshCalls)
      ensures hasCheckedRefresh
      ensures effects == [ClientToken(Some(data.accessToken)), AccessTokenState(Some(data.accessToken)),
                          UserState(data.user), PendingCleared, CheckedRefresh]
    {
      client.SetToken(Some(data.accessToken));
      accessToken := Some(data.accessToken);
      user := data.user;
      effects := [ClientToken(Some(data.accessToken)), AccessTokenState(Some(data.accessToken)), UserState(data.user)];
      pending := None;
      settled := settled + 1;
      hasCheckedRefresh := true;
      effects := effects + [PendingCleared, CheckedRefresh];
    }

    /** The refresh rejected while the browser shows `currentPath`: token, access
        token and user are cleared, and the app navigates to /login unless it is
        already on an authentication page.  A resolved body without
        `access_token` ends here too: reading `data.access_token.slice` throws
        into the same catch. */
    method SettleFail(currentPath: string) returns (effects: seq<Effect>)
      requires Valid() && pending.Some?
      modifies this, client
      ensures Valid()
      ensures client.token == None && client.onUnauthorized == old(client.onUnauthorized)
      ensures accessToken == None && user == None
      ensures pending == None && settled == old(settled) + 1 && refreshCalls == old(refreshCalls)
      ensures hasCheckedRefresh
      ensures Navigate("/login") in effects <==> !IsAuthPage(currentPath)
      ensures effects == [ClientToken(None), AccessTokenState(None), UserState(None)]
                         + (if IsAuthPage(currentPath) then [] else [Navigate("/login")])
                         + [PendingCleared, CheckedRefresh]
    {
      client.SetToken(None);
      accessToken, user := None, None;
      effects := [ClientToken(None), AccessTokenState(None), UserState(None)];
      if !IsAuthPage(currentPath) {
        effects := effects + [Navigate("/login")];
      }
      pending := None;
      settled := settled + 1;
      hasCheckedRefresh := true;
      effects := effects + [PendingCleared, CheckedRefresh];
    }

    /** The effect that copies every new `accessToken` state into the client. */
    method SyncToken()
      modifies client
      ensures client.token == accessToken && client.onUnauthorized == old(client.onUnauthorized)
    {
      client.SetToken(accessToken);
    }

    /** The effect run on mount: register the refresh trigger as the 401 handler. */
    method RegisterHandler()
      modifies client
      ensures client.onUnauthorized == Some(Api.Rehydrate) && client.token == old(client.token)
    {
      client.SetOnUnauthorized(Api.Rehydrate);
    }

    /** The cleanup on unmount: the handler becomes a no-op. */
    method Unmount()
      modifies client
      ensures client.onUnauthorized == Some(Api.NoOp) && client.token == old(client.token)
    {
      client.SetOnUnauthorized(Api.NoOp);
    }

    /** The client fired `handler` (without awaiting it): the refresh trigger
        calls `rehydrate`, the no-op does nothing. */
    method OnUnauthorized(handler: Api.Handler) returns (started: bool)
      requires Valid()
      modifies this
      ensures Valid()
      ensures handler == Api.NoOp ==> !started && pending == old(pending) && refreshCalls == old(refreshCalls)
      ensures handler == Api.Rehydrate ==> pending.Some? && (started <==> old(pending).None?)
      ensures refreshCalls == old(refreshCalls) + (if started then 1 else 0)
      ensures settled == old(settled) && user == old(user) && accessToken == old(accessToken)
      ensures hasCheckedRefresh == old(hasCheckedRefresh)
    {
      started := false;
      if handler == Api.Rehydrate {
        var _, s := Invoke();
        started := s;
      }
    }

    /** The three mount effects in declaration order: the initial rehydration,
        the handler registration, and the token sync with the initial state. */
    method Mount() returns (handle: nat)
      requires Valid() && pending.None? && !hasCheckedRefresh
      modifies this, client
      ensures Valid() && pending == Some(handle) && refreshCalls == old(refreshCalls) + 1
      ensures client.onUnauthorized == Some(Api.Rehydrate) && client.token == accessToken
      ensures ShowsLoader()
    {
      var started;
      handle, started := Invoke();
      RegisterHandler();
      SyncToken();
    }
  }

  /** `n` requests that all receive 401 before the refresh settles start one
      refresh between them, and every one of them waits on the same handle. */
  method ConcurrentUnauthorized(p: AuthProvider, n: nat) returns (handles: seq<nat>)
    requires p.Valid() && p.pending.None? && p.client.onUnauthorized == Some(Api.Rehydrate)
    modifies p
    ensures p.Valid()
    ensures |handles| == n
    ensures n > 0 ==> p.refreshCalls == old(p.refreshCalls) + 1
    ensures forall i :: 0 <= i < n ==> handles[i] == old(p.refreshCalls) + 1
  {
    handles := [];
    var i := 0;
    while i < n
      invariant 0 <= i <= n && |handles| == i
      invariant p.Valid() && p.client.onUnauthorized == Some(Api.Rehydrate)
      invariant i == 0 ==> p.pending.None? && p.refreshCalls == old(p.refreshCalls)
      invariant i > 0 ==> p.pending == Some(old(p.refreshCalls) + 1) && p.refreshCalls == old(p.refreshCalls) + 1
      invariant forall k :: 0 <= k < i ==> handles[k] == old(p.refreshCalls) + 1
    {
      var h, _ := p.Invoke();
      handles := handles + [h];
      i := i + 1;
    }
  }

  /** Whatever the outcome, a settled refresh leaves the provider Idle and
      checked, and a later `Invoke` starts a fresh refresh. */
  method RefreshCycle(p: AuthProvider, ok: bool, data: RefreshData, path: string) returns (next: nat)
    requires p.Valid() && p.pending.None?
    modifies p, p.client
    ensures p.Valid() && p.hasCheckedRefresh
    ensures p.refreshCalls == old(p.refreshCalls) + 2 && p.settled == old(p.settled) + 1
    ensures next == old(p.refreshCalls) + 2 && p.pending == Some(next)
  {
    var h, _ := p.Invoke();
    var effects;
    if ok {
      effects := p.SettleOk(data);
    } else {
      effects := p.SettleFail(path);
    }
    var started;
    next, started := p.Invoke();
  }
}
