/** The Flask authentication blueprint (backend-flask/app/auth/routes.py): the
    `token_required` Bearer guard and the signup, login, refresh and logout
    routes.  The `users` and `refresh_tokens` tables are sequences of rows in
    the order a select returns them; JWT decoding, bcrypt verification, the
    password hash, the new row id and the `uuid4` jti are parameters. */
module AuthRoutes {
  import opened Common

  const AccessLifetime: nat := 15 * 60
  const RefreshLifetime: nat := 7 * 24 * 60 * 60
  /** bcrypt's input limit, in bytes. */
  const MaxPasswordBytes: nat := 72

  const MissingFields := "Missing fields"
  const WeakPassword := "Password must be at least 8 characters and include at least one letter and one number"
  const PasswordTooLong := "Password too long; max 72 bytes"
  const EmailExists := "Email exists"
  const UsernameExists := "Username exists"
  const InvalidCredentials := "Invalid credentials"

  /** What `jwt.decode` gives for a token: one of its two failure kinds, or the
      payload with its `sub` and `jti` claims when present. */
  datatype Decoded = ExpiredSignature | InvalidToken | Payload(sub: Option<string>, jti: Option<string>)

  /** The claims of an issued token; encoding and signing are not modelled. */
  datatype AccessToken = AccessToken(sub: string, exp: int)
  datatype RefreshToken = RefreshToken(sub: string, jti: string, exp: int)

  datatype UserRow = UserRow(id: string, email: string, username: string, passwordHash: string, createdAt: int)
  datatype TokenRow = TokenRow(userId: string, jti: string, revoked: bool, expiresAt: int)
  datatype Tables = Tables(users: seq<UserRow>, tokens: seq<TokenRow>)

  /** The user object the signup response carries. */
  datatype UserView = UserView(id: string, email: string, username: string)

  datatype Body =
    | ErrorBody(error: string)
    | SignedUp(access: AccessToken, user: UserView)
    /** Login answers with the whole `users` row, password hash included. */
    | LoggedIn(access: AccessToken, row: UserRow)
    | Refreshed(access: AccessToken)
    | MessageBody(message: string)

  /** What the response does to the `refresh_token` cookie. */
  datatype CookieChange = Unchanged | SetRefresh(token: RefreshToken) | Deleted

  datatype Reply = Reply(status: int, body: Body, cookie: CookieChange)
  datatype Outcome = Outcome(tables: Tables, reply: Reply)

  function Fail(status: int, error: string): Reply {
    Reply(status, ErrorBody(error), Unchanged)
  }

  // ---------------------------------------------------------------------------
  // Token expiry
  // ---------------------------------------------------------------------------

  /** The expiry as written: `nowUTC + lifetime`, where `nowUTC` is read once
      when the module is loaded, whatever the time of the request. */
  function ExpiryAsWritten(loadTime: int, now: int, lifetime: nat): (exp: int)
    ensures exp >= loadTime
    ensures now >= loadTime + lifetime ==> exp <= now
  {
    loadTime + lifetime
  }

  /** Once the server has run for one access lifetime, every access token it
      issues is already expired when it is issued. */
  lemma StaleExpiry(loadTime: int, now: int)
    requires now >= loadTime + AccessLifetime
    ensures ExpiryAsWritten(loadTime, now, AccessLifetime) <= now
  {
  }

  /** A concrete run: a login 20 minutes after start-up gets a token that
      expired five minutes before it was issued. */
  lemma StaleExpiryExample()
    ensures ExpiryAsWritten(0, 1200, AccessLifetime) == 1200 - 300
  {
  }

  /** The evidently intended expiry: `lifetime` seconds after the request. */
  function Expiry(now: int, lifetime: nat): (exp: int)
    ensures exp >= now && exp - now == lifetime
  {
    now + lifetime
  }

  /** With the intended expiry a token is valid at every instant of its
      lifetime after the request, however long the server has run. */
  lemma FreshExpiry(now: int, t: int)
    requires now <= t < now + AccessLifetime
    ensures t < Expiry(now, AccessLifetime)
  {
  }

  // ---------------------------------------------------------------------------
  // The Bearer guard
  // ---------------------------------------------------------------------------

  /** `auth_header.split(" ", 1)[1]` after the `startswith("Bearer ")` test:
      everything after the first space. */
  function BearerToken(header: string): (t: Option<string>)
    ensures t.Some? <==> "Bearer " <= header
    ensures t.Some? ==> header == "Bearer " + t.value
  {
    if "Bearer " <= header then
      assert header[6] == ' ' && ' ' !in header[..6];
      var parts := SplitOnce(header, ' ');
      assert |parts.value.0| == 6;
      Some(parts.value.1)
    else None
  }

  datatype Guard = Reject(status: int, error: string) | Proceed(userId: string) | Crash

  /** `token_required`: an absent header reads as ""; `payload["sub"]` is read
      outside the `try`, so a payload without `sub` is an unhandled error. */
  function BearerGuard(header: Option<string>, decode: string -> Decoded): (g: Guard)
    ensures header.None? ==> g == Reject(401, "Missing token")
    ensures header.Some? && !("Bearer " <= header.value) ==> g == Reject(401, "Missing token")
    ensures g.Proceed? <==> (header.Some? && "Bearer " <= header.value
                            && decode(header.value[7..]).Payload? && decode(header.value[7..]).sub.Some?)
    ensures g.Proceed? ==> g.userId == decode(header.value[7..]).sub.value
    ensures g.Crash? <==> (header.Some? && "Bearer " <= header.value
                          && decode(header.value[7..]).Payload? && decode(header.value[7..]).sub.None?)
  {
    var h := if header.Some? then header.value else "";
    match BearerToken(h)
    case None => Reject(401, "Missing token")
    case Some(token) =>
      match decode(token)
      case ExpiredSignature => Reject(401, "Token expired")
      case InvalidToken => Reject(401, "Invalid token")
      case Payload(sub, _) => if sub.Some? then Proceed(sub.value) else Crash
  }

  // ---------------------------------------------------------------------------
  // Signup
  // ---------------------------------------------------------------------------

  datatype SignupRequest = SignupRequest(email: Option<string>, username: Option<string>, password: Option<string>)

  predicate Falsy(v: Option<string>) {
    v.None? || v.value == ""
  }

  /** `str.isalpha` on characters up to U+00FF. */
  predicate PyIsAlpha(c: char) {
    || IsAsciiUpper(c) || IsAsciiLower(c)
    || c == '\U{00AA}' || c == '\U{00B5}' || c == '\U{00BA}'
    || ('\U{00C0}' <= c <= '\U{00FF}' && c != '\U{00D7}' && c != '\U{00F7}')
  }

  /** `str.isdigit` on characters up to U+00FF. */
  predicate PyIsDigit(c: char) {
    IsAsciiDigit(c) || c == '\U{00B2}' || c == '\U{00B3}' || c == '\U{00B9}'
  }

  /** At least 8 code points, some letter and some digit. */
  predicate ServerPasswordRule(p: string)
    ensures ServerPasswordRule(p) ==> Utf8Length(p) >= 8
  {
    && |p| >= 8
    && (exists i :: 0 <= i < |p| && PyIsAlpha(p[i]))
    && (exists i :: 0 <= i < |p| && PyIsDigit(p[i]))
  }

  /** `len(s.encode("utf-8"))`. */
  function Utf8Length(s: string): (n: nat)
    ensures |s| <= n <= 4 * |s|
  {
    if |s| == 0 then 0
    else
      var c := s[0] as int;
      (if c < 0x80 then 1 else if c < 0x800 then 2 else if c < 0x10000 then 3 else 4) + Utf8Length(s[1..])
  }

  predicate EmailTaken(users: seq<UserRow>, email: string) {
    exists i :: 0 <= i < |users| && users[i].email == email
  }

  predicate UsernameTaken(users: seq<UserRow>, username: string) {
    exists i :: 0 <= i < |users| && users[i].username == username
  }

  /** The three fields are present and non-empty. */
  predicate FieldsPresent(req: SignupRequest) {
    !Falsy(req.email) && !Falsy(req.username) && !Falsy(req.password)
  }

  /** The error of the first signup check that fails, in the order the route
      runs them, or None when all pass. */
  function SignupError(users: seq<UserRow>, req: SignupRequest): (e: Option<string>)
    ensures e == Some(MissingFields) <==> Falsy(req.email) || Falsy(req.username) || Falsy(req.password)
    ensures e.None? ==> (&& !Falsy(req.email) && !Falsy(req.username) && !Falsy(req.password)
                         && ServerPasswordRule(req.password.value)
                         && Utf8Length(req.password.value) <= MaxPasswordBytes
                         && !EmailTaken(users, req.email.value) && !UsernameTaken(users, req.username.value))
    ensures e == Some(WeakPassword) ==> FieldsPresent(req) && !ServerPasswordRule(req.password.value)
    ensures e == Some(PasswordTooLong) ==>
      FieldsPresent(req) && ServerPasswordRule(req.password.value) && Utf8Length(req.password.value) > MaxPasswordBytes
    ensures e == Some(EmailExists) ==>
      && FieldsPresent(req) && ServerPasswordRule(req.password.value) && Utf8Length(req.password.value) <= MaxPasswordBytes
      && EmailTaken(users, req.email.value)
    ensures e == Some(UsernameExists) ==>
      && FieldsPresent(req) && ServerPasswordRule(req.password.value) && Utf8Length(req.password.value) <= MaxPasswordBytes
      && !EmailTaken(users, req.email.value) && UsernameTaken(users, req.username.value)
    ensures e.Some? ==> e.value in {MissingFields, WeakPassword, PasswordTooLong, EmailExists, UsernameExists}
  {
    if Falsy(req.email) || Falsy(req.username) || Falsy(req.password) then Some(MissingFields)
    else if !ServerPasswordRule(req.password.value) then Some(WeakPassword)
    else if Utf8Length(req.password.value) > MaxPasswordBytes then Some(PasswordTooLong)
    else if EmailTaken(users, req.email.value) then Some(EmailExists)
    else if UsernameTaken(users, req.username.value) then Some(UsernameExists)
    else None
  }

  /** `POST /auth/signup`: every failed check answers 400 and changes no table;
      otherwise one user row and one unrevoked refresh-token row are added and
      the response sets the refresh cookie. */
  function Signup(db: Tables, req: SignupRequest, newId: string, hash: string, jti: string, now: int): (o: Outcome)
    ensures SignupError(db.users, req).Some? ==> o == Outcome(db, Fail(400, SignupError(db.users, req).value))
    ensures o.reply.status == 201 <==> SignupError(db.users, req).None?
    ensures o.reply.status == 201 ==>
      var access := AccessToken(newId, Expiry(now, AccessLifetime));
      var refresh := RefreshToken(newId, jti, Expiry(now, RefreshLifetime));
      && o.tables.users == db.users + [UserRow(newId, req.email.value, req.username.value, hash, now)]
      && o.tables.tokens == db.tokens + [TokenRow(newId, jti, false, refresh.exp)]
      && o.reply == Reply(201, SignedUp(access, UserView(newId, req.email.value, req.username.value)), SetRefresh(refresh))
  {
    match SignupError(db.users, req)
    case Some(e) => Outcome(db, Fail(400, e))
    case None =>
      var refresh := RefreshToken(newId, jti, Expiry(now, RefreshLifetime));
      var user := UserRow(newId, req.email.value, req.username.value, hash, now);
      var tables := Tables(db.users + [user], db.tokens + [TokenRow(newId, jti, false, refresh.exp)]);
      var body := SignedUp(AccessToken(newId, Expiry(now, AccessLifetime)), UserView(newId, user.email, user.username));
      Outcome(tables, Reply(201, body, SetRefresh(refresh)))
  }

  /** After a successful signup the same email, or a new email with the same
      username, is refused. */
  lemma SignupTwice(db: Tables, req: SignupRequest, newId: string, hash: string, jti: string, now: int,
                    again: SignupRequest)
    requires Signup(db, req, newId, hash, jti, now).reply.status == 201
    requires !Falsy(again.email) && !Falsy(again.username) && !Falsy(again.password)
    requires ServerPasswordRule(again.password.value) && Utf8Length(again.password.value) <= MaxPasswordBytes
    ensures again.email == req.email ==>
              SignupError(Signup(db, req, newId, hash, jti, now).tables.users, again) == Some(EmailExists)
    ensures again.username == req.username ==>
              SignupError(Signup(db, req, newId, hash, jti, now).tables.users, again).Some?
  {
    var users := Signup(db, req, newId, hash, jti, now).tables.users;
    assert users[|db.users|].email == req.email.value;
    assert users[|db.users|].username == req.username.value;
  }

  // ---------------------------------------------------------------------------
  // Login
  // ---------------------------------------------------------------------------

  datatype LoginRequest = LoginRequest(email: string, password: string)

  /** `select("*").eq("email", email)` followed by `data[0]`. */
  function FirstByEmail(users: seq<UserRow>, email: string): (r: Option<UserRow>)
    ensures r.None? <==> !EmailTaken(users, email)
    ensures r.Some? ==> r.value.email == email && r.value in users
    ensures r.Some? ==> exists i :: 0 <= i < |users| && users[i] == r.value && forall j :: 0 <= j < i ==> users[j].email != email
  {
    if |users| == 0 then None
    else if users[0].email == email then Some(users[0])
    else
      var r := FirstByEmail(users[1..], email);
      assert EmailTaken(users[1..], email) ==> EmailTaken(users, email) by {
        if EmailTaken(users[1..], email) {
          var i :| 0 <= i < |users[1..]| && users[1..][i].email == email;
          assert users[i + 1].email == email;
        }
      }
      assert r.Some? ==> exists i :: 0 <= i < |users| && users[i] == r.value && forall j :: 0 <= j < i ==> users[j].email != email by {
        if r.Some? {
          var i :| 0 <= i < |users[1..]| && users[1..][i] == r.value && forall j :: 0 <= j < i ==> users[1..][j].email != email;
          assert users[i + 1] == r.value;
          forall j | 0 <= j < i + 1 ensures users[j].email != email {
            if j > 0 { assert users[j] == users[1..][j - 1]; }
          }
        }
      }
      r
  }

  /** `POST /auth/login` with its two evident corrections: the password is
      checked by `verify` (standing for `bcrypt.checkpw`), and the refresh
      row's `expires_at` is sent as ISO text, as signup does, rather than the
      raw `datetime` the code passes.  An unknown email and a wrong password
      get the same 401 and change nothing; otherwise an unrevoked
      refresh-token row is added and the whole user row is returned with a
      new access token. */
  function Login(db: Tables, req: LoginRequest, verify: (string, string) -> bool, jti: string, now: int): (o: Outcome)
    ensures o.reply.status == 200 <==>
      FirstByEmail(db.users, req.email).Some? && verify(req.password, FirstByEmail(db.users, req.email).value.passwordHash)
    ensures o.reply.status != 200 ==> o == Outcome(db, Fail(401, InvalidCredentials))
    ensures o.reply.status == 200 ==>
      var row := FirstByEmail(db.users, req.email).value;
      var refresh := RefreshToken(row.id, jti, Expiry(now, RefreshLifetime));
      && o.tables == Tables(db.users, db.tokens + [TokenRow(row.id, jti, false, refresh.exp)])
      && o.reply == Reply(200, LoggedIn(AccessToken(row.id, Expiry(now, AccessLifetime)), row), SetRefresh(refresh))
  {
    match FirstByEmail(db.users, req.email)
    case None => Outcome(db, Fail(401, InvalidCredentials))
    case Some(row) =>
      if !verify(req.password, row.passwordHash) then Outcome(db, Fail(401, InvalidCredentials))
      else
        var refresh := RefreshToken(row.id, jti, Expiry(now, RefreshLifetime));
        var tables := Tables(db.users, db.tokens + [TokenRow(row.id, jti, false, refresh.exp)]);
        Outcome(tables, Reply(200, LoggedIn(AccessToken(row.id, Expiry(now, AccessLifetime)), row), SetRefresh(refresh)))
  }

  /** The Flask answer to an exception the route does not catch. */
  const ServerErrorReply := Fail(500, "Internal Server Error")

  /** `POST /auth/login` as written: the `bcrypt` package it imports offers
      `checkpw` but no `verify`, so the attribute lookup raises for every known
      email and Flask answers 500; only unknown emails get their 401. */
  function LoginAsWritten(db: Tables, req: LoginRequest): (o: Outcome)
    ensures o.tables == db
    ensures FirstByEmail(db.users, req.email).None? ==> o.reply == Fail(401, InvalidCredentials)
    ensures FirstByEmail(db.users, req.email).Some? ==> o.reply == ServerErrorReply
  {
    match FirstByEmail(db.users, req.email)
    case None => Outcome(db, Fail(401, InvalidCredentials))
    case Some(_) => Outcome(db, ServerErrorReply)
  }

  /** Nobody can log in as written, not even an account just created, whose
      password the intended check (`Login` with `bcrypt.checkpw` as `verify`)
      accepts. */
  lemma NoLoginAsWritten(db: Tables, req: SignupRequest, newId: string, hash: string, jti: string, now: int,
                         verify: (string, string) -> bool, jti2: string, later: int)
    requires Signup(db, req, newId, hash, jti, now).reply.status == 201
    requires verify(req.password.value, hash)
    ensures var after := Signup(db, req, newId, hash, jti, now).tables;
      var login := LoginRequest(req.email.value, req.password.value);
      && LoginAsWritten(after, login).reply.status == 500
      && Login(after, login, verify, jti2, later).reply.status == 200
  {
    SignupThenLogin(db, req, newId, hash, jti, now, verify, jti2, later);
  }

  /** A login response exposes the stored password hash of the account. */
  lemma LoginExposesHash(db: Tables, req: LoginRequest, verify: (string, string) -> bool, jti: string, now: int)
    requires Login(db, req, verify, jti, now).reply.status == 200
    ensures Login(db, req, verify, jti, now).reply.body.row.passwordHash
            == FirstByEmail(db.users, req.email).value.passwordHash
  {
  }

  /** A password that the hash check accepts logs in the account just created. */
  lemma SignupThenLogin(db: Tables, req: SignupRequest, newId: string, hash: string, jti: string, now: int,
                        verify: (string, string) -> bool, jti2: string, later: int)
    requires Signup(db, req, newId, hash, jti, now).reply.status == 201
    requires verify(req.password.value, hash)
    ensures Login(Signup(db, req, newId, hash, jti, now).tables, LoginRequest(req.email.value, req.password.value),
                  verify, jti2, later).reply.status == 200
  {
    var users := Signup(db, req, newId, hash, jti, now).tables.users;
    FirstByEmailAppend(db.users, users[|db.users|]);
    assert users == db.users + [users[|db.users|]];
  }

  lemma {:induction false} FirstByEmailAppend(users: seq<UserRow>, row: UserRow)
    requires !EmailTaken(users, row.email)
    ensures FirstByEmail(users + [row], row.email) == Some(row)
  {
    if |users| > 0 {
      assert (users + [row])[1..] == users[1..] + [row];
      assert !EmailTaken(users[1..], row.email) by {
        forall i | 0 <= i < |users[1..]| ensures users[1..][i].email != row.email {
          assert users[1..][i] == users[i + 1];
        }
      }
      FirstByEmailAppend(users[1..], row);
    }
  }

  // ---------------------------------------------------------------------------
  // Refresh and logout
  // ---------------------------------------------------------------------------

  /** `select("*").eq("jti", jti)` followed by `data[0]`. */
  function FirstByJti(tokens: seq<TokenRow>, jti: string): (r: Option<TokenRow>)
    ensures r.None? <==> forall i :: 0 <= i < |tokens| ==> tokens[i].jti != jti
    ensures r.Some? ==> r.value.jti == jti && r.value in tokens
    ensures r.Some? ==> exists i :: 0 <= i < |tokens| && tokens[i] == r.value && forall j :: 0 <= j < i ==> tokens[j].jti != jti
  {
    if |tokens| == 0 then None
    else if tokens[0].jti == jti then Some(tokens[0])
    else
      var r := FirstByJti(tokens[1..], jti);
      assert forall i :: 1 <= i < |tokens| ==> tokens[i] == tokens[1..][i - 1];
      assert r.Some? ==> exists i :: 0 <= i < |tokens| && tokens[i] == r.value && forall j :: 0 <= j < i ==> tokens[j].jti != jti by {
        if r.Some? {
          var i :| 0 <= i < |tokens[1..]| && tokens[1..][i] == r.value && forall j :: 0 <= j < i ==> tokens[1..][j].jti != jti;
          assert tokens[i + 1] == r.value;
        }
      }
      r
  }

  /** `POST /auth/refresh`: no table changes.  A missing cookie, a token that
      does not decode with both claims, and an absent or revoked jti row all
      answer 401; otherwise the body holds only a new access token. */
  function Refresh(db: Tables, cookie: Option<string>, decode: string -> Decoded, now: int): (r: Reply)
    ensures Falsy(cookie) ==> r == Fail(401, "Missing refresh token")
    ensures r.status == 200 <==>
      (&& !Falsy(cookie) && decode(cookie.value).Payload?
       && decode(cookie.value).sub.Some? && decode(cookie.value).jti.Some?
       && FirstByJti(db.tokens, decode(cookie.value).jti.value).Some?
       && !FirstByJti(db.tokens, decode(cookie.value).jti.value).value.revoked)
    ensures r.status != 200 ==> r.status == 401 && r.body.ErrorBody? && r.cookie == Unchanged
    ensures r.status == 200 ==> r == Reply(200, Refreshed(AccessToken(decode(cookie.value).sub.value, Expiry(now, AccessLifetime))), Unchanged)
  {
    if Falsy(cookie) then Fail(401, "Missing refresh token")
    else
      match decode(cookie.value)
      case ExpiredSignature => Fail(401, "Refresh token expired")
      case InvalidToken => Fail(401, "Invalid token")
      case Payload(sub, jti) =>
        if sub.None? || jti.None? then Fail(401, "Invalid token")
        else
          var row := FirstByJti(db.tokens, jti.value);
          if row.None? || row.value.revoked then Fail(401, "Token revoked")
          else Reply(200, Refreshed(AccessToken(sub.value, Expiry(now, AccessLifetime))), Unchanged)
  }

  /** `update({"revoked": True}).eq("jti", jti)`. */
  function RevokeJti(tokens: seq<TokenRow>, jti: string): (r: seq<TokenRow>)
    ensures |r| == |tokens|
    ensures forall i :: 0 <= i < |tokens| ==>
      r[i] == if tokens[i].jti == jti then tokens[i].(revoked := true) else tokens[i]
  {
    if |tokens| == 0 then []
    else [if tokens[0].jti == jti then tokens[0].(revoked := true) else tokens[0]] + RevokeJti(tokens[1..], jti)
  }

  /** `POST /auth/logout`: revokes the cookie's jti when the cookie decodes with
      one, and in every case deletes the cookie and answers "Logged out". */
  function Logout(db: Tables, cookie: Option<string>, decode: string -> Decoded): (o: Outcome)
    ensures o.reply == Reply(200, MessageBody("Logged out"), Deleted)
    ensures o.tables.users == db.users
    ensures (!Falsy(cookie) && decode(cookie.value).Payload? && decode(cookie.value).jti.Some?) ==>
              o.tables.tokens == RevokeJti(db.tokens, decode(cookie.value).jti.value)
    ensures !(!Falsy(cookie) && decode(cookie.value).Payload? && decode(cookie.value).jti.Some?) ==>
              o.tables == db
  {
    var reply := Reply(200, MessageBody("Logged out"), Deleted);
    if !Falsy(cookie) && decode(cookie.value).Payload? && decode(cookie.value).jti.Some? then
      Outcome(Tables(db.users, RevokeJti(db.tokens, decode(cookie.value).jti.value)), reply)
    else Outcome(db, reply)
  }

  /** Once logged out, the same cookie no longer refreshes. */
  lemma LogoutThenRefresh(db: Tables, cookie: Option<string>, decode: string -> Decoded, now: int)
    requires !Falsy(cookie) && decode(cookie.value).Payload?
    requires decode(cookie.value).sub.Some? && decode(cookie.value).jti.Some?
    ensures Refresh(Logout(db, cookie, decode).tables, cookie, decode, now) == Fail(401, "Token revoked")
  {
    var jti := decode(cookie.value).jti.value;
    var tokens := RevokeJti(db.tokens, jti);
    var row := FirstByJti(tokens, jti);
    if row.Some? {
      var i :| 0 <= i < |tokens| && tokens[i] == row.value;
      assert tokens[i].revoked;
    }
  }

  /** The refresh token a login issues refreshes, as long as its jti was new
      to the table. */
  lemma LoginThenRefresh(db: Tables, req: LoginRequest, verify: (string, string) -> bool, jti: string, now: int,
                         cookie: string, decode: string -> Decoded, later: int)
    requires Login(db, req, verify, jti, now).reply.status == 200
    requires forall i :: 0 <= i < |db.tokens| ==> db.tokens[i].jti != jti
    requires cookie != ""
    requires decode(cookie) == Payload(Some(Login(db, req, verify, jti, now).reply.cookie.token.sub), Some(jti))
    ensures Refresh(Login(db, req, verify, jti, now).tables, Some(cookie), decode, later).status == 200
  {
    var o := Login(db, req, verify, jti, now);
    var row := o.tables.tokens[|db.tokens|];
    assert o.tables.tokens == db.tokens + [row];
    assert row.jti == jti && !row.revoked;
    FirstByJtiAppend(db.tokens, row);
    assert FirstByJti(o.tables.tokens, jti) == Some(row);
  }

  lemma {:induction false} FirstByJtiAppend(tokens: seq<TokenRow>, row: TokenRow)
    requires forall i :: 0 <= i < |tokens| ==> tokens[i].jti != row.jti
    ensures FirstByJti(tokens + [row], row.jti) == Some(row)
  {
    if |tokens| > 0 {
      assert (tokens + [row])[1..] == tokens[1..] + [row];
      FirstByJtiAppend(tokens[1..], row);
    }
  }
}
