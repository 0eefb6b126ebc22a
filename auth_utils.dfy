/** The second `token_required` decorator (backend-flask/app/auth/auth_utils.py):
    the token is the second field of `header.split(" ")`, and every failure is
    a 401 with a `message`. */
module AuthUtils {
  import opened Common
  import Routes = AuthRoutes

  datatype Guard = Unauthorized(message: string) | Proceed(userId: string)

  /** `auth_header.split(" ")[1] if len(auth_header.split(" ")) > 1 else None`,
      with an empty second field taken as missing by `if not token`. */
  function HeaderToken(header: Option<string>): (t: Option<string>)
    ensures header.None? ==> t.None?
    ensures t.Some? ==> t.value != "" && ' ' !in t.value
    ensures t.Some? ==> |Split(header.value, ' ')| > 1 && t.value == Split(header.value, ' ')[1]
  {
    if header.None? then None
    else
      var fields := Split(header.value, ' ');
      SplitFieldsHaveNoSeparator(header.value, ' ');
      if |fields| > 1 && fields[1] != "" then Some(fields[1]) else None
  }

  /** The decorator: a missing token, then the two decode failures; a payload
      without `sub` fails inside the `try` and reads as an invalid token. */
  function TokenGuard(header: Option<string>, decode: string -> Routes.Decoded): (g: Guard)
    ensures HeaderToken(header).None? ==> g == Unauthorized("Token is missing")
    ensures g.Proceed? <==> (&& HeaderToken(header).Some?
                             && decode(HeaderToken(header).value).Payload?
                             && decode(HeaderToken(header).value).sub.Some?)
    ensures g.Proceed? ==> g.userId == decode(HeaderToken(header).value).sub.value
    ensures g.Unauthorized? ==> g.message in {"Token is missing", "Token expired", "Invalid token"}
  {
    match HeaderToken(header)
    case None => Unauthorized("Token is missing")
    case Some(token) =>
      match decode(token)
      case ExpiredSignature => Unauthorized("Token expired")
      case InvalidToken => Unauthorized("Invalid token")
      case Payload(sub, _) => if sub.Some? then Proceed(sub.value) else Unauthorized("Invalid token")
  }

  /** Any first word is accepted as the scheme: the second word alone is the token. */
  lemma AnySchemeAccepted(scheme: string, token: string)
    requires ' ' !in scheme && ' ' !in token && token != ""
    ensures HeaderToken(Some(scheme + " " + token)) == Some(token)
  {
    SplitAfterWord(scheme, ' ', token);
    SplitNoSeparator(token, ' ');
  }

  /** A header without a space has no token. */
  lemma NoSpaceNoToken(header: string)
    requires ' ' !in header
    ensures HeaderToken(Some(header)) == None
  {
    SplitNoSeparator(header, ' ');
  }

  /** For a well-formed `Bearer <token>` header the two decorators hand the
      decoder the same token. */
  lemma GuardsAgreeOnBearer(token: string)
    requires ' ' !in token && token != ""
    ensures HeaderToken(Some("Bearer " + token)) == Routes.BearerToken("Bearer " + token)
  {
    AnySchemeAccepted("Bearer", token);
    assert "Bearer" + " " + token == "Bearer " + token;
  }

  /** With a space inside the token they part: one keeps everything after the
      first space, the other only the second word. */
  lemma GuardsDisagreeOnSpaces(a: string, b: string)
    requires a != "" && ' ' !in a && ' ' !in b
    ensures Routes.BearerToken("Bearer " + a + " " + b) == Some(a + " " + b)
    ensures HeaderToken(Some("Bearer " + a + " " + b)) == Some(a)
  {
    var rest := a + " " + b;
    assert "Bearer " + a + " " + b == "Bearer" + [' '] + rest;
    SplitAfterWord("Bearer", ' ', rest);
    assert rest == a + [' '] + b;
    SplitAfterWord(a, ' ', b);
  }
}
