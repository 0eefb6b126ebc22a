/** The signup page (frontend/src/app/signup/page.tsx): the input handlers that
    normalise what is typed, and `handleSignup`, a chain of checks on the three
    fields that stops at the first failure and only then calls the server. */
module Signup {
  import opened Common
  import Server = AuthRoutes

  /** What a press on "Sign up" leads to. */
  datatype Step =
    | MissingField     // alert "All fields are required"
    | BadEmail         // error "Please enter a valid email address"
    | WeakPassword     // pwdNotMeetRec := true
    | Submit           // pwdNotMeetRec := false, then the signup call

  /** The page state that the handler writes. */
  datatype Page = Page(error: string, pwdNotMeetRec: bool, alert: Option<string>, submitted: bool)

  const ValidEmailError := "Please enter a valid email address"
  const FallbackError := "Something went wrong. Try again."

  predicate HasAsciiUpper(s: string) {
    exists i :: 0 <= i < |s| && IsAsciiUpper(s[i])
  }

  predicate HasAsciiDigit(s: string) {
    exists i :: 0 <= i < |s| && IsAsciiDigit(s[i])
  }

  /** `password.length >= 8 && /[A-Z]/.test(password) && /\d/.test(password)`. */
  predicate ClientPasswordRule(p: string)
    ensures ClientPasswordRule(p) ==> |p| >= 4
  {
    Utf16Length(p) >= 8 && HasAsciiUpper(p) && HasAsciiDigit(p)
  }

  /** The checks of `handleSignup`, in order. */
  function Check(email: string, username: string, password: string): (s: Step)
    ensures s == MissingField <==> email == "" || username == "" || password == ""
    ensures s == BadEmail <==> email != "" && username != "" && password != "" && !Contains(email, "@")
    ensures s == WeakPassword <==> (&& email != "" && username != "" && password != "" && Contains(email, "@")
                                   && !ClientPasswordRule(password))
    ensures s == Submit <==> (&& email != "" && username != "" && password != "" && Contains(email, "@")
                             && ClientPasswordRule(password))
  {
    if email == "" || username == "" || password == "" then MissingField
    else if !Contains(email, "@") then BadEmail
    else if !ClientPasswordRule(password) then WeakPassword
    else Submit
  }

  /** The page after `handleSignup`: the error is cleared first, and
      `pwdNotMeetRec` is written only once the first two checks pass, when it
      becomes the negation of the password rule. */
  function HandleSignup(p: Page, email: string, username: string, password: string): (q: Page)
    ensures q.submitted <==> Check(email, username, password) == Submit
    ensures q.alert == (if Check(email, username, password) == MissingField then Some("All fields are required") else None)
    ensures q.error == (if Check(email, username, password) == BadEmail then ValidEmailError else "")
    ensures Check(email, username, password) in {WeakPassword, Submit} ==> q.pwdNotMeetRec == !ClientPasswordRule(password)
    ensures Check(email, username, password) in {MissingField, BadEmail} ==> q.pwdNotMeetRec == p.pwdNotMeetRec
  {
    var cleared := p.(error := "", alert := None, submitted := false);
    match Check(email, username, password)
    case MissingField => cleared.(alert := Some("All fields are required"))
    case BadEmail => cleared.(error := ValidEmailError)
    case WeakPassword => cleared.(pwdNotMeetRec := true)
    case Submit => cleared.(pwdNotMeetRec := false, submitted := true)
  }

  /** The error shown when the signup call rejects: its message, or the
      fallback when the message is empty. */
  function FailureError(message: string): (e: string)
    ensures e != ""
    ensures message != "" ==> e == message
  {
    if message != "" then message else FallbackError
  }

  // Input handlers --------------------------------------------------------------

  function EmailInput(raw: string): string {
    ToLower(JsTrim(raw))
  }

  function TrimmedInput(raw: string): string {
    JsTrim(raw)
  }

  lemma JsTrimFixed(s: string)
    requires |s| > 0 ==> !IsJsSpace(s[0]) && !IsJsSpace(s[|s| - 1])
    ensures JsTrim(s) == s
  {
  }

  /** The email field holds a value with no white space at either end and no
      upper-case ASCII letter, and re-entering that value leaves it as it is. */
  lemma EmailInputNormal(raw: string)
    ensures var e := EmailInput(raw);
      && (|e| > 0 ==> !IsJsSpace(e[0]) && !IsJsSpace(e[|e| - 1]))
      && (forall i :: 0 <= i < |e| ==> !IsAsciiUpper(e[i]))
      && EmailInput(e) == e
  {
    var t := JsTrim(raw);
    var e := ToLower(t);
    if |e| > 0 {
      assert e[0] == LowerChar(t[0]) && e[|e| - 1] == LowerChar(t[|t| - 1]);
    }
    JsTrimFixed(e);
    ToLowerIdempotent(t);
  }

  /** Username and password fields are trimmed, and re-entering leaves them. */
  lemma TrimmedInputNormal(raw: string)
    ensures TrimmedInput(TrimmedInput(raw)) == TrimmedInput(raw)
  {
    JsTrimFixed(JsTrim(raw));
  }

  // Client rule against the server rule -----------------------------------------

  predicate Ascii(s: string) {
    forall i :: 0 <= i < |s| ==> s[i] as int < 0x80
  }

  lemma {:induction false} AsciiUtf16Length(s: string)
    requires Ascii(s)
    ensures Utf16Length(s) == |s|
  {
    if |s| > 0 {
      AsciiUtf16Length(s[1..]);
    }
  }

  /** An ASCII password that the page lets through also satisfies the server's
      length, letter and digit rule. */
  lemma ClientRuleImpliesServerRule(p: string)
    requires Ascii(p) && ClientPasswordRule(p)
    ensures Server.ServerPasswordRule(p)
  {
    AsciiUtf16Length(p);
    var i :| 0 <= i < |p| && IsAsciiUpper(p[i]);
    assert Server.PyIsAlpha(p[i]);
    var j :| 0 <= j < |p| && IsAsciiDigit(p[j]);
    assert Server.PyIsDigit(p[j]);
  }

  /** Outside ASCII the two rules part: the page counts UTF-16 units, so a
      password of five code points, three of them outside the BMP, passes on
      the page and is refused by the server. */
  lemma AstralPasswordSplitsRules()
    ensures var p := "A1\U{1F600}\U{1F600}\U{1F600}";
      ClientPasswordRule(p) && !Server.ServerPasswordRule(p)
  {
    var p := "A1\U{1F600}\U{1F600}\U{1F600}";
    assert IsAsciiUpper(p[0]) && IsAsciiDigit(p[1]);
    assert Utf16Length(p) == 8;
  }
}
