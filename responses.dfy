/** What the handlers send back: the JSON status responses of `/login` and `/signup`, and the
    page the two `/auth/<provider>/redirect` handlers render into the popup window. */
module Responses {
  import opened UserTable
  import opened Passport

  /** `res.status(status).json({ message })`. */
  datatype Response = Response(status: nat, message: string)

  const LoginError := Response(500, "An error occurred during login")
  const InvalidCredentials := Response(401, "Invalid credentials")
  const FailedToLogIn := Response(500, "Failed to log in")
  const LoginSuccessful := Response(200, "Login successful")

  const ServerError := Response(500, "Server error")
  const EmailExists := Response(400, "Email already exists")
  const ErrorCreatingUser := Response(500, "Error creating user")
  const ErrorLoggingIn := Response(500, "Error logging in")
  const SignupSuccessful := Response(200, "Signup successful")

  /** The custom callback of `/login`: an error is a 500, a falsy user a 401, and otherwise
      the outcome of `req.logIn` decides between 500 and 200. `logInFails` is consulted only
      when `req.logIn` is reached. */
  function LoginResponse(cb: Callback, logInFails: bool): (r: Response)
    ensures r in {LoginError, InvalidCredentials, FailedToLogIn, LoginSuccessful}
    ensures r == LoginError <==> cb.err.Some?
    ensures r == InvalidCredentials <==> cb.err.None? && !Truthy(cb.user)
    ensures r == FailedToLogIn <==> cb.err.None? && Truthy(cb.user) && logInFails
    ensures r == LoginSuccessful <==> cb.err.None? && Truthy(cb.user) && !logInFails
  {
    if cb.err.Some? then LoginError
    else if !Truthy(cb.user) then InvalidCredentials
    else if logInFails then FailedToLogIn
    else LoginSuccessful
  }

  /** A wrong password is a 401 but an unknown email is a 500: the local strategy reports the
      first as a falsy user and the second as an error. */
  lemma LoginUnknownEmailVersusWrongPassword(rows: seq<Row>, email: string, password: string, compare: Compare, logInFails: bool)
    requires UniqueEmails(rows)
    requires email != [] && password != []
    ensures !HasEmail(rows, Some(email)) ==>
              LoginResponse(LocalStrategy(rows, Some(email), Some(password), false, compare), logInFails) == LoginError
    ensures forall r :: r in rows && r.email == Some(email) && compare(password, r.password) == Compared(false) ==>
              LoginResponse(LocalStrategy(rows, Some(email), Some(password), false, compare), logInFails) == InvalidCredentials
  {
    forall r | r in rows && r.email == Some(email) && compare(password, r.password) == Compared(false)
      ensures LoginResponse(LocalStrategy(rows, Some(email), Some(password), false, compare), logInFails) == InvalidCredentials
    {
      LocalVerifyOutcomes(rows, r, password, compare);
    }
  }

  /** `/login` succeeds exactly when the stored digest of the email's row matches and the
      session login succeeds; every other input is refused with one of the three failures. */
  lemma LoginSucceedsIffPasswordMatches(rows: seq<Row>, email: Option<string>, password: Option<string>, selectFails: bool, compare: Compare, logInFails: bool)
    requires UniqueEmails(rows)
    ensures LoginResponse(LocalStrategy(rows, email, password, selectFails, compare), logInFails) == LoginSuccessful <==>
              Filled(email) && Filled(password) && !selectFails && !logInFails &&
              exists r :: r in rows && r.email == email && compare(password.value, r.password) == Compared(true)
  {
    if Filled(email) && Filled(password) && !selectFails && !logInFails &&
       exists r :: r in rows && r.email == email && compare(password.value, r.password) == Compared(true)
    {
      var r :| r in rows && r.email == email && compare(password.value, r.password) == Compared(true);
      LocalVerifyOutcomes(rows, r, password.value, compare);
    }
  }

  /** The opener window every relay page posts to. */
  const TrustedOrigin := "http://localhost:5173"

  /** The two message shapes the relay posts with `window.opener.postMessage`. */
  datatype RelayMessage = AuthSuccess(user: JsUser) | AuthFailure

  /** The script a redirect handler sends: one message, its target origin, and whether the
      popup then closes itself. */
  datatype RelayPage = RelayPage(message: RelayMessage, targetOrigin: string, closesWindow: bool)

  /** The custom callback of `/auth/discord/redirect` and `/auth/google/redirect`. It tests only
      `err || !user`, then the outcome of `req.logIn`. */
  function Relay(cb: Callback, logInFails: bool): (page: RelayPage)
    ensures page.targetOrigin == TrustedOrigin && page.closesWindow
    ensures page.message == AuthFailure <==> cb.err.Some? || !Truthy(cb.user) || logInFails
    ensures page.message.AuthSuccess? ==> page.message.user == cb.user
  {
    if cb.err.Some? || !Truthy(cb.user) then RelayPage(AuthFailure, TrustedOrigin, true)
    else if logInFails then RelayPage(AuthFailure, TrustedOrigin, true)
    else RelayPage(AuthSuccess(cb.user), TrustedOrigin, true)
  }

  /** A database error that a federated strategy hands over in the user slot is reported to the
      opener as a success carrying that error. */
  lemma RelayReportsDbErrorAsSuccess(e: AuthError)
    ensures Relay(Callback(None, ErrorUser(e)), false).message == AuthSuccess(ErrorUser(e))
  {
  }
}
