/** The values that travel through passport's `(err, user)` verify callbacks, the server's
    `local` strategy, and the session serialisation. bcrypt is not modelled: a comparison is a
    function handed in by the caller, so every branch on its outcome stays reachable. */
module Passport {
  import opened UserTable

  /** What can stand in the `err` slot, or be caught as an exception. */
  datatype AuthError =
    | UserNotFound     // the string "User not found" of the local strategy
    | CompareFailed    // bcrypt.compare reported an error
    | QueryFailed      // a db.query call threw
    | ProviderFailed   // the OAuth strategy itself failed (token exchange, profile fetch)

  /** What can stand in the `user` slot: `false`, a row, or (in the federated strategies) the
      caught database error object. */
  datatype JsUser =
    | NoUser
    | RowUser(row: Row)
    | ErrorUser(error: AuthError)

  /** JavaScript truthiness of the `user` slot: only `false` is falsy. */
  predicate Truthy(u: JsUser) {
    !u.NoUser?
  }

  /** The arguments a verify function passes to passport's `cb`, and passport on to the route's
      custom callback. */
  datatype Callback = Callback(err: Option<AuthError>, user: JsUser)

  /** Outcome of `bcrypt.compare(password, stored, (err, valid) => ...)`. */
  datatype CompareResult = CompareError | Compared(valid: bool)

  type Compare = (string, string) -> CompareResult

  /** The `local` verify function: look the email up, compare the password with the first row's
      stored digest, and report the row, `false`, or an error. passport-local calls it only
      with a non-empty email and password. */
  function LocalVerify(rows: seq<Row>, email: string, password: string, selectFails: bool, compare: Compare): (cb: Callback)
    ensures !cb.user.ErrorUser?
    ensures cb.err.Some? ==> cb.user.NoUser?
    ensures cb.err == Some(QueryFailed) <==> selectFails
    ensures cb.err == Some(UserNotFound) <==> !selectFails && !HasEmail(rows, Some(email))
    ensures cb.user.RowUser? ==>
              !selectFails && cb.user.row in rows && cb.user.row.email == Some(email) &&
              compare(password, cb.user.row.password) == Compared(true)
    ensures cb == Callback(None, NoUser) ==>
              exists r :: r in rows && r.email == Some(email) && compare(password, r.password) == Compared(false)
  {
    if selectFails then Callback(Some(QueryFailed), NoUser)
    else
      var found := Select(rows, Some(email));
      if |found| > 0 then
        assert found[0] in found;
        match compare(password, found[0].password)
        case CompareError => Callback(Some(CompareFailed), NoUser)
        case Compared(valid) =>
          if valid then Callback(None, RowUser(found[0])) else Callback(None, NoUser)
      else Callback(Some(UserNotFound), NoUser)
  }

  /** JavaScript truthiness of a request-body field: present and not the empty string. */
  predicate Filled(field: Option<string>) {
    field.Some? && field.value != []
  }

  /** passport-local in front of the verify function: an empty or missing email or password is
      a failure (`cb(null, false)`) before any lookup happens. */
  function LocalStrategy(rows: seq<Row>, email: Option<string>, password: Option<string>, selectFails: bool, compare: Compare): (cb: Callback)
    ensures !Filled(email) || !Filled(password) ==> cb == Callback(None, NoUser)
    ensures Filled(email) && Filled(password) ==> cb == LocalVerify(rows, email.value, password.value, selectFails, compare)
  {
    if !Filled(email) || !Filled(password) then Callback(None, NoUser)
    else LocalVerify(rows, email.value, password.value, selectFails, compare)
  }

  /** With one row per email, the local strategy has exactly the four outcomes of the source:
      the row on a match, `false` on a mismatch, an error on a failed compare, and
      "User not found" when no row holds the email. */
  lemma LocalVerifyOutcomes(rows: seq<Row>, row: Row, password: string, compare: Compare)
    requires UniqueEmails(rows)
    requires row in rows && row.email.Some?
    ensures LocalVerify(rows, row.email.value, password, false, compare) ==
              match compare(password, row.password)
              case CompareError => Callback(Some(CompareFailed), NoUser)
              case Compared(valid) => if valid then Callback(None, RowUser(row)) else Callback(None, NoUser)
  {
    SelectStoredRow(rows, row);
  }

  /** What `serializeUser` writes into the session store (`req.session.passport.user`). */
  datatype SessionRecord = SessionRecord(passportUser: JsUser)

  /** `serializeUser((user, cb) => cb(null, user))`: the whole value is kept. */
  function SerializeUser(u: JsUser): SessionRecord {
    SessionRecord(u)
  }

  /** `deserializeUser((user, cb) => cb(null, user))`: the stored value comes back as it is,
      with no fresh lookup in the table. */
  function DeserializeUser(s: SessionRecord): JsUser {
    s.passportUser
  }

  lemma SessionRoundTrip(u: JsUser)
    ensures DeserializeUser(SerializeUser(u)) == u
  {
  }

  /** `cookie: { maxAge: 1000 * 60 * 60 * 24 }`, in milliseconds. */
  const SessionMaxAgeMs: nat := 1000 * 60 * 60 * 24

  lemma SessionMaxAgeIsOneDay()
    ensures SessionMaxAgeMs == 86_400_000
    ensures SessionMaxAgeMs == 24 * 60 * 60 * 1000
  {
  }
}
