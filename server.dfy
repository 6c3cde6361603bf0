/** The authentication server as a sequential state machine: the `users` table, the next value of
    its serial id, and the session of the request being served. Each handler runs to completion
    before the next starts; database and bcrypt outcomes are parameters. */
module AuthServer {
  import opened UserTable
  import opened Passport
  import opened Responses

  /** Outcome of `bcrypt.hash(password, saltRounds, (err, hash) => ...)`. */
  datatype HashResult = HashFailed | Hashed(digest: string)

  class Server {
    var rows: seq<Row>
    var nextId: nat
    /** The session passport writes on `req.login`, holding the serialized user. */
    var session: Option<SessionRecord>
    /** `DISCORD_FILLER_PASSWORD` and `GOOGLE_FILLER_PASSWORD` from the environment. */
    const discordFiller: string
    const googleFiller: string

    ghost predicate Valid()
      reads this
    {
      TableInvariant(rows, nextId)
    }

    /** A server connected to a `users` table that already holds `rows`, whose id sequence
        will hand out `nextId` next; no session yet. */
    constructor (rows: seq<Row>, nextId: nat, discordFiller: string, googleFiller: string)
      requires TableInvariant(rows, nextId)
      ensures Valid()
      ensures this.rows == rows && this.nextId == nextId && session == None
      ensures this.discordFiller == discordFiller && this.googleFiller == googleFiller
    {
      this.rows := rows;
      this.nextId := nextId;
      session := None;
      this.discordFiller := discordFiller;
      this.googleFiller := googleFiller;
    }

    /** `req.login(user, cb)` / `req.logIn(user, cb)`: on success the serialized user becomes
        the session's identity. */
    method LogIn(user: JsUser, fails: bool) returns (ok: bool)
      modifies this`session
      ensures ok == !fails
      ensures session == if ok then Some(SerializeUser(user)) else old(session)
      ensures ok ==> DeserializeUser(session.value) == user
    {
      ok := !fails;
      if ok {
        session := Some(SerializeUser(user));
        SessionRoundTrip(user);
      }
    }

    /** `INSERT INTO users (email, password) VALUES ($1, $2) RETURNING *`. */
    method Insert(email: Email, password: string) returns (row: Row)
      requires Valid()
      requires !HasEmail(rows, email)
      modifies this`rows, this`nextId
      ensures Valid()
      ensures row == NewRow(old(nextId), email, password)
      ensures rows == old(rows) + [row] && nextId == old(nextId) + 1
      ensures Select(rows, email) == if email.Some? then [row] else []
    {
      InsertAbsentKeepsInvariant(rows, nextId, email, password);
      row := NewRow(nextId, email, password);
      rows := rows + [row];
      nextId := nextId + 1;
    }

    /** The callback `bcrypt.hash` runs for `/signup`: on a hash or insert failure answer
        "Error creating user" with nothing stored; otherwise store the row and log it in. */
    method CreateUser(email: Email, hash: HashResult, insertFails: bool, logInFails: bool)
      returns (resp: Response)
      requires Valid()
      requires !HasEmail(rows, email)
      modifies this`rows, this`nextId, this`session
      ensures Valid()
      ensures hash.HashFailed? || insertFails ==> resp == ErrorCreatingUser && unchanged(this)
      ensures hash.Hashed? && !insertFails ==>
                var row := NewRow(old(nextId), email, hash.digest);
                rows == old(rows) + [row] && nextId == old(nextId) + 1 &&
                (email.Some? ==> Select(rows, email) == [row]) &&
                resp == (if logInFails then ErrorLoggingIn else SignupSuccessful) &&
                session == (if logInFails then old(session) else Some(SerializeUser(RowUser(row))))
    {
      if hash.HashFailed? {
        return ErrorCreatingUser;
      }
      if insertFails {
        return ErrorCreatingUser;
      }
      var row := Insert(email, hash.digest);
      var ok := LogIn(RowUser(row), logInFails);
      if !ok {
        return ErrorLoggingIn;
      }
      return SignupSuccessful;
    }

    /** `POST /signup`: refuse a known email with 400; otherwise hash, insert and log in, each
        failure mapped to its own 500. The email is not checked: a missing one finds no row and
        goes on to the insert. The password only reaches bcrypt, whose outcome is `hash`. */
    method Signup(email: Email, password: Option<string>, selectFails: bool, hash: HashResult, insertFails: bool, logInFails: bool)
      returns (resp: Response)
      requires Valid()
      modifies this`rows, this`nextId, this`session
      ensures Valid()
      ensures selectFails ==> resp == ServerError && unchanged(this)
      ensures !selectFails && HasEmail(old(rows), email) ==> resp == EmailExists && unchanged(this)
      ensures !selectFails && !HasEmail(old(rows), email) && hash.HashFailed? ==>
                resp == ErrorCreatingUser && unchanged(this)
      ensures !selectFails && !HasEmail(old(rows), email) && hash.Hashed? && insertFails ==>
                resp == ErrorCreatingUser && unchanged(this)
      ensures !selectFails && !HasEmail(old(rows), email) && hash.Hashed? && !insertFails ==>
                var row := NewRow(old(nextId), email, hash.digest);
                rows == old(rows) + [row] && nextId == old(nextId) + 1 &&
                (email.Some? ==> Select(rows, email) == [row]) &&
                resp == (if logInFails then ErrorLoggingIn else SignupSuccessful) &&
                session == (if logInFails then old(session) else Some(SerializeUser(RowUser(row))))
    {
      if selectFails {
        return ServerError;
      }
      var checkResult := Select(rows, email);
      if |checkResult| > 0 {
        return EmailExists;
      }
      resp := CreateUser(email, hash, insertFails, logInFails);
    }

    /** `POST /login`: run the local strategy against the table, then map its callback. */
    method Login(email: Option<string>, password: Option<string>, selectFails: bool, compare: Compare, logInFails: bool)
      returns (resp: Response)
      requires Valid()
      modifies this`session
      ensures resp == LoginResponse(LocalStrategy(rows, email, password, selectFails, compare), logInFails)
      ensures resp == LoginSuccessful ==>
                session == Some(SerializeUser(LocalStrategy(rows, email, password, selectFails, compare).user))
      ensures resp != LoginSuccessful ==> session == old(session)
    {
      var cb := LocalStrategy(rows, email, password, selectFails, compare);
      if cb.err.Some? {
        return LoginError;
      }
      if !Truthy(cb.user) {
        return InvalidCredentials;
      }
      var ok := LogIn(cb.user, logInFails);
      if !ok {
        return FailedToLogIn;
      }
      return LoginSuccessful;
    }

    /** The Discord verify function: look the profile's email up; insert a row with the Discord
        filler when there is none; reuse the row when there is one. A failed query is caught
        and passed on as the user (`cb(null, err)`), not as the error. A profile without an
        email looks up NULL, finds nothing, and so always reaches the insert. */
    method DiscordVerify(email: Email, selectFails: bool, insertFails: bool) returns (cb: Callback)
      requires Valid()
      modifies this`rows, this`nextId
      ensures Valid()
      ensures cb.err == None
      ensures selectFails ==> cb.user == ErrorUser(QueryFailed) && unchanged(this)
      ensures !selectFails && HasEmail(old(rows), email) ==>
                cb.user == RowUser(Select(old(rows), email)[0]) && unchanged(this)
      ensures !selectFails && !HasEmail(old(rows), email) && insertFails ==>
                cb.user == ErrorUser(QueryFailed) && unchanged(this)
      ensures !selectFails && !HasEmail(old(rows), email) && !insertFails ==>
                var row := NewRow(old(nextId), email, discordFiller);
                rows == old(rows) + [row] && nextId == old(nextId) + 1 && cb.user == RowUser(row)
    {
      if selectFails {
        return Callback(None, ErrorUser(QueryFailed));
      }
      var found := Select(rows, email);
      if |found| == 0 {
        if insertFails {
          return Callback(None, ErrorUser(QueryFailed));
        }
        var row := Insert(email, discordFiller);
        return Callback(None, RowUser(row));
      } else {
        cb := Callback(None, RowUser(found[0]));
      }
    }

    /** The Google verify function: the same find-or-create with the Google filler, under a
        single try whose catch passes the error as the user. */
    method GoogleVerify(email: Email, selectFails: bool, insertFails: bool) returns (cb: Callback)
      requires Valid()
      modifies this`rows, this`nextId
      ensures Valid()
      ensures cb.err == None
      ensures selectFails ==> cb.user == ErrorUser(QueryFailed) && unchanged(this)
      ensures !selectFails && HasEmail(old(rows), email) ==>
                cb.user == RowUser(Select(old(rows), email)[0]) && unchanged(this)
      ensures !selectFails && !HasEmail(old(rows), email) && insertFails ==>
                cb.user == ErrorUser(QueryFailed) && unchanged(this)
      ensures !selectFails && !HasEmail(old(rows), email) && !insertFails ==>
                var row := NewRow(old(nextId), email, googleFiller);
                rows == old(rows) + [row] && nextId == old(nextId) + 1 && cb.user == RowUser(row)
    {
      if selectFails {
        return Callback(None, ErrorUser(QueryFailed));
      }
      var result := Select(rows, email);
      if |result| == 0 {
        if insertFails {
          return Callback(None, ErrorUser(QueryFailed));
        }
        var newUser := Insert(email, googleFiller);
        return Callback(None, RowUser(newUser));
      }
      return Callback(None, RowUser(result[0]));
    }

    /** A `/auth/<provider>/redirect` handler: relay the strategy's callback to the opener,
        logging the user in first when the callback carries a truthy user and no error. */
    method Redirect(cb: Callback, logInFails: bool) returns (page: RelayPage)
      modifies this`session
      ensures page == Relay(cb, logInFails)
      ensures page.message.AuthSuccess? ==> session == Some(SerializeUser(cb.user))
      ensures page.message == AuthFailure ==> session == old(session)
    {
      if cb.err.Some? || !Truthy(cb.user) {
        return RelayPage(AuthFailure, TrustedOrigin, true);
      }
      var ok := LogIn(cb.user, logInFails);
      if !ok {
        return RelayPage(AuthFailure, TrustedOrigin, true);
      }
      return RelayPage(AuthSuccess(cb.user), TrustedOrigin, true);
    }
  }

  /** Signup followed by login with the same credentials, on any server whose table lacks the
      email: both succeed when bcrypt's comparison accepts the password against the digest the
      signup stored, and the table gains exactly that one row. */
  method SignupThenLogin(s: Server, email: string, password: string, digest: string, compare: Compare)
    returns (signup: Response, login: Response)
    requires s.Valid() && !HasEmail(s.rows, Some(email))
    requires email != [] && password != []
    requires compare(password, digest) == Compared(true)
    modifies s
    ensures s.Valid()
    ensures signup == SignupSuccessful && login == LoginSuccessful
    ensures s.rows == old(s.rows) + [NewRow(old(s.nextId), Some(email), digest)]
    ensures s.session == Some(SerializeUser(RowUser(NewRow(old(s.nextId), Some(email), digest))))
  {
    signup := s.Signup(Some(email), Some(password), false, Hashed(digest), false, false);
    SelectStoredRow(s.rows, NewRow(old(s.nextId), Some(email), digest));
    login := s.Login(Some(email), Some(password), false, compare, false);
  }

  /** A second signup for an email is refused and leaves the first row's digest alone (here on
      an empty table whose ids start at 1). */
  method SignupTwice(email: string, first: string, second: string)
    returns (resp: Response, stored: seq<Row>)
    ensures resp == EmailExists
    ensures stored == [NewRow(1, Some(email), first)]
  {
    var server := new Server([], 1, "discord-filler", "google-filler");
    var _ := server.Signup(Some(email), Some("pw"), false, Hashed(first), false, false);
    resp := server.Signup(Some(email), Some("pw"), false, Hashed(second), false, false);
    stored := server.rows;
  }

  /** Two Discord logins and then a Google login for one new email, on an empty table whose ids
      start at 1: the first creates the only row, and the later ones (whatever the provider)
      return that same row. */
  method FederatedLoginsShareOneRow(email: string) returns (first: RelayPage, second: RelayPage, third: RelayPage, stored: seq<Row>)
    ensures stored == [NewRow(1, Some(email), "discord-filler")]
    ensures first == second == third == RelayPage(AuthSuccess(RowUser(stored[0])), TrustedOrigin, true)
  {
    var server := new Server([], 1, "discord-filler", "google-filler");
    var cb := server.DiscordVerify(Some(email), false, false);
    first := server.Redirect(cb, false);
    cb := server.DiscordVerify(Some(email), false, false);
    second := server.Redirect(cb, false);
    cb := server.GoogleVerify(Some(email), false, false);
    third := server.Redirect(cb, false);
    stored := server.rows;
  }

  /** A Discord profile without an email: the NULL lookup finds nothing, so every login inserts
      another row with a NULL email and relays success with that fresh row. */
  method FederatedMissingEmailAddsRowEachTime() returns (first: RelayPage, second: RelayPage, stored: seq<Row>)
    ensures stored == [NewRow(1, None, "discord-filler"), NewRow(2, None, "discord-filler")]
    ensures first.message == AuthSuccess(RowUser(stored[0]))
    ensures second.message == AuthSuccess(RowUser(stored[1]))
  {
    var server := new Server([], 1, "discord-filler", "google-filler");
    var cb := server.DiscordVerify(None, false, false);
    first := server.Redirect(cb, false);
    cb := server.DiscordVerify(None, false, false);
    second := server.Redirect(cb, false);
    stored := server.rows;
  }

  /** A failed lookup in a federated strategy still ends in AUTH_SUCCESS, with the error object
      as the user, and that error object becomes the session's identity. */
  method FederatedDbErrorRelaysSuccess(email: string) returns (page: RelayPage, session: Option<SessionRecord>)
    ensures page.message == AuthSuccess(ErrorUser(QueryFailed))
    ensures session == Some(SessionRecord(ErrorUser(QueryFailed)))
  {
    var server := new Server([], 1, "discord-filler", "google-filler");
    var cb := server.GoogleVerify(Some(email), true, false);
    page := server.Redirect(cb, false);
    session := server.session;
  }
}
