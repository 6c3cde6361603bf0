# Authentication core of the ClassClear server

This project models the authentication core of the ClassClear Express server
(`server/server.js`): one `users` table keyed by email, a session slot that passport
writes on login, and four ways in.

- `POST /signup` checks the table for the email. It then hashes the password with bcrypt,
  inserts a row and logs the new user in. Each step has its own HTTP status and message.
- `POST /login` runs the `local` passport strategy and maps its `(err, user)` callback to
  200, 401 or 500.
- The Discord and Google strategies find the row for the profile's email, or create one with
  the provider's filler password.
- The two `/auth/<provider>/redirect` handlers relay the strategy's result to the opener
  window. They post an `AUTH_SUCCESS` or `AUTH_FAILURE` message to `http://localhost:5173`
  and close the popup.

Session serialisation is the identity function, and the session cookie lives for one day.

The model is a sequential state machine. Class `AuthServer.Server` holds the row sequence, the
next serial id and the session. Its methods `Signup`, `Login`, `DiscordVerify`, `GoogleVerify`
and `Redirect` change that state as the handlers do. The pure parts are functions, with lemmas
about them:

- the `local` strategy (`Passport.LocalVerify`);
- the `/login` response mapping (`Responses.LoginResponse`);
- the relay page (`Responses.Relay`);
- serialisation (`Passport.SerializeUser` / `DeserializeUser`).

The invariant "at most one row per present email" is part of `Server.Valid()`. Every creating method
keeps it, because it inserts only after a lookup for that email returned no rows
(`UserTable.InsertAbsentKeepsInvariant`).

External outcomes are parameters:

- Each database query has a `...Fails` flag. A failing query leaves the table unchanged.
- `bcrypt.hash` is a `HashResult`: `HashFailed`, or `Hashed(digest)`.
- `bcrypt.compare` is a function `Compare` from (password, stored digest) to
  `CompareError | Compared(valid)`.
- `req.logIn` / `req.login` success is a flag.
- The filler passwords are constants of the server, read from the environment in the source.

Some behaviours of the code are easy to misread:

- An unknown email at `/login` gives 500 "An error occurred during login", not 401. The local
  strategy reports it as an error (`cb("User not found")`). A wrong password gives 401.
  `Responses.LoginUnknownEmailVersusWrongPassword` states both.
- A database error in the Discord or Google strategy is passed in the *user* slot
  (`cb(null, err)`). The relay tests only `err || !user`, so it reports such an error as
  `AUTH_SUCCESS` and logs the error object in as the session user.
  `Responses.RelayReportsDbErrorAsSuccess` and `AuthServer.FederatedDbErrorRelaysSuccess`
  state this.
- A hashing or storage failure leaves no row. A failure of `req.login` after the insert,
  however, leaves the new row in place and answers 500 "Error logging in".
- An email can be missing: `/signup` reads it from the body unchecked, and a Discord profile
  may have no email. pg sends the missing value as NULL, and `email=$1` matches no row for
  NULL. The model's `Email` is therefore `Option<string>`, with `None` for NULL. Such a
  request always reaches the INSERT: a Discord login without an email adds another
  NULL-email row every time (`AuthServer.FederatedMissingEmailAddsRowEachTime`). If the
  column rejects NULL, the insert fails instead, which is the `insertFails` case.
  "One row per email" therefore holds for present emails only.
- passport-local refuses an empty or missing email or password before the verify function
  runs. Such a request gets 401 "Invalid credentials" (`Passport.LocalStrategy`).

## Model

| member | source | states |
|---|---|---|
| `UserTable.Select` | server/server.js:72-74 | The lookup returns exactly the stored rows whose email equals the query, none for a NULL query, and no more rows than the table holds |
| `UserTable.SelectEmptyIffAbsent` | server/server.js:232 | A lookup returns zero rows if and only if the email is NULL or no row holds it |
| `UserTable.SelectAtMostOne` | server/server.js:193-194 | While emails are unique, a lookup returns at most one row, so `rows[0]` is the only match |
| `UserTable.SelectStoredRow` | server/server.js:188-194 | While emails are unique, looking up a stored row's email returns exactly that row |
| `UserTable.SelectAppend` | server/server.js:85-88 | Appending a row adds it to the lookup for its own email and changes no other lookup |
| `UserTable.InsertAbsentKeepsInvariant` | server/server.js:76-88 | Inserting after a lookup found nothing keeps present emails unique and ids distinct. The new row is then the only match for a present email, and a NULL email still matches nothing |
| `Passport.LocalVerify` | server/server.js:184-213 | The local verify yields a row only if that row is stored under the email and bcrypt accepted the password. It yields `false` only when a stored row's compare said no. It reports "User not found" exactly when no row holds the email, and a query error exactly when the lookup threw. It never puts an error in the user slot |
| `Passport.LocalStrategy` | server/server.js:186 | With `usernameField: "email"`, an empty email or password fails as `(null, false)` before any lookup; otherwise the verify function decides |
| `Passport.LocalVerifyOutcomes` | server/server.js:193-209 | For a stored email under unique emails, the outcome is the row on a match, `false` on a mismatch and an error when the compare fails |
| `Passport.SessionRoundTrip` | server/server.js:283-289 | Deserialising a serialised user gives back the same value |
| `Passport.SessionMaxAgeIsOneDay` | server/server.js:24-26 | The session cookie maxAge is 86,400,000 ms, one day |
| `Responses.LoginResponse` | server/server.js:49-63 | The response is always one of four. It is 500 "An error occurred during login" exactly when `err` is set, and 401 "Invalid credentials" exactly when there is no error and the user is falsy. With a truthy user it is 500 "Failed to log in" when `req.logIn` fails and 200 "Login successful" otherwise |
| `Responses.LoginUnknownEmailVersusWrongPassword` | server/server.js:200-208 | At `/login` an unknown email gives 500 while a wrong password for a stored email gives 401 |
| `Responses.LoginSucceedsIffPasswordMatches` | server/server.js:48-65 | `/login` answers 200 exactly when both fields are non-empty, the lookup works, a stored row for the email has a digest bcrypt accepts, and the session login succeeds |
| `Responses.Relay` | server/server.js:111-142 | The relay page always targets `http://localhost:5173` and closes the window. It posts `AUTH_FAILURE` exactly when `err` is set, the user is falsy or `req.logIn` fails. Otherwise it posts `AUTH_SUCCESS` carrying the callback's user |
| `Responses.RelayReportsDbErrorAsSuccess` | server/server.js:239-241 | A database error passed as the user is relayed as `AUTH_SUCCESS` carrying that error |
| `AuthServer.Server.constructor` | server/server.js:30-38 | A server connects to an existing table: any rows satisfying the invariant, with any next serial id above theirs. It starts with no session and the two providers' filler passwords |
| `AuthServer.Server.LogIn` | server/server.js:283-285 | A successful login stores the serialised user in the session, which deserialises to that user. A failed one leaves the session as it was |
| `AuthServer.Server.Insert` | server/server.js:85-88 | `INSERT ... RETURNING *` appends the row with the next id, keeps the invariant and returns the stored row, which a later lookup of a present email finds alone |
| `AuthServer.Server.CreateUser` | server/server.js:79-101 | The `bcrypt.hash` callback: a hash or insert failure gives 500 "Error creating user" with nothing changed. Otherwise it appends exactly the row `(next id, email, digest)` and keeps the invariant. A session login failure then gives 500 "Error logging in" with the session untouched, and success gives 200 "Signup successful" with the new row as the session user |
| `AuthServer.Server.Signup` | server/server.js:67-107 | A lookup failure gives 500 "Server error" and a known email 400 "Email already exists", both with nothing changed. A hash or insert failure gives 500 "Error creating user" with nothing stored. Otherwise exactly one row `(next id, email, digest)` is appended: a session login failure then gives 500 "Error logging in" with the session untouched, and success gives 200 "Signup successful" with the new row as the session user. One row per email is kept throughout |
| `AuthServer.Server.Login` | server/server.js:48-65 | `/login` answers `LoginResponse` of the local strategy run on the current table, and only a 200 writes the session, with the strategy's user |
| `AuthServer.Server.DiscordVerify` | server/server.js:225-248 | Never sets `err`. An email with no row gets exactly one new row with the Discord filler password, which is returned. An email with a row gets that row back unchanged and nothing inserted. Either query failing puts the error in the user slot and changes nothing |
| `AuthServer.Server.GoogleVerify` | server/server.js:262-279 | The same find-or-create as Discord, with the Google filler password. Any error is caught by the one `try` and passed as the user |
| `AuthServer.Server.Redirect` | server/server.js:151-182 | The page sent is `Relay` of the callback. The session is written with the callback's user exactly on `AUTH_SUCCESS` and left alone on `AUTH_FAILURE` |
| `AuthServer.SignupThenLogin` | server/server.js:89-94 | On any valid server whose table lacks the email, signup answers 200 and appends exactly the row `(next id, email, digest)`. A login with the same credentials then answers 200 and leaves that row as the session user, provided bcrypt accepts the password against the stored digest |
| `AuthServer.SignupTwice` | server/server.js:72-77 | A second signup for an email answers 400 and leaves the first row, and its digest, as the only row |
| `AuthServer.FederatedLoginsShareOneRow` | server/server.js:227-243 | Repeated federated logins for one email, Discord then Google, create one row and all relay `AUTH_SUCCESS` with that same row. Accounts are linked by email across providers |
| `AuthServer.FederatedMissingEmailAddsRowEachTime` | server/server.js:227-238 | Two Discord logins without an email each insert a new NULL-email row and each relay `AUTH_SUCCESS` with its own new row |
| `AuthServer.FederatedDbErrorRelaysSuccess` | server/server.js:276-277 | A failed lookup in the Google strategy ends in `AUTH_SUCCESS` with the error object as user, and the session holds that error object |

## Left out

- bcrypt: hashing and comparison are parameters. The model does not assume that `compare(p, hash(p))` holds; `AuthServer.SignupThenLogin` takes it as a hypothesis. `saltRounds` (read from the environment) is not modelled.
- Concurrency: requests are modelled one after another. The check-then-insert steps of `/signup` and of both federated strategies are not atomic in the source. Under interleaving, two requests for the same new email can both pass the lookup. Whether a second row then appears depends on a unique constraint in the database schema, which is not part of this model.
- `AuthServer.Server.Signup`: the `password` argument only reaches bcrypt; the digest it produces is the `hash` parameter.
- AuthServer.Server.Signup, DiscordVerify and GoogleVerify leave `nextId` unchanged when the INSERT fails. In PostgreSQL a serial value drawn by a failed INSERT is not given back, so the next real id may be higher. Ids stay distinct either way; only their values differ.
- AuthServer.Server.constructor takes the existing rows and the next serial id as given. The `users` schema is not part of the source: the model assumes a serial `id` above every stored id, and present emails that are unique. The scenario methods start from an empty table whose ids start at 1.
- `AuthServer.Server.LogIn`: passport's session manager is library code. The model writes the serialised user on success and leaves the session untouched on failure. It does not model session regeneration or clearing `req.user`.
- There is one session slot, that of the request being served. Per-browser sessions, cookie signing and the session store are not modelled.
- Session expiry: only the maxAge constant is modelled. The store's clock and eviction are library behaviour.
- OAuth: the redirect to the provider, the token exchange and the profile fetch (`GET /auth/discord`, `GET /auth/google`) are library calls. Their failure is the `ProviderFailed` error a strategy may hand to `Redirect`.
- Relay page text: only the message type, its payload, the target origin and the closing of the window are modelled, not the HTML/JavaScript string.
- The Apple strategy is imported but never registered. Environment loading, `db.connect()`, the middleware set-up and `app.listen` are I/O plumbing.
- The React client (login page, sign-up form, course pages) is UI code and is not part of this model.
