# Verified model of a small authentication backend

The repository holds several variants of one username/email/password
backend. Each is a set of HTTP handlers making a few decisions over a user
table: is the email (or username) taken, does a record match the
credentials, which status code and message are returned, and which fields
of the record are exposed. This project models those decisions in Dafny,
one module per source file, and proves what each variant actually does.

Shared pieces:

- `Users`: the record `{id, username, email, password}`, the store's
  queries as functions over the model's sequence of records
  (`FirstByEmail`, `FirstByUsername`, `FindById`, each returning the first
  hit in that sequence, as `findOne` and `where(...).get()` followed by
  `docs[0]` return one match), and the
  `UserStore` class, whose `Add` is the one write (`add` / `save`) and
  hands out a fresh id.
- `Hasher`: bcrypt as a deterministic stand-in: `Verify(p, Hash(p))`
  holds and a digest is never the plaintext. The stand-in is also
  injective, which bcrypt is not (see "Left out").
- `Jwt`: a token holds its claims, issue time, expiry (issue time plus
  TTL) and whether its signature is valid. `Verify` checks the signature,
  then the expiry (`now >= exp` is expired). `Codec` is the compact string
  form. `Faithful` says that decoding an encoding gives the token back and
  that an encoding is a non-empty word without spaces.
- `Header`: JavaScript's `header.split(' ')[1]`.
- `Http`: responses `(status, body)` and the request bodies.

Variants:

- `FirestoreApp` (app.js): the `authenticateToken` middleware (401 for no
  token, 403 for a rejected one), `Register` (email check, then username
  check, then one write of the digest), `Login` (one merged message for an
  unknown email and a wrong password, a one-hour token with claims
  `{id, username, email}`), `Profile`/`GetProfile` and `ForgotPassword`
  (the same 200 whether or not the email is registered).
- `MemoryServer` (server.js): a `Server` class holding the single record,
  starting as John Doe. Register overwrites the whole record;
  change-password overwrites only the password.
- `AuthController` (controllers/authController.js), `NetlifyRegister`,
  `NetlifyLogin`, `NetlifyMe` (netlify/functions/): the Mongoose variants.
  They check only the email on register, report "Email tidak ditemukan"
  and "Password salah" separately, and issue one-day `{id}` tokens.
- `PlainApi` (api/index.js): stores and compares plaintext passwords, never
  refuses a registration, and returns the whole record on login.

How the environment appears in the model:

- Request time is a parameter `now` (seconds).
- A store failure is a parameter `outage: bool`: the store rejects the
  call and the handler's `catch` answers.
- An unparsable serverless body is `None`.

Behaviour of the code that the model keeps as written:

- app.js answers a bad login with 400.
- app.js answers a rejected token with 403, and a missing one with 401.
- The Mongoose variants answer a duplicate email with 400.
- The Mongoose variants do not check usernames.
- The Mongoose variants give an unknown email and a wrong password
  different messages.
- app.js also answers 403 to an Authorization header that is present but
  empty, because `authHeader && ...` short-circuits to `""`, which is not
  `null` and then fails verification (`FirestoreApp.EmptyHeaderIsForbidden`).

## Model

| member | source | states |
|---|---|---|
| Users.FirstWhere | controllers/authController.js:8 | `findOne(filter)`: nothing is found exactly when no record satisfies the filter; otherwise the result is the first record in the model's record sequence that does |
| Users.FirstByEmail | app.js:61-62 | the email query finds a record iff the email is taken, and what it finds is a stored record with that email |
| Users.FirstByUsername | app.js:66-67 | the username query finds a record iff the username is taken, and it is a stored record with that username |
| Users.FindById | app.js:150-152 | lookup by id is empty iff no record has that id, otherwise returns a stored record with that id |
| Users.FirstWhereAppend | app.js:79-84 | after appending a record, every earlier first hit stays; the new record is the first hit only when nothing before it matched |
| Users.FirstByEmailAfterAppend | app.js:79-84 | a record appended under an unused email is what the next email lookup finds |
| Users.FindByIdOfMember | app.js:150-156 | with ascending (hence unique) ids, looking a stored record up by its own id finds that record |
| Users.Public | app.js:132-136 | the projection keeps the record's id, username and email, and its type has no password field |
| Users.PublicIgnoresPassword | app.js:160-164 | the projection is the same whatever password the record holds |
| Users.UserStore.constructor | app.js:60 | a new store holds no records and satisfies the id invariant |
| Users.UserStore.Add | app.js:79-84 | exactly one record is appended, carrying the given fields and an id no earlier record has; ids stay ascending |
| Hasher.Hash | app.js:74-75 | a digest starts with the bcrypt marker `$2a$10$` |
| Hasher.Verify | controllers/authController.js:26 | `bcrypt.compare` matches only a digest carrying the bcrypt marker, and never the plaintext password itself |
| Hasher.VerifyHash | app.js:118 | `Verify(p, Hash(p))` |
| Hasher.VerifyOnlyOwnPassword | controllers/authController.js:26-27 | a stand-in digest verifies exactly its own password; bcrypt compares only the first 72 bytes (see "Left out") |
| Hasher.HashIsNotPlaintext | controllers/authController.js:11-12 | the stored digest is never the plaintext |
| Jwt.Sign | app.js:124-128 | a signed token carries the claims, is issued now, expires at now + TTL and has a valid signature |
| Jwt.Verify | app.js:44-48 | verification returns the claims iff the signature is valid and `now` is before the expiry; a bad signature is reported as such, an expired token as expired |
| Jwt.SignThenVerify | controllers/authController.js:29 | a freshly signed token yields its claims until issue time + TTL and is expired from then on |
| Jwt.VerifyCompact | netlify/functions/me.js:11 | an empty or unparsable token string is malformed; a non-empty string that parses is verified as the token it decodes to, so a success comes from a validly signed, unexpired token and returns its claims |
| Jwt.VerifyEncoded | netlify/functions/me.js:11 | for a faithful codec, verifying an encoded token is verifying the token |
| Header.SecondField | app.js:38 | `split(' ')[1]` is undefined iff the header has no space; otherwise it is the space-free text right after the first space, up to the next space or the end |
| Header.SecondFieldOfPair | netlify/functions/me.js:8 | for space-free words, `(a + " " + b).split(' ')[1] == b` |
| Header.BearerSecondField | app.js:38 | the token part of `Bearer <token>` is the token |
| FirestoreApp.TokenField | app.js:37-38 | `authHeader && authHeader.split(' ')[1]` is undefined iff the header is absent or is non-empty without a space; an empty header gives `""`; any other header gives its second space-separated field |
| FirestoreApp.AuthenticateToken | app.js:35-52 | 401 iff the header is absent or is non-empty without a space; 403 iff the extracted token fails verification; otherwise passes on exactly the verified claims |
| FirestoreApp.AuthenticateIssuedToken | app.js:37-51 | a validly signed token sent as `Bearer <token>` passes while unexpired and is a 403 afterwards |
| FirestoreApp.EmptyHeaderIsForbidden | app.js:37-47 | an empty Authorization header gets 403, not 401 |
| FirestoreApp.HeaderWithoutSpaceIsUnauthorized | app.js:37-42 | a non-empty header without a space gets 401 |
| FirestoreApp.Register | app.js:58-96 | a store failure gives 500; a taken email gives 409 "Email sudah terdaftar" before the username is looked at; a taken username gives 409 "Username sudah terdaftar"; every refusal leaves the store unchanged; otherwise exactly one record `{username, email, Hash(password)}` with a fresh id is added; email and username uniqueness are preserved |
| FirestoreApp.Login | app.js:99-143 | a missing or empty field gives 400 without reading the store; otherwise a store failure gives 500; otherwise the reply is a 200 or the single message "Email atau password salah"; 200 iff the first record with the email verifies the password, and then the body is its `{id, username, email}` with a one-hour token carrying those three claims |
| FirestoreApp.LoginFailuresAlike | app.js:110-121 | an unknown email and a wrong password produce the identical 400 reply |
| FirestoreApp.RegisterThenLogin | app.js:108-137 | after a record `{.., email, Hash(p)}` is added under an unused email, login with that email and `p` returns 200 with its projection and token |
| FirestoreApp.Profile | app.js:146-170 | 500 on a store failure; otherwise 404 iff no record has the token's id, and when one does, 200 with exactly the `{id, username, email}` of that record |
| FirestoreApp.GetProfile | app.js:146 | a refused token gets the middleware's own 401 or 403 reply and the store is not read; an accepted token gets the profile handler's answer for its claims; a 200 shows the record of the token's id |
| FirestoreApp.LoginThenProfile | app.js:124-165 | the token of a successful login opens the profile of the same record, with the same projection, for one hour, and gets 403 afterwards |
| FirestoreApp.ForgotPassword | app.js:174-195 | 400 iff the email is absent or empty; otherwise 500 on a store failure and else the same 200 notice |
| FirestoreApp.ForgotPasswordHidesRegistration | app.js:185-190 | the reply does not depend on which records are stored |
| MemoryServer.Server.constructor | server.js:11-15 | the initial record is John Doe, john@example.com, 123456 |
| MemoryServer.Server.Register | server.js:18-22 | the record becomes exactly the submitted `{nama, email, password}`, echoed with 201 |
| MemoryServer.Server.Login | server.js:25-32 | 200 iff both email and password equal the stored ones (then the whole record is echoed), otherwise 401 "Invalid email or password" |
| MemoryServer.Server.ForgotPassword | server.js:35-42 | 200 iff the email equals the stored one, otherwise 404 "Email not found"; the state is only read |
| MemoryServer.Server.ChangePassword | server.js:45-49 | only the password changes; name and email keep their values |
| MemoryServer.Server.Home | server.js:52-54 | returns the stored name |
| MemoryServer.RegisterThenLogin | server.js:18-31 | right after `register(n, e, p)`, `login(e, p)` succeeds with the new record and a login with another password fails |
| MemoryServer.ChangeThenLogin | server.js:25-49 | after change-password the record is the old one with only the password replaced, the new password logs in with 200 and the new record echoed, and the old one gets 401 when it differs |
| MemoryServer.InitialState | server.js:11-42 | in the initial state John Doe's credentials log in and his email gets a reset link |
| AuthController.Register | controllers/authController.js:5-18 | 500 on a store failure; a taken email gives 400 "Email sudah terdaftar" and saves nothing; otherwise, whatever the username, one record with `Hash(password)` is saved and the reply is 201 "Registrasi berhasil" with no token; email uniqueness is preserved |
| AuthController.Login | controllers/authController.js:20-34 | 500 on a store failure; an unknown email gives 400 "Email tidak ditemukan"; a wrong password gives 400 "Password salah"; 200 iff the store answers and the first record with the email verifies the password, and then the body is only a token with claims `{id}` of that record, expiring one day after issue |
| AuthController.SharedUsernameThenLogin | controllers/authController.js:8-13 | an account saved under a fresh email, even with a username already in use, logs in with its password |
| AuthController.GetUser | controllers/authController.js:36-43 | 500 iff the store fails; otherwise 200 with the record for the id minus its password, or null when there is none |
| NetlifyRegister.Handler | netlify/functions/register.js:5-32 | an unparsable body or a store failure gives 500; a taken email gives 400 "Email sudah digunakan"; refusals leave the store unchanged; otherwise one record with `Hash(password)` is saved with no username check and the reply is 201 "Registrasi berhasil" |
| NetlifyLogin.Handler | netlify/functions/login.js:6-26 | an unparsable body or a store failure gives 500; an unknown email gives 400 "Email tidak ditemukan"; a wrong password gives 400 "Password salah"; 200 iff the body parses, the store answers and the first record with the email verifies the password, and then the body is only a one-day `{id}` token; the store is only read |
| NetlifyLogin.RegisterThenLogin | netlify/functions/login.js:11-22 | an account saved by the register function logs in with its password and gets a one-day token |
| NetlifyMe.TokenField | netlify/functions/me.js:7-9 | an absent or empty header gives no token; otherwise there is a token iff the header's second space-separated field exists and is non-empty, and then it is that field |
| NetlifyMe.Handler | netlify/functions/me.js:5-23 | every failure is the plain-text 401 "Unauthorized"; 200 iff a non-empty token is present, verifies and the store answers; a 200 body is the record of the claimed id without its password, or null when there is none |
| NetlifyMe.MissingHeaderIsUnauthorized | netlify/functions/me.js:7-9 | an absent header and an empty one both give 401 |
| NetlifyMe.IssuedTokenShowsAccount | netlify/functions/me.js:7-18 | a login token sent as `Bearer <token>` returns that account without its password for one day, and 401 afterwards |
| PlainApi.Register | api/index.js:33-38 | always 200 "User registered!"; exactly one record is appended with the password as submitted |
| PlainApi.Login | api/index.js:40-45 | 200 iff some record matches both email and password exactly, and then the whole record, password included, is returned; otherwise 401 "Login failed" |
| PlainApi.RegisterTwice | api/index.js:33-37 | two registrations with the same username and email both get 200 and both records are stored, under different ids, so emails and usernames are no longer unique |
| PlainApi.UserByName | api/index.js:47-51 | 404 iff no record has the username; otherwise 200 with only `{username, email}` of such a record |

## Left out

- Store, driver and framework set-up (Firebase Admin, Mongoose, `connectDB`, `dotenv`, `process.exit` on a missing secret), Express and serverless wiring, CORS, body-parser, `app.listen`, and routes/authRoutes.js: these are I/O and bootstrap, not decisions.
- The middleware behind controllers/authController.js `getUser` (middleware/authMiddleware.js) is not part of this model; `GetUser` takes the user id it would set.
- bcrypt salts and cost factor, and JWT signing cryptography: they come from libraries. `Hash` is deterministic, and a token's signature is a validity flag.
- Store identifiers: Firestore and MongoDB generate ids; here they are numbers handed out by a counter.
- Store failures: `outage` says the store rejects from the first call. A failure partway through app.js register, after the write, is not modelled; there the real code would answer 500 with the record already stored.
- api/index.js has no `try`/`catch`, so a failing store leaves the request unanswered; this case is not modelled.
- The elided parts of app.js register (input validation, and the token and reply after the write, app.js:56 and app.js:91) are not in the source; `FirestoreApp.Register` ends with the stored record.
- Request fields of the Mongoose variants and api/index.js are strings. Absent fields (`undefined` reaching `findOne` or `bcrypt.hash`) are not modelled; in app.js login and forgot-password and in server.js, absent fields are modelled.
- Hasher.Hash: bcryptjs digests are always 60 characters and depend on a random salt; the stand-in digest is the marker followed by the whole password, so its length grows with the password and it is the same on every call.
- Hasher.VerifyOnlyOwnPassword: holds of the injective stand-in only. bcrypt looks at no more than the first 72 bytes of a password, so two passwords sharing those bytes verify against each other's digest; the model does not capture this.
- Query order: the lookups return the first match in the model's record sequence, which is insertion order because ids come from a counter. A Firestore query without `orderBy` returns documents sorted by their (random) document id, so `docs[0]` at app.js:114 need not be the earliest match. This matters only when several records share an email or username.
- The Mongoose schema (models/User.js) is not part of this model. The model assumes it declares no unique index and no validator; a unique index on `username`, for instance, would turn the save in `AuthController.SharedUsernameThenLogin` into a 500.
- Request fields that are not strings are not modelled: a JSON object such as `{"$ne": null}` reaching `findOne({ email, password })` at api/index.js:42 would act as a query operator.
- Concurrency: each request is one atomic step, so the check-then-create race between registrations is not modelled.
- `console.time` and `console.log` output, `serverTimestamp` (createdAt), the text of driver errors echoed in 500 bodies (a `DriverError` body), and the reset-email notice that app.js only logs (app.js:189; nothing is sent).
