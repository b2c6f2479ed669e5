/** app.js: the Express server over Firestore. Register refuses a taken
    email, then a taken username, and stores a bcrypt digest; login merges
    "unknown email" and "wrong password" into one reply; the profile route
    sits behind the bearer-token middleware. */
module FirestoreApp {
  import opened Wrappers
  import opened Users
  import Hasher
  import opened Jwt
  import opened Header
  import opened Http

  const EmailInUse := "Email sudah terdaftar"
  const UsernameInUse := "Username sudah terdaftar"
  const RegisterFailed := "Registrasi gagal"
  const FieldsRequired := "Email dan password harus diisi"
  const BadCredentials := "Email atau password salah"
  const LoginSucceeded := "Login berhasil"
  const LoginFailed := "Login gagal"
  const NoToken := "Akses ditolak: Token tidak ditemukan"
  const BadToken := "Token tidak valid atau kadaluarsa"
  const UserNotFound := "Pengguna tidak ditemukan."
  const ProfileFetched := "Data profil berhasil diambil"
  const ProfileFailed := "Gagal mengambil data profil."
  const EmailRequired := "Email harus diisi"
  const ResetNotice := "Jika email terdaftar, tautan reset password akan dikirim."
  const ResetFailed := "Terjadi kesalahan saat memproses permintaan."

  /** JavaScript `!field` for a body field: absent or the empty string. */
  predicate Falsy(field: Option<string>) {
    field.None? || field.value == ""
  }

  /** `authHeader && authHeader.split(' ')[1]`: an absent header gives
      undefined, an empty header short-circuits to the empty string itself,
      any other header gives its second space-separated field. */
  function TokenField(authorization: Option<string>): (r: Option<string>)
    ensures r.None? <==> authorization.None? || (authorization.value != "" && ' ' !in authorization.value)
    ensures authorization == Some("") ==> r == Some("")
    ensures authorization.Some? && authorization.value != "" ==> r == SecondField(authorization.value)
  {
    match authorization
    case None => None
    case Some(h) => if h == "" then Some("") else SecondField(h)
  }

  /** The `authenticateToken` middleware: 401 when the header holds no
      token, 403 when `jwt.verify` rejects it, otherwise the claims go on. */
  function AuthenticateToken(authorization: Option<string>, codec: Codec, now: nat): (r: Result<Claims, Response>)
    ensures r.Failure? ==> r.error == Response(401, Message(NoToken)) || r.error == Response(403, Message(BadToken))
    ensures r == Failure(Response(401, Message(NoToken))) <==>
              authorization.None? || (authorization.value != "" && ' ' !in authorization.value)
    ensures r.Success? <==> TokenField(authorization).Some? &&
                            VerifyCompact(codec, TokenField(authorization).value, now).Success?
    ensures r.Success? ==> r.value == VerifyCompact(codec, TokenField(authorization).value, now).value
  {
    match TokenField(authorization)
    case None => Failure(Response(401, Message(NoToken)))
    case Some(token) =>
      match VerifyCompact(codec, token, now)
      case Failure(_) => Failure(Response(403, Message(BadToken)))
      case Success(claims) => Success(claims)
  }

  /** `Bearer <token>` with a token this server issued passes the middleware
      exactly while the token is unexpired; afterwards it is a 403. */
  lemma AuthenticateIssuedToken(codec: Codec, t: Token, now: nat)
    requires Faithful(codec) && t.signatureValid
    ensures AuthenticateToken(Some(Bearer(codec.encode(t))), codec, now) ==
              if now < t.expiresAt then Success(t.claims) else Failure(Response(403, Message(BadToken)))
  {
    BearerSecondField(codec.encode(t));
    VerifyEncoded(codec, t, now);
  }

  /** A header that is present but empty is refused with 403, not 401. */
  lemma EmptyHeaderIsForbidden(codec: Codec, now: nat)
    ensures AuthenticateToken(Some(""), codec, now) == Failure(Response(403, Message(BadToken)))
  {
  }

  /** A non-empty header without a space ("Bearer" alone) carries no token. */
  lemma HeaderWithoutSpaceIsUnauthorized(codec: Codec, h: string, now: nat)
    requires h != "" && ' ' !in h
    ensures AuthenticateToken(Some(h), codec, now) == Failure(Response(401, Message(NoToken)))
  {
  }

  /** Outcome of the visible part of `POST /register`: a refusal, or the new
      record once it has been written and read back (the reply built after
      that is not part of this model). */
  datatype RegisterResult = Rejected(response: Response) | Added(user: User)

  /** `POST /register`: email check, then username check, then one write of
      `{username, email, Hash(password)}`. */
  method Register(store: UserStore, username: string, email: string, password: string, outage: bool)
    returns (r: RegisterResult)
    requires store.Valid()
    modifies store
    ensures store.Valid()
    ensures outage ==> r == Rejected(Response(500, Message(RegisterFailed)))
    ensures !outage && EmailTaken(old(store.records), email) ==>
              r == Rejected(Response(409, Message(EmailInUse)))
    ensures !outage && !EmailTaken(old(store.records), email) && UsernameTaken(old(store.records), username) ==>
              r == Rejected(Response(409, Message(UsernameInUse)))
    ensures r.Added? <==> !outage && !EmailTaken(old(store.records), email) && !UsernameTaken(old(store.records), username)
    ensures r.Rejected? ==> store.records == old(store.records)
    ensures r.Added? ==> store.records == old(store.records) + [r.user] &&
                         r.user.username == username && r.user.email == email &&
                         r.user.password == Hasher.Hash(password) &&
                         forall v :: v in old(store.records) ==> v.id != r.user.id
    ensures UniqueEmails(old(store.records)) ==> UniqueEmails(store.records)
    ensures UniqueUsernames(old(store.records)) ==> UniqueUsernames(store.records)
  {
    if outage {
      return Rejected(Response(500, Message(RegisterFailed)));
    }
    if FirstByEmail(store.records, email).Some? {
      return Rejected(Response(409, Message(EmailInUse)));
    }
    if FirstByUsername(store.records, username).Some? {
      return Rejected(Response(409, Message(UsernameInUse)));
    }
    ghost var before := store.records;
    var u := store.Add(username, email, Hasher.Hash(password));
    assert forall i :: 0 <= i < |before| ==> before[i] in before;
    r := Added(u);
  }

  /** `POST /login`. */
  function Login(users: seq<User>, email: Option<string>, password: Option<string>, now: nat, outage: bool): (r: Response)
    ensures Falsy(email) || Falsy(password) ==> r == Response(400, Message(FieldsRequired))
    ensures !Falsy(email) && !Falsy(password) && outage ==> r == Response(500, Message(LoginFailed))
    ensures !Falsy(email) && !Falsy(password) && !outage ==>
              r.status == 200 || r == Response(400, Message(BadCredentials))
    ensures r.status == 200 <==>
              !Falsy(email) && !Falsy(password) && !outage && EmailTaken(users, email.value) &&
              Hasher.Verify(password.value, FirstByEmail(users, email.value).value.password)
    ensures r.status == 200 ==>
              var u := FirstByEmail(users, email.value).value;
              r.body == SignedIn(LoginSucceeded, Public(u), Sign(IdentityClaims(u.id, u.username, u.email), now, OneHour))
  {
    if Falsy(email) || Falsy(password) then Response(400, Message(FieldsRequired))
    else if outage then Response(500, Message(LoginFailed))
    else match FirstByEmail(users, email.value)
      case None => Response(400, Message(BadCredentials))
      case Some(u) =>
        if !Hasher.Verify(password.value, u.password) then Response(400, Message(BadCredentials))
        else
          var token := Sign(IdentityClaims(u.id, u.username, u.email), now, OneHour);
          Response(200, SignedIn(LoginSucceeded, Public(u), token))
  }

  /** An unknown email and a wrong password get the very same reply. */
  lemma LoginFailuresAlike(users: seq<User>, email: string, password: string, now: nat)
    requires email != "" && password != ""
    requires !EmailTaken(users, email) ||
             !Hasher.Verify(password, FirstByEmail(users, email).value.password)
    ensures Login(users, Some(email), Some(password), now, false) == Response(400, Message(BadCredentials))
  {
  }

  /** Right after a record is written by `Register`, logging in with its
      email and the submitted password succeeds and returns that record. */
  lemma RegisterThenLogin(users: seq<User>, u: User, password: string, now: nat)
    requires !EmailTaken(users, u.email) && u.password == Hasher.Hash(password)
    requires u.email != "" && password != ""
    ensures Login(users + [u], Some(u.email), Some(password), now, false) ==
              Response(200, SignedIn(LoginSucceeded, Public(u), Sign(IdentityClaims(u.id, u.username, u.email), now, OneHour)))
  {
    FirstByEmailAfterAppend(users, u);
    Hasher.VerifyHash(password);
  }

  /** The route handler of `GET /profile`, given the claims the middleware
      passed on. */
  function Profile(users: seq<User>, claims: Claims, outage: bool): (r: Response)
    ensures r.status in {200, 404, 500}
    ensures outage ==> r == Response(500, Message(ProfileFailed))
    ensures !outage ==> (r == Response(404, Message(UserNotFound)) <==> forall u :: u in users ==> u.id != claims.id)
    ensures r.status == 200 ==> exists u :: u in users && u.id == claims.id && r.body == ProfileData(ProfileFetched, Public(u))
    ensures !outage && FindById(users, claims.id).Some? ==>
              r == Response(200, ProfileData(ProfileFetched, Public(FindById(users, claims.id).value)))
  {
    if outage then Response(500, Message(ProfileFailed))
    else match FindById(users, claims.id)
      case None => Response(404, Message(UserNotFound))
      case Some(u) => Response(200, ProfileData(ProfileFetched, Public(u)))
  }

  /** `GET /profile` behind `authenticateToken`: the store is read only for
      a token that passed. */
  function GetProfile(users: seq<User>, authorization: Option<string>, codec: Codec, now: nat, outage: bool): (r: Response)
    ensures r.status in {200, 401, 403, 404, 500}
    ensures r.status in {401, 403} <==> AuthenticateToken(authorization, codec, now).Failure?
    ensures r.status == 200 ==>
              && AuthenticateToken(authorization, codec, now).Success?
              && exists u :: u in users && u.id == AuthenticateToken(authorization, codec, now).value.id &&
                             r.body == ProfileData(ProfileFetched, Public(u))
    ensures AuthenticateToken(authorization, codec, now).Failure? ==>
              r == AuthenticateToken(authorization, codec, now).error
    ensures AuthenticateToken(authorization, codec, now).Success? ==>
              r == Profile(users, AuthenticateToken(authorization, codec, now).value, outage)
  {
    match AuthenticateToken(authorization, codec, now)
    case Failure(refusal) => refusal
    case Success(claims) => Profile(users, claims, outage)
  }

  /** The token from a successful login opens the profile of the same
      record for one hour, and is refused with 403 from then on. */
  lemma LoginThenProfile(users: seq<User>, codec: Codec, email: string, password: string, now: nat, later: nat)
    requires IdsAscending(users) && Faithful(codec)
    requires Login(users, Some(email), Some(password), now, false).status == 200
    ensures var login := Login(users, Some(email), Some(password), now, false);
            GetProfile(users, Some(Bearer(codec.encode(login.body.token))), codec, later, false) ==
              if later < now + OneHour then Response(200, ProfileData(ProfileFetched, login.body.user))
              else Response(403, Message(BadToken))
  {
    var u := FirstByEmail(users, email).value;
    var t := Sign(IdentityClaims(u.id, u.username, u.email), now, OneHour);
    AuthenticateIssuedToken(codec, t, later);
    FindByIdOfMember(users, u);
  }

  /** `POST /forgot-password`. */
  function ForgotPassword(users: seq<User>, email: Option<string>, outage: bool): (r: Response)
    ensures r.status == 400 <==> Falsy(email)
    ensures Falsy(email) ==> r == Response(400, Message(EmailRequired))
    ensures !Falsy(email) ==> r == if outage then Response(500, Message(ResetFailed)) else Response(200, Message(ResetNotice))
  {
    if Falsy(email) then Response(400, Message(EmailRequired))
    else if outage then Response(500, Message(ResetFailed))
    else if FirstByEmail(users, email.value).None? then Response(200, Message(ResetNotice))
    else Response(200, Message(ResetNotice))
  }

  /** The reply does not reveal whether the email is registered. */
  lemma ForgotPasswordHidesRegistration(users: seq<User>, others: seq<User>, email: Option<string>, outage: bool)
    ensures ForgotPassword(users, email, outage) == ForgotPassword(others, email, outage)
  {
  }
}
