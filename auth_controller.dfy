/** controllers/authController.js: the Mongoose controller behind
    routes/authRoutes.js. Register checks only the email; login tells an
    unknown email apart from a wrong password and returns only a one-day
    `{ id }` token; getUser returns the record without its password. */
module AuthController {
  import opened Wrappers
  import opened Users
  import Hasher
  import opened Jwt
  import opened Http

  const EmailInUse := "Email sudah terdaftar"
  const Registered := "Registrasi berhasil"
  const EmailNotFound := "Email tidak ditemukan"
  const WrongPassword := "Password salah"

  /** `register`: refuse a taken email, otherwise save
      `{username, email, Hash(password)}`; the username is not checked. */
  method Register(store: UserStore, username: string, email: string, password: string, outage: bool)
    returns (r: Response)
    requires store.Valid()
    modifies store
    ensures store.Valid()
    ensures r.status in {201, 400, 500}
    ensures outage ==> r == Response(500, DriverError)
    ensures !outage && EmailTaken(old(store.records), email) ==> r == Response(400, Message(EmailInUse))
    ensures r.status == 201 <==> !outage && !EmailTaken(old(store.records), email)
    ensures r.status != 201 ==> store.records == old(store.records)
    ensures r.status == 201 ==>
              && r.body == Message(Registered)
              && |store.records| == |old(store.records)| + 1
              && store.records[..|old(store.records)|] == old(store.records)
              && var u := store.records[|old(store.records)|];
                 u.username == username && u.email == email && u.password == Hasher.Hash(password) &&
                 forall v :: v in old(store.records) ==> v.id != u.id
    ensures UniqueEmails(old(store.records)) ==> UniqueEmails(store.records)
  {
    if outage {
      return Response(500, DriverError);
    }
    if FirstByEmail(store.records, email).Some? {
      return Response(400, Message(EmailInUse));
    }
    ghost var before := store.records;
    var u := store.Add(username, email, Hasher.Hash(password));
    assert store.records[..|before|] == before;
    assert forall i :: 0 <= i < |before| ==> before[i] in before;
    r := Response(201, Message(Registered));
  }

  /** `login`. */
  function Login(users: seq<User>, email: string, password: string, now: nat, outage: bool): (r: Response)
    ensures r.status in {200, 400, 500}
    ensures outage ==> r == Response(500, DriverError)
    ensures !outage && !EmailTaken(users, email) ==> r == Response(400, Message(EmailNotFound))
    ensures !outage && EmailTaken(users, email) &&
            !Hasher.Verify(password, FirstByEmail(users, email).value.password) ==>
              r == Response(400, Message(WrongPassword))
    ensures r.status == 200 <==>
              !outage && EmailTaken(users, email) &&
              Hasher.Verify(password, FirstByEmail(users, email).value.password)
    ensures r.status == 200 ==>
              && EmailTaken(users, email)
              && var u := FirstByEmail(users, email).value;
                 Hasher.Verify(password, u.password) &&
                 r.body == TokenOnly(Sign(IdClaim(u.id), now, OneDay))
  {
    if outage then Response(500, DriverError)
    else match FirstByEmail(users, email)
      case None => Response(400, Message(EmailNotFound))
      case Some(u) =>
        if !Hasher.Verify(password, u.password) then Response(400, Message(WrongPassword))
        else Response(200, TokenOnly(Sign(IdClaim(u.id), now, OneDay)))
  }

  /** Without a username check, a fresh email under a username already in
      use is registered, and that account can then log in. */
  lemma SharedUsernameThenLogin(users: seq<User>, u: User, password: string, now: nat)
    requires !EmailTaken(users, u.email) && u.password == Hasher.Hash(password)
    ensures Login(users + [u], u.email, password, now, false) ==
              Response(200, TokenOnly(Sign(IdClaim(u.id), now, OneDay)))
  {
    FirstByEmailAfterAppend(users, u);
    Hasher.VerifyHash(password);
  }

  /** `getUser`: `findById(req.userId).select('-password')`, `null` when
      no record has that id. */
  function GetUser(users: seq<User>, userId: Id, outage: bool): (r: Response)
    ensures outage <==> r == Response(500, DriverError)
    ensures !outage ==> r.status == 200 && r.body.Record?
    ensures !outage ==> (r.body.found.None? <==> forall u :: u in users ==> u.id != userId)
    ensures !outage && r.body.found.Some? ==> exists u :: u in users && u.id == userId && r.body.found.value == Public(u)
  {
    if outage then Response(500, DriverError)
    else match FindById(users, userId)
      case None => Response(200, Record(None))
      case Some(u) => Response(200, Record(Some(Public(u))))
  }
}
