/** netlify/functions/login.js: the serverless login function. It only
    reads the store. */
module NetlifyLogin {
  import opened Wrappers
  import opened Users
  import Hasher
  import opened Jwt
  import opened Http

  const EmailNotFound := "Email tidak ditemukan"
  const WrongPassword := "Password salah"

  /** `handler(event)`: `body` is `None` when the request body does not parse. */
  function Handler(users: seq<User>, body: Option<Credentials>, now: nat, outage: bool): (r: Response)
    ensures r.status in {200, 400, 500}
    ensures body.None? || outage ==> r == Response(500, DriverError)
    ensures body.Some? && !outage && !EmailTaken(users, body.value.email) ==>
              r == Response(400, Message(EmailNotFound))
    ensures body.Some? && !outage && EmailTaken(users, body.value.email) &&
            !Hasher.Verify(body.value.password, FirstByEmail(users, body.value.email).value.password) ==>
              r == Response(400, Message(WrongPassword))
    ensures r.status == 200 <==>
              body.Some? && !outage && EmailTaken(users, body.value.email) &&
              Hasher.Verify(body.value.password, FirstByEmail(users, body.value.email).value.password)
    ensures r.status == 200 ==>
              && body.Some? && EmailTaken(users, body.value.email)
              && var u := FirstByEmail(users, body.value.email).value;
                 Hasher.Verify(body.value.password, u.password) &&
                 r.body == TokenOnly(Sign(IdClaim(u.id), now, OneDay))
  {
    if body.None? || outage then Response(500, DriverError)
    else match FirstByEmail(users, body.value.email)
      case None => Response(400, Message(EmailNotFound))
      case Some(u) =>
        if !Hasher.Verify(body.value.password, u.password) then Response(400, Message(WrongPassword))
        else Response(200, TokenOnly(Sign(IdClaim(u.id), now, OneDay)))
  }

  /** An account registered through the register function can log in with
      the password it registered, and its token lives one day. */
  lemma RegisterThenLogin(users: seq<User>, u: User, password: string, now: nat)
    requires !EmailTaken(users, u.email) && u.password == Hasher.Hash(password)
    ensures Handler(users + [u], Some(Credentials(u.email, password)), now, false) ==
              Response(200, TokenOnly(Sign(IdClaim(u.id), now, OneDay)))
  {
    FirstByEmailAfterAppend(users, u);
    Hasher.VerifyHash(password);
  }
}
