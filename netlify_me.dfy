/** netlify/functions/me.js: the serverless "who am I" function. Every
    failure, a missing token, a rejected token or a store error, is the
    same plain-text 401. */
module NetlifyMe {
  import opened Wrappers
  import opened Users
  import opened Jwt
  import opened Header
  import opened Http

  const Unauthorized := "Unauthorized"

  /** `(event.headers.authorization || '').split(' ')[1]`, with `!token`
      read as "absent or empty". */
  function TokenField(authorization: Option<string>): (r: Option<string>)
    ensures authorization.None? || authorization == Some("") ==> r.None?
    ensures r.None? <==> ' ' !in authorization.GetOr("") || SecondField(authorization.GetOr("")) == Some("")
    ensures r.Some? ==> r.value != "" && Some(r.value) == SecondField(authorization.GetOr(""))
  {
    match SecondField(authorization.GetOr(""))
    case None => None
    case Some(t) => if t == "" then None else Some(t)
  }

  /** `handler(event)`. */
  function Handler(users: seq<User>, authorization: Option<string>, codec: Codec, now: nat, outage: bool): (r: Response)
    ensures r.status in {200, 401}
    ensures r.status == 401 ==> r.body == PlainText(Unauthorized)
    ensures r.status == 200 <==>
              TokenField(authorization).Some? && !outage &&
              VerifyCompact(codec, TokenField(authorization).value, now).Success?
    ensures r.status == 200 ==>
              && r.body.Record?
              && var id := VerifyCompact(codec, TokenField(authorization).value, now).value.id;
                 (r.body.found.None? <==> forall u :: u in users ==> u.id != id) &&
                 (r.body.found.Some? ==> exists u :: u in users && u.id == id && r.body.found.value == Public(u))
  {
    match TokenField(authorization)
    case None => Response(401, PlainText(Unauthorized))
    case Some(token) =>
      match VerifyCompact(codec, token, now)
      case Failure(_) => Response(401, PlainText(Unauthorized))
      case Success(claims) =>
        if outage then Response(401, PlainText(Unauthorized))
        else match FindById(users, claims.id)
          case None => Response(200, Record(None))
          case Some(u) => Response(200, Record(Some(Public(u))))
  }

  /** An absent header and an empty one are both treated as no token. */
  lemma MissingHeaderIsUnauthorized(users: seq<User>, codec: Codec, now: nat, outage: bool)
    ensures Handler(users, None, codec, now, outage) == Response(401, PlainText(Unauthorized))
    ensures Handler(users, Some(""), codec, now, outage) == Response(401, PlainText(Unauthorized))
  {
  }

  /** The token of a login, sent as `Bearer <token>`, returns that account
      without its password for one day; afterwards it is a 401. */
  lemma IssuedTokenShowsAccount(users: seq<User>, codec: Codec, u: User, now: nat, later: nat)
    requires IdsAscending(users) && Faithful(codec) && u in users
    ensures var t := Sign(IdClaim(u.id), now, OneDay);
            Handler(users, Some(Bearer(codec.encode(t))), codec, later, false) ==
              if later < now + OneDay then Response(200, Record(Some(Public(u))))
              else Response(401, PlainText(Unauthorized))
  {
    var t := Sign(IdClaim(u.id), now, OneDay);
    BearerSecondField(codec.encode(t));
    VerifyEncoded(codec, t, later);
    FindByIdOfMember(users, u);
  }
}
