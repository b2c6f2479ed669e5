/** The session token (jsonwebtoken in the system): claims, issue time,
    expiry and whether the signature checks against the server's secret.
    Signing cryptography is not modelled; a token either carries a valid
    signature or it does not. */
module Jwt {
  import opened Wrappers
  import opened Users

  /** `expiresIn: '1h'` and `expiresIn: '1d'`, in seconds. */
  const OneHour: nat := 3600
  const OneDay: nat := 86400

  /** `{ id }` (the Mongoose variants) or `{ id, username, email }` (app.js). */
  datatype Claims = IdClaim(id: Id) | IdentityClaims(id: Id, username: string, email: string)

  datatype Token = Token(claims: Claims, issuedAt: nat, expiresAt: nat, signatureValid: bool)

  datatype TokenError = Malformed | BadSignature | Expired

  /** `jwt.sign(claims, secret, { expiresIn: ttl })` at time `now`. */
  function Sign(claims: Claims, now: nat, ttl: nat): (t: Token)
    ensures t.claims == claims && t.issuedAt == now && t.expiresAt == now + ttl
    ensures t.signatureValid
  {
    Token(claims, now, now + ttl, true)
  }

  /** `jwt.verify(token, secret)` at time `now`: the signature is checked
      first, then the expiry (a token is expired once `now >= exp`). */
  function Verify(t: Token, now: nat): (r: Result<Claims, TokenError>)
    ensures r.Success? <==> t.signatureValid && now < t.expiresAt
    ensures r.Success? ==> r.value == t.claims
    ensures r == Failure(BadSignature) <==> !t.signatureValid
    ensures r == Failure(Expired) <==> t.signatureValid && t.expiresAt <= now
  {
    if !t.signatureValid then Failure(BadSignature)
    else if t.expiresAt <= now then Failure(Expired)
    else Success(t.claims)
  }

  /** A token signed at `now` with lifetime `ttl` yields its claims before
      `now + ttl` and is expired from then on. */
  lemma SignThenVerify(claims: Claims, now: nat, ttl: nat, later: nat)
    ensures Verify(Sign(claims, now, ttl), later) ==
              if later < now + ttl then Success(claims) else Failure(Expired)
  {
  }

  /** The compact string form of tokens: an encoder and a parser. */
  datatype Codec = Codec(encode: Token -> string, decode: string -> Option<Token>)

  /** Parsing an encoded token gives the token back, and an encoded token is
      a non-empty word without spaces (base64url segments and dots). */
  ghost predicate Faithful(c: Codec) {
    forall t :: c.decode(c.encode(t)) == Some(t) && c.encode(t) != [] && ' ' !in c.encode(t)
  }

  /** `jwt.verify` on the string sent by a client: an empty or unparsable
      string fails before any signature check. */
  function VerifyCompact(c: Codec, s: string, now: nat): (r: Result<Claims, TokenError>)
    ensures s == [] ==> r == Failure(Malformed)
    ensures c.decode(s).None? ==> r == Failure(Malformed)
    ensures s != [] && c.decode(s).Some? ==> r == Verify(c.decode(s).value, now)
    ensures r.Success? ==> exists t :: c.decode(s) == Some(t) && t.signatureValid && now < t.expiresAt && r.value == t.claims
  {
    if s == [] then Failure(Malformed)
    else match c.decode(s)
      case None => Failure(Malformed)
      case Some(t) => Verify(t, now)
  }

  /** Verifying the encoding of a token is verifying the token. */
  lemma VerifyEncoded(c: Codec, t: Token, now: nat)
    requires Faithful(c)
    ensures VerifyCompact(c, c.encode(t), now) == Verify(t, now)
  {
  }
}
