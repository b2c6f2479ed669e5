/** The password hasher (bcrypt in the system) as a deterministic stand-in:
    salt and cost are not modelled. What the handlers rely on is the
    check `Verify(p, Hash(p))` and that a digest is never the plaintext.
    The stand-in is injective and its digests grow with the password,
    unlike bcrypt's fixed-size digests of the first 72 bytes. */
module Hasher {

  /** The marker every digest starts with ("$2a$", cost 10). */
  const Marker: string := "$2a$10$"

  function Hash(password: string): (digest: string)
    ensures Marker <= digest
  {
    Marker + password
  }

  /** `bcrypt.compare(password, digest)`: only a marked digest can match,
      and never the plaintext itself. */
  predicate Verify(password: string, digest: string)
    ensures Verify(password, digest) ==> Marker <= digest && digest != password
  {
    digest == Hash(password)
  }

  lemma VerifyHash(password: string)
    ensures Verify(password, Hash(password))
  {
  }

  /** A stand-in digest verifies exactly the password it was made from
      (bcrypt compares only the first 72 bytes). */
  lemma VerifyOnlyOwnPassword(password: string, other: string)
    ensures Verify(password, Hash(other)) <==> password == other
  {
    if Verify(password, Hash(other)) {
      assert Hash(other)[|Marker|..] == other;
      assert Hash(password)[|Marker|..] == password;
    }
  }

  /** What is stored is never the plaintext itself. */
  lemma HashIsNotPlaintext(password: string)
    ensures Hash(password) != password
  {
  }
}
