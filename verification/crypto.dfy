/** The two foreign libraries the session code relies on, kept abstract:
    bcrypt (password hashing) and jsonwebtoken (signed tokens). */
module Crypto {
  import opened Base

  /** bcrypt cost factor used by the pre-save hook of the user model. */
  const SaltRounds: nat := 11

  /** bcrypt reads at most this many bytes of a password; the rest is
      ignored. The model counts characters, which agrees for ASCII. */
  const BcryptMaxLength: nat := 72

  /** The part of a password that bcrypt hashes. */
  function Significant(plain: string): string {
    if |plain| <= BcryptMaxLength then plain else plain[..BcryptMaxLength]
  }

  /** A bcrypt hash of the significant part of a password. The random salt,
      and with it the fact that two hashes of one password differ, is not
      modelled. A digest is a different type from a password, so a stored
      digest is never the plaintext. */
  datatype Digest = Bcrypt(rounds: nat, preimage: string)

  function Hash(plain: string): Digest {
    Bcrypt(SaltRounds, Significant(plain))
  }

  /** `bcrypt.compare(plain, hash)`. */
  predicate Compare(plain: string, hash: Digest) {
    hash == Hash(plain)
  }

  /** A hash of `p` accepts exactly the passwords that agree with `p` on
      their first BcryptMaxLength characters: `p` itself, and any longer
      password sharing that prefix. */
  lemma CompareAcceptsSamePrefix(p: string, q: string)
    ensures Compare(q, Hash(p)) <==> Significant(q) == Significant(p)
    ensures Compare(p, Hash(p))
    ensures |p| <= BcryptMaxLength && |q| <= BcryptMaxLength ==> (Compare(q, Hash(p)) <==> q == p)
  {
  }

  /** Two passwords that differ only after the 72nd character hash alike. */
  lemma LongPasswordsCollide(prefix: string, x: string, y: string)
    requires |prefix| == BcryptMaxLength
    ensures Compare(prefix + y, Hash(prefix + x))
  {
    assert (prefix + x)[..BcryptMaxLength] == prefix;
    assert (prefix + y)[..BcryptMaxLength] == prefix;
  }

  /** The secret a token is signed with: the access-token secret or the
      refresh-token secret from the process configuration. */
  datatype Secret = AccessSecret | RefreshSecret

  /** The payload both kinds of token carry: `{_id, username}`. */
  datatype Claims = Claims(uid: Id, username: string)

  /** A cookie value: a token signed with one of the two secrets, carrying
      its claims and its issue time (seconds), or any other text. Expiry is
      not modelled. */
  datatype Token = Jwt(secret: Secret, claims: Claims, iat: nat) | Malformed(text: string)

  /** `jwt.sign(claims, secret)` at time `iat`. */
  function Sign(claims: Claims, secret: Secret, iat: nat): Token {
    Jwt(secret, claims, iat)
  }

  /** `jwt.verify(token, secret)`: the decoded claims, or None where the
      library throws. */
  function Verify(token: Token, secret: Secret): Option<Claims> {
    match token
    case Jwt(k, c, _) => if k == secret then Some(c) else None
    case Malformed(_) => None
  }

  /** Signing and verifying round-trip under the same secret, and a token
      never verifies under the other secret. */
  lemma VerifySign(c: Claims, k: Secret, k': Secret, iat: nat)
    ensures Verify(Sign(c, k, iat), k') == (if k == k' then Some(c) else None)
  {
  }

  /** Whatever verifies was signed with that secret over those claims. */
  lemma VerifiedWasSigned(t: Token, k: Secret)
    ensures Verify(t, k).Some? ==> t == Sign(Verify(t, k).value, k, t.iat)
  {
  }

  /** A cookie the handlers reject with `!cookie`: absent or empty. */
  predicate MissingCookie(c: Option<Token>) {
    c.None? || c.value == Malformed("")
  }
}
