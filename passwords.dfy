/**
 * Stand-in for `hash_password` / `verify_password` (waste_logger_app/utils/auth is not
 * part of this model). The digest is transparent: it records the salt and the
 * password, so the one property the routes rely on, that a password verifies
 * against its own hash, holds by construction. The salt that bcrypt draws at random
 * is a parameter.
 */
module Passwords {

  datatype Digest = Digest(salt: nat, secret: string)

  function VerifyPassword(password: string, digest: Digest): bool {
    digest.secret == password
  }

  /** A password always verifies against a hash of itself, whatever the salt. */
  function HashPassword(password: string, salt: nat): (d: Digest)
    ensures VerifyPassword(password, d)
  {
    Digest(salt, password)
  }

  /** A different password never verifies against the hash. */
  lemma WrongPasswordRejected(password: string, other: string, salt: nat)
    requires other != password
    ensures !VerifyPassword(other, HashPassword(password, salt))
  {
  }
}
