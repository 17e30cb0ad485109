/**
 * The password-hashing library, abstracted. `hash` draws a fresh salt on
 * every call, so the salt is an explicit input here; `compare` checks a
 * plaintext against a stored hash. The only fact the handlers rely on is
 * that a password matches any hash made from it.
 */
module Bcrypt {

  /** The random salt `bcryptjs.hash` draws. */
  type Salt = nat

  /** A hashing scheme: `hash(password, salt)` and `compare(password, stored)`. */
  datatype Hasher = Hasher(hash: (string, Salt) -> string, compare: (string, string) -> bool)

  /** `compare(p, hash(p, salt))` holds for every password and salt. */
  ghost predicate Sound(h: Hasher) {
    forall p: string, salt: Salt :: h.compare(p, h.hash(p, salt))
  }
}
