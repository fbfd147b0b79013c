/**
  The password-hashing library, seen only through its two operations. The
  salt that bcrypt draws at random on every hash is a parameter here.
 */
module Credentials {

  /** `hash(p, salt)` stands for bcrypt.hash, `verify(p, h)` for bcrypt.compare. */
  datatype Hasher = Hasher(hash: (string, nat) -> string, verify: (string, string) -> bool)

  /** The one property the application relies on: a password verifies against every hash made of it. */
  ghost predicate Sound(h: Hasher)
  {
    forall p, salt :: h.verify(p, h.hash(p, salt))
  }
}
