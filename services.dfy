/** A value that may be absent: a missing request field, a null column. */
module Optional {
  datatype Option<+T> = None | Some(value: T)
}

/** The two foreign libraries the auth flow calls, as parameters of the model.
    Their algorithms are not modelled; only what the flow relies on is stated. */
module Services {
  import opened Optional

  /** The random salt bcrypt draws for each hash. */
  type Salt = string

  /** bcrypt: `hash(plaintext, salt)` gives the digest to persist,
      `verify(plaintext, digest)` is `bcrypt.compare`. */
  datatype Hasher = Hasher(hash: (string, Salt) -> string, verify: (string, string) -> bool)

  /** What the flow relies on from bcrypt: a password verifies against its own
      digest, whatever the salt, and the digest is never the plaintext. */
  ghost predicate Sound(h: Hasher) {
    forall p, salt :: h.verify(p, h.hash(p, salt)) && h.hash(p, salt) != p
  }

  /** jsonwebtoken's `sign` with the process secret and the one-hour expiry,
      applied to the claims `{userId, isAdmin}`. `None` is a signing call that
      throws (for one, when the secret is not configured). */
  type Issuer = (nat, bool) -> Option<string>
}
