/** The password hashing collaborator (`app.utils.security`), which is not part of this model:
    `hash_password` and `verify_password` are supplied as functions. */
module Security {

  datatype Crypto = Crypto(hash: string -> string, verify: (string, string) -> bool)

  /** The one property assumed of the collaborator: a password verifies against its own hash. */
  ghost predicate Sound(c: Crypto) {
    forall p :: c.verify(p, c.hash(p))
  }
}
