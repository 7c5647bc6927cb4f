/** Password hashing, kept abstract: a digest function and the check that
    compares a plaintext with a stored digest. */
module Credentials {
  datatype Hasher = Hasher(hash: string -> string, verify: (string, string) -> bool)

  /** The one property the handlers rely on: a password matches its own
      digest. */
  ghost predicate Sound(h: Hasher)
  {
    forall p :: h.verify(p, h.hash(p))
  }
}
