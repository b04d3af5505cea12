/**
 * EncryptionService, kept abstract: argon2 hashing with a random salt (the salt is
 * a parameter) and verification of a plaintext against a stored hash.
 */
module Encryption {

  /** hash(password, salt) and verify(hash, password). */
  datatype Hasher = Hasher(hash: (string, string) -> string, verify: (string, string) -> bool)

  /** A password verifies against any hash made from it. */
  ghost predicate AcceptsOwnHashes(h: Hasher) {
    forall password, salt :: h.verify(h.hash(password, salt), password)
  }
}
