/**
 * The password hasher the server calls (the bcrypt library), as an idealised
 * primitive. A digest records the random salt it was made with and the
 * password it commits to. The model treats the hasher as collision-free,
 * which is what the server relies on; one-wayness, the work factor and
 * constant-time comparison cannot be stated by a functional model.
 */
module Bcrypt {
  datatype Digest = Digest(salt: nat, committed: string)

  /** `bcrypt.hash(password, rounds)`, with the random salt made a parameter. */
  function Hash(password: string, salt: nat): (d: Digest)
    ensures Compare(password, d)
    ensures d.salt == salt
  {
    Digest(salt, password)
  }

  /** `bcrypt.compare(candidate, digest)`: does the digest commit to the candidate? */
  predicate Compare(candidate: string, d: Digest)
  {
    d.committed == candidate
  }

  /** A digest of one password never accepts another, whatever the salt. */
  lemma CompareRejectsOtherPasswords(candidate: string, password: string, salt: nat)
    requires candidate != password
    ensures !Compare(candidate, Hash(password, salt))
  {
  }
}
