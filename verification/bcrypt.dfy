/**
 * The part of bcrypt-ruby the `Totp` model uses: `Password.create(secret)`
 * (hash a secret under a freshly generated salt) and `Password#==(secret)`
 * (re-hash the candidate under the stored salt and compare the hash strings).
 *
 * The digest is symbolic: `Checksum(salt, secret)` stands for bcrypt's digest
 * of `secret` under `salt`, and two digests are equal exactly when their salts
 * and whole secrets are. Real bcrypt reads only the first 72 bytes of the
 * secret, so two secrets sharing those bytes hash alike there but not here.
 * The symbolic term also keeps the secret readable, so one-wayness is not
 * modelled either; nor are the cost factor and the digest bytes.
 */
module Bcrypt {

  type Salt = string

  /** Symbolic bcrypt digest. */
  datatype Checksum = Checksum(salt: Salt, secret: string)

  /** The "$2a$<cost>$<salt><checksum>" string that `passphrase_hash` holds. */
  datatype BcryptHash = BcryptHash(salt: Salt, checksum: Checksum)

  /** Raised by `Password.new` when the stored string is not a bcrypt hash (nil, say). */
  datatype BcryptError = InvalidHash

  /** `BCrypt::Engine.hash_secret(secret, salt)`. */
  function HashSecret(secret: string, salt: Salt): (h: BcryptHash)
    ensures h.salt == salt
  {
    BcryptHash(salt, Checksum(salt, secret))
  }

  /** `BCrypt::Password.create(secret)`; the generated salt is a parameter. */
  function Create(secret: string, salt: Salt): (h: BcryptHash)
    ensures Matches(h, secret)
    ensures h.salt == salt
  {
    HashSecret(secret, salt)
  }

  /** `BCrypt::Password#==(candidate)`: hash the candidate with the stored salt, compare. */
  predicate Matches(h: BcryptHash, candidate: string)
  {
    HashSecret(candidate, h.salt) == h
  }

  /** A hash made from `p` accepts `p` and nothing else. */
  lemma CreateMatchesOnlyItsSecret(p: string, q: string, salt: Salt)
    ensures Matches(Create(p, salt), q) <==> p == q
  {
    if Matches(Create(p, salt), q) {
      assert Checksum(salt, q) == Checksum(salt, p);
    }
  }
}
