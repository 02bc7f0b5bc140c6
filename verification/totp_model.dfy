/**
 * `StellarMultisig::Totp`, the ActiveRecord model of one enrollment: its
 * columns as fields, and the `@passphrase` instance variable as a cache. The
 * passphrase setter stores only the bcrypt hash; the getter memoizes the
 * hash object it rebuilds from the column.
 */
module Models {
  import opened Wrappers
  import Bcrypt
  import Rotp
  import Registry

  class Totp {
    var address: Registry.Address
    var passphraseHash: Option<Bcrypt.BcryptHash>
    var otpSecret: Rotp.OtpSecret
    var verifiedAt: Option<Registry.Time>
    /** `@passphrase`: the memoized `BCrypt::Password`. */
    var cachedPassphrase: Option<Bcrypt.BcryptHash>

    /** The cache, when set, agrees with the column. */
    ghost predicate Valid()
      reads this
    {
      cachedPassphrase.Some? ==> cachedPassphrase == passphraseHash
    }

    /** The columns, as the table row they are saved to. */
    function Snapshot(): Registry.Row
      reads this
    {
      Registry.Row(address, passphraseHash, otpSecret, verifiedAt)
    }

    /** `Totp.new(address:, otp_secret:)`, before the passphrase is assigned. */
    constructor (address: Registry.Address, otpSecret: Rotp.OtpSecret)
      ensures Valid()
      ensures Snapshot() == Registry.Row(address, None, otpSecret, None)
      ensures cachedPassphrase == None
    {
      this.address := address;
      this.passphraseHash := None;
      this.otpSecret := otpSecret;
      this.verifiedAt := None;
      this.cachedPassphrase := None;
    }

    /** `Totp.find_by(address:)`: an object loaded from a row, with an empty cache. */
    constructor Load(row: Registry.Row)
      ensures Valid()
      ensures Snapshot() == row
      ensures cachedPassphrase == None
    {
      address := row.address;
      passphraseHash := row.passphraseHash;
      otpSecret := row.otpSecret;
      verifiedAt := row.verifiedAt;
      cachedPassphrase := None;
    }

    /**
     * `passphrase=(p)`: hash `p` under the generated `salt`, cache the hash and
     * write it to `passphrase_hash`. No other field changes, and only the
     * digest of `p` is stored (the digest is symbolic, so one-wayness is not
     * modelled).
     */
    method SetPassphrase(p: string, salt: Bcrypt.Salt)
      modifies this`passphraseHash, this`cachedPassphrase
      ensures Valid()
      ensures passphraseHash == Some(Bcrypt.Create(p, salt))
      ensures cachedPassphrase == passphraseHash
      ensures forall q :: Bcrypt.Matches(passphraseHash.value, q) <==> q == p
    {
      var h := Bcrypt.Create(p, salt);
      cachedPassphrase := Some(h);
      passphraseHash := cachedPassphrase;
      forall q ensures Bcrypt.Matches(passphraseHash.value, q) <==> q == p {
        Bcrypt.CreateMatchesOnlyItsSecret(p, q, salt);
      }
    }

    /**
     * `passphrase`: `@passphrase ||= Password.new(passphrase_hash)`. Answers
     * the cached hash if there is one, otherwise the column's hash, which it
     * caches; a missing hash raises `InvalidHash` and caches nothing.
     */
    method Passphrase() returns (r: Result<Bcrypt.BcryptHash, Bcrypt.BcryptError>)
      requires Valid()
      modifies this`cachedPassphrase
      ensures Valid()
      ensures old(cachedPassphrase).Some? ==> r == Ok(old(cachedPassphrase).value)
      ensures passphraseHash.Some? <==> r.Ok?
      ensures r.Ok? ==> r.value == passphraseHash.value && cachedPassphrase == Some(r.value)
      ensures r.Err? ==> r.error == Bcrypt.InvalidHash && cachedPassphrase == old(cachedPassphrase)
    {
      if cachedPassphrase.None? {
        match passphraseHash
        case None =>
          return Err(Bcrypt.InvalidHash);
        case Some(h) =>
          cachedPassphrase := Some(h);
      }
      r := Ok(cachedPassphrase.value);
    }
  }
}
