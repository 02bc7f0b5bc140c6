/**
 * `Api::V1::TotpController`: the two actions with their before-action
 * filters, over the persisted table. Each filter answers the status it halts
 * the chain with, or None to let the chain go on; each action is proved equal
 * to its function in `Registry`.
 */
module Controller {
  import opened Wrappers
  import Bcrypt
  import Rotp
  import Registry
  import Models

  class TotpController {
    /** Stellar key decoding, signature check and TOTP check. */
    const oracles: Registry.Oracles
    /** The `stellar_multisig_totps` table. */
    var store: Registry.Store

    ghost predicate Valid()
      reads this
    {
      Registry.WellFormed(store)
    }

    constructor (oracles: Registry.Oracles, store: Registry.Store)
      ensures Valid() <==> Registry.WellFormed(store)
      ensures this.oracles == oracles && this.store == store
    {
      this.oracles := oracles;
      this.store := store;
    }

    /** `totp_exists?`: is a row persisted for the address. */
    method TotpExists(address: Registry.Address) returns (found: bool)
      ensures found <==> address in store
    {
      found := address in store;
    }

    /** `make_totp`: the ROTP object for a secret, with the address as issuer. */
    function MakeTotp(otpSecret: Rotp.OtpSecret, address: Registry.Address): (t: Rotp.Totp)
      ensures t.secret == otpSecret && t.issuer == address
    {
      Rotp.Totp(otpSecret, address)
    }

    /** Filter `totp_dont_exist`: halts with 409 for an enrolled address. */
    method TotpDontExist(address: Registry.Address) returns (halt: Option<Registry.Reply>)
      ensures halt.Some? <==> address in store
      ensures halt.Some? ==> halt.value == Registry.Head(409)
    {
      var found := TotpExists(address);
      if found {
        return Some(Registry.Head(409));
      }
      return None;
    }

    /** Filter `totp_must_exist`: halts with 404 for an unknown address. */
    method TotpMustExist(address: Registry.Address) returns (halt: Option<Registry.Reply>)
      ensures halt.Some? <==> address !in store
      ensures halt.Some? ==> halt.value == Registry.Head(404)
    {
      var found := TotpExists(address);
      if !found {
        return Some(Registry.Head(404));
      }
      return None;
    }

    /**
     * Filter `invalid_signed_passphrase`: lets the chain go on exactly when the
     * signed passphrase verifies under the address's key; halts with 401 on a
     * bad signature, and an undecodable address raises.
     */
    method InvalidSignedPassphrase(address: Registry.Address, passphrase: string, signed: string)
      returns (halt: Option<Registry.Reply>)
      ensures halt.None? <==> Registry.OwnershipProved(oracles, address, signed, passphrase)
      ensures halt.Some? ==>
                halt.value == (if oracles.decodeAddress(address).None?
                               then Registry.Raised(Registry.InvalidAddress)
                               else Registry.Head(401))
    {
      var account := oracles.decodeAddress(address);
      if account.None? {
        return Some(Registry.Raised(Registry.InvalidAddress));
      }
      if !oracles.verifySignature(account.value, signed, passphrase) {
        return Some(Registry.Head(401));
      }
      return None;
    }

    /**
     * POST create. `secret` is the value `ROTP::Base32.random_base32` produced
     * and `salt` the one bcrypt generated.
     */
    method Create(address: Registry.Address, passphrase: string, signed: string,
                  secret: Rotp.OtpSecret, salt: Bcrypt.Salt) returns (reply: Registry.Reply)
      modifies this`store
      ensures old(Valid()) ==> Valid()
      ensures Registry.Outcome(reply, store) ==
              Registry.Create(old(store), oracles, address, passphrase, signed, secret, salt)
    {
      var halt := TotpDontExist(address);
      if halt.Some? {
        return halt.value;
      }
      halt := InvalidSignedPassphrase(address, passphrase, signed);
      if halt.Some? {
        return halt.value;
      }
      var totp := MakeTotp(secret, address);
      var record := new Models.Totp(address, secret);
      record.SetPassphrase(passphrase, salt);
      store := store[address := record.Snapshot()];
      reply := Registry.ProvisioningJson(Rotp.ProvisioningUri(totp, address));
    }

    /**
     * POST verify. `now` is `Time.now`. The `verified_at` it assigns goes to the
     * loaded object only, which is never saved: the method has no frame on
     * `store`, so the table is the same afterwards.
     */
    method Verify(address: Registry.Address, passphrase: string, otp: string, now: Registry.Time)
      returns (reply: Registry.Reply)
      ensures reply == Registry.Verify(store, oracles, address, passphrase, otp, now)
    {
      var halt := TotpMustExist(address);
      if halt.Some? {
        return halt.value;
      }
      var smTotp := new Models.Totp.Load(store[address]);
      var totp := MakeTotp(smTotp.otpSecret, smTotp.address);
      if !oracles.verifyOtp(totp.secret, otp, now) {
        return Registry.Head(401);
      }
      var stored := smTotp.Passphrase();
      if stored.Err? {
        return Registry.Raised(Registry.PasswordInvalidHash);
      }
      if !Bcrypt.Matches(stored.value, passphrase) {
        return Registry.Head(401);
      }
      smTotp.verifiedAt := Some(now);
      reply := Registry.Head(200);
    }
  }
}
