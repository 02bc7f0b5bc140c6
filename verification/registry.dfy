/**
 * The enrollment registry as values: the persisted `stellar_multisig_totps`
 * table, the replies of the two controller actions, and the two actions as
 * functions from the table (and the request) to a reply and the new table.
 * `Controller.TotpController` implements them step by step and is proved
 * equal to them; the lemmas at the end are about sequences of requests.
 */
module Registry {
  import opened Wrappers
  import Bcrypt
  import Rotp

  type Address = string
  type Time = nat
  type PublicKey = seq<bv8>

  /** One row of `stellar_multisig_totps` (created_at/updated_at left out). */
  datatype Row = Row(
    address: Address,
    passphraseHash: Option<Bcrypt.BcryptHash>,
    otpSecret: Rotp.OtpSecret,
    verifiedAt: Option<Time>)

  /** The table, keyed by address. */
  type Store = map<Address, Row>

  /**
   * The foreign checks the controller calls, as capabilities: every result
   * below holds whatever they compute.
   *  - decodeAddress: `Stellar::Account.from_address(a).keypair`, None where it raises;
   *  - verifySignature: `keypair.verify(signature, message)`;
   *  - verifyOtp: `ROTP::TOTP#verify(otp)` at time `now` returns non-nil.
   */
  datatype Oracles = Oracles(
    decodeAddress: Address -> Option<PublicKey>,
    verifySignature: (PublicKey, string, string) -> bool,
    verifyOtp: (Rotp.OtpSecret, string, Time) -> bool)

  /** Exceptions a request can end with; Rails answers them with 500. */
  datatype Exception = InvalidAddress | PasswordInvalidHash

  /** What an action sends back. */
  datatype Reply =
    | Head(status: int)                  // `head <status>`
    | ProvisioningJson(uri: Rotp.Uri)    // `render json: {provisioning_uri: ...}`
    | Raised(exception: Exception)       // an exception escaping the action
  {
    function Status(): int
    {
      match this
      case Head(s) => s
      case ProvisioningJson(_) => 200
      case Raised(_) => 500
    }
  }

  datatype Outcome = Outcome(reply: Reply, store: Store)

  /** Every row sits under its own address and holds a passphrase hash. */
  predicate WellFormed(store: Store)
  {
    forall a :: a in store ==> store[a].address == a && store[a].passphraseHash.Some?
  }

  /** The signed passphrase verifies under the key the address encodes. */
  predicate OwnershipProved(o: Oracles, address: Address, signed: string, passphrase: string)
  {
    match o.decodeAddress(address)
    case None => false
    case Some(key) => o.verifySignature(key, signed, passphrase)
  }

  /**
   * POST create: the filter `totp_dont_exist`, then `invalid_signed_passphrase`,
   * then the action, which stores a row for a fresh secret and answers with
   * the provisioning URI. `secret` and `salt` are the generated random values.
   */
  function Create(store: Store, o: Oracles, address: Address, passphrase: string,
                  signed: string, secret: Rotp.OtpSecret, salt: Bcrypt.Salt): (out: Outcome)
    // the existence filter runs first: 409 exactly for enrolled addresses, whatever the signature
    ensures out.reply.Status() == 409 <==> address in store
    ensures out.reply.Status() == 500 <==> address !in store && o.decodeAddress(address).None?
    ensures out.reply.Status() == 401 <==>
              address !in store && o.decodeAddress(address).Some? &&
              !OwnershipProved(o, address, signed, passphrase)
    ensures out.reply.ProvisioningJson? <==>
              address !in store && OwnershipProved(o, address, signed, passphrase)
    ensures !out.reply.ProvisioningJson? ==> out.store == store
    // success adds exactly one row, for this address, and touches no other
    ensures out.reply.ProvisioningJson? ==>
              && out.store.Keys == store.Keys + {address}
              && (forall a :: a in store ==> out.store[a] == store[a])
              && out.store[address].address == address
              && out.store[address].otpSecret == secret
              && out.store[address].passphraseHash == Some(Bcrypt.Create(passphrase, salt))
              && out.store[address].verifiedAt == None
    // the URI carries the stored secret and labels the address
    ensures out.reply.ProvisioningJson? ==>
              && out.reply.uri.secret == out.store[address].otpSecret
              && out.reply.uri.accountName == address
              && out.reply.uri.issuer == address
  {
    if address in store then Outcome(Head(409), store)
    else match o.decodeAddress(address)
      case None => Outcome(Raised(InvalidAddress), store)
      case Some(key) =>
        if !o.verifySignature(key, signed, passphrase) then Outcome(Head(401), store)
        else
          var totp := Rotp.Totp(secret, address);
          var row := Row(address, Some(Bcrypt.Create(passphrase, salt)), secret, None);
          Outcome(ProvisioningJson(Rotp.ProvisioningUri(totp, address)), store[address := row])
  }

  /**
   * POST verify: the filter `totp_must_exist`, then the OTP check, then the
   * passphrase check. Nothing is written back.
   */
  function Verify(store: Store, o: Oracles, address: Address, passphrase: string,
                  otp: string, now: Time): (reply: Reply)
    ensures reply.Status() in {200, 401, 404, 500}
    ensures reply.Status() == 404 <==> address !in store
    // the OTP is checked first: a wrong code gives 401 whatever the passphrase
    ensures address in store && !o.verifyOtp(store[address].otpSecret, otp, now) ==>
              reply == Head(401)
    ensures reply.Status() == 200 <==>
              && address in store
              && o.verifyOtp(store[address].otpSecret, otp, now)
              && store[address].passphraseHash.Some?
              && Bcrypt.Matches(store[address].passphraseHash.value, passphrase)
    ensures WellFormed(store) ==> reply.Status() != 500
  {
    if address !in store then Head(404)
    else
      var row := store[address];
      var totp := Rotp.Totp(row.otpSecret, row.address);
      if !o.verifyOtp(totp.secret, otp, now) then Head(401)
      else match row.passphraseHash
        case None => Raised(PasswordInvalidHash)
        case Some(h) => if !Bcrypt.Matches(h, passphrase) then Head(401) else Head(200)
  }

  /** Enrolling a well-formed table keeps it well-formed. */
  lemma CreateKeepsWellFormed(store: Store, o: Oracles, address: Address, passphrase: string,
                              signed: string, secret: Rotp.OtpSecret, salt: Bcrypt.Salt)
    requires WellFormed(store)
    ensures WellFormed(Create(store, o, address, passphrase, signed, secret, salt).store)
  {
  }

  /**
   * After a successful enrollment, verify answers 200 exactly for the
   * enrolled passphrase together with an OTP valid for the stored secret.
   */
  lemma VerifyAfterCreate(store: Store, o: Oracles, address: Address, passphrase: string,
                          signed: string, secret: Rotp.OtpSecret, salt: Bcrypt.Salt,
                          candidate: string, otp: string, now: Time)
    requires Create(store, o, address, passphrase, signed, secret, salt).reply.ProvisioningJson?
    ensures Verify(Create(store, o, address, passphrase, signed, secret, salt).store,
                   o, address, candidate, otp, now).Status() == 200
            <==> candidate == passphrase && o.verifyOtp(secret, otp, now)
    ensures Verify(Create(store, o, address, passphrase, signed, secret, salt).store,
                   o, address, candidate, otp, now).Status() == 401
            <==> candidate != passphrase || !o.verifyOtp(secret, otp, now)
  {
    Bcrypt.CreateMatchesOnlyItsSecret(passphrase, candidate, salt);
  }

  /** Enrolling the same address a second time conflicts and changes nothing. */
  lemma SecondEnrollmentConflicts(store: Store, o: Oracles, address: Address,
                                  p1: string, s1: string, secret1: Rotp.OtpSecret, salt1: Bcrypt.Salt,
                                  p2: string, s2: string, secret2: Rotp.OtpSecret, salt2: Bcrypt.Salt)
    requires Create(store, o, address, p1, s1, secret1, salt1).reply.ProvisioningJson?
    ensures var first := Create(store, o, address, p1, s1, secret1, salt1);
            var second := Create(first.store, o, address, p2, s2, secret2, salt2);
            second.reply == Head(409) && second.store == first.store
  {
  }

  /** A request as the two routes receive it, with its generated randomness and clock. */
  datatype Request =
    | EnrollRequest(address: Address, passphrase: string, signed: string,
                    secret: Rotp.OtpSecret, salt: Bcrypt.Salt)
    | VerifyRequest(address: Address, passphrase: string, otp: string, now: Time)

  function Handle(store: Store, o: Oracles, req: Request): Outcome
  {
    match req
    case EnrollRequest(a, p, s, secret, salt) => Create(store, o, a, p, s, secret, salt)
    case VerifyRequest(a, p, otp, now) => Outcome(Verify(store, o, a, p, otp, now), store)
  }

  /** The table after serving `reqs` one after another. */
  function Serve(store: Store, o: Oracles, reqs: seq<Request>): Store
    decreases |reqs|
  {
    if reqs == [] then store
    else Serve(Handle(store, o, reqs[0]).store, o, reqs[1..])
  }

  /** No request ever changes or removes a row once it exists. */
  lemma {:induction false} ServeKeepsRows(store: Store, o: Oracles, reqs: seq<Request>)
    ensures forall a :: a in store ==> a in Serve(store, o, reqs) && Serve(store, o, reqs)[a] == store[a]
    decreases |reqs|
  {
    if reqs != [] {
      var next := Handle(store, o, reqs[0]).store;
      ServeKeepsRows(next, o, reqs[1..]);
    }
  }

  /** Serving requests keeps the table well-formed. */
  lemma {:induction false} ServeKeepsWellFormed(store: Store, o: Oracles, reqs: seq<Request>)
    requires WellFormed(store)
    ensures WellFormed(Serve(store, o, reqs))
    decreases |reqs|
  {
    if reqs != [] {
      match reqs[0] {
      case EnrollRequest(a, p, s, secret, salt) =>
        CreateKeepsWellFormed(store, o, a, p, s, secret, salt);
      case VerifyRequest(_, _, _, _) =>
      }
      ServeKeepsWellFormed(Handle(store, o, reqs[0]).store, o, reqs[1..]);
    }
  }

  /**
   * An address gains a row only through an enrollment request for that
   * address whose signed passphrase proves ownership of it.
   */
  lemma {:induction false} ServeEnrollsOnlyProvenOwners(store: Store, o: Oracles, reqs: seq<Request>, a: Address)
    requires a in Serve(store, o, reqs) && a !in store
    ensures exists i :: 0 <= i < |reqs| && reqs[i].EnrollRequest? && reqs[i].address == a &&
                        OwnershipProved(o, a, reqs[i].signed, reqs[i].passphrase)
    decreases |reqs|
  {
    var next := Handle(store, o, reqs[0]).store;
    if a in next {
      assert reqs[0].EnrollRequest? && reqs[0].address == a;
    } else {
      ServeEnrollsOnlyProvenOwners(next, o, reqs[1..], a);
      var i :| 0 <= i < |reqs[1..]| && reqs[1..][i].EnrollRequest? && reqs[1..][i].address == a &&
               OwnershipProved(o, a, reqs[1..][i].signed, reqs[1..][i].passphrase);
      assert reqs[i + 1] == reqs[1..][i];
    }
  }
}
