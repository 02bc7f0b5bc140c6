# stellar_multisig-rails: TOTP enrollment registry

A Dafny model of the second-factor enrollment core of the `stellar_multisig-rails`
engine: the `Api::V1::TotpController` actions `create` and `verify` with their
before-action filters, over the table of `StellarMultisig::Totp` records, and the
model's passphrase accessor, which stores only a bcrypt hash.

- `create` runs `totp_dont_exist` (409 if the address is enrolled), then
  `invalid_signed_passphrase` (401 unless the passphrase is signed by the
  address's Stellar key), then stores a record with a fresh OTP secret and the
  passphrase hash, and answers with the otpauth provisioning URI.
- `verify` runs `totp_must_exist` (404), then checks the one-time code (401),
  then the passphrase against the stored hash (401), and answers 200. It
  assigns `verified_at` on the loaded record but never saves it.

Layout:

- `wrappers.dfy`: `Option`, `Result`.
- `bcrypt.dfy`: `Password.create` and `Password#==` over a symbolic digest
  that is equal only for equal salt and whole secret.
- `rotp.dfy`: the ROTP object (secret, issuer) and its provisioning URI, as a
  value holding the secret, the issuer and the account label.
- `registry.dfy`: the persisted row, the table `map<Address, Row>`, replies and
  status codes, the two actions as functions, and lemmas over sequences of
  requests.
- `totp_model.dfy`: class `Models.Totp`, the record with its `@passphrase` cache.
- `totp_controller.dfy`: class `Controller.TotpController`, the filters and
  actions step by step. Each filter has its own contract; the actions
  `Create` and `Verify` are proved equal to `Registry.Create` and
  `Registry.Verify`.

The foreign checks are the fields of `Registry.Oracles`: Stellar address
decoding (`Stellar::Account.from_address`), Ed25519 signature verification
(`keypair.verify`), and TOTP code verification (`ROTP::TOTP#verify` at a given
time). Every result holds for every choice of them. The generated OTP secret,
the bcrypt salt and `Time.now` are parameters.

Facts about the code that the model keeps:

- A malformed address makes `Stellar::Account.from_address` raise in the
  filter `invalid_signed_passphrase`. The request then ends in an exception,
  which Rails answers with 500, not with the filter's 401.
- The issuer label of the provisioning URI is the address itself
  (`issuer: address`, totp_controller.rb:38). The request spec at
  spec/requests/api/v1/totp_spec.rb:45-46 instead expects the issuer
  `ENV["OTP_ISSUER"]`; the model follows the controller.
- `verify` assigns `verified_at` on the loaded record and never saves it.

## Model

| member | source | states |
|---|---|---|
| Bcrypt.Create | app/models/stellar_multisig/totp.rb:12 | a hash created from a secret under a salt keeps that salt and accepts that secret |
| Bcrypt.CreateMatchesOnlyItsSecret | app/models/stellar_multisig/totp.rb:7-14 | the hash of `p` compares equal to `q` exactly when `q == p` |
| Registry.Create | app/controllers/stellar_multisig/rails/api/v1/totp_controller.rb:5-20 | 409 exactly for an enrolled address, whatever the signature (existence filter first); 500 for an undecodable new address; 401 exactly when the signature does not verify; on every failure the table is unchanged; on success exactly one row is added, for this address, holding the hash of the passphrase, the generated secret and no `verified_at`, every other row untouched; the URI carries the stored secret and labels the address |
| Registry.Verify | app/controllers/stellar_multisig/rails/api/v1/totp_controller.rb:22-29 | 404 exactly for an unknown address; a wrong OTP gives 401 whatever the passphrase; 200 exactly when the OTP verifies for the stored secret and the stored hash matches the passphrase; on a well-formed table never 500 |
| Registry.CreateKeepsWellFormed | app/controllers/stellar_multisig/rails/api/v1/totp_controller.rb:8-16 | every row stays under its own address and holds a passphrase hash |
| Registry.VerifyAfterCreate | app/controllers/stellar_multisig/rails/api/v1/totp_controller.rb:8-29 | after a successful enrollment, verify answers 200 exactly for the enrolled passphrase with a valid OTP, and 401 otherwise |
| Registry.SecondEnrollmentConflicts | app/controllers/stellar_multisig/rails/api/v1/totp_controller.rb:41-43 | enrolling an address a second time, with any passphrase and signature, answers 409 and leaves the first row untouched |
| Registry.ServeKeepsRows | app/controllers/stellar_multisig/rails/api/v1/totp_controller.rb:8-29 | over any sequence of requests, no existing row is changed or removed (the secret is assigned once; verify writes nothing) |
| Registry.ServeKeepsWellFormed | app/controllers/stellar_multisig/rails/api/v1/totp_controller.rb:8-29 | over any sequence of requests, the table stays well-formed |
| Registry.ServeEnrollsOnlyProvenOwners | app/controllers/stellar_multisig/rails/api/v1/totp_controller.rb:49-52 | an address gains a row only through an enrollment request for it whose signed passphrase verifies under that address's key |
| Models.Totp.constructor | app/controllers/stellar_multisig/rails/api/v1/totp_controller.rb:12-15 | a new record holds the address and secret, with no hash, no `verified_at` and an empty cache |
| Models.Totp.Load | app/controllers/stellar_multisig/rails/api/v1/totp_controller.rb:23 | a loaded record holds exactly the row's columns, with an empty cache |
| Models.Totp.SetPassphrase | app/models/stellar_multisig/totp.rb:11-14 | `passphrase_hash` and the cache both become the hash of `p`, which accepts `p` and no other string; no other field changes |
| Models.Totp.Passphrase | app/models/stellar_multisig/totp.rb:7-9 | answers the cached hash if set; otherwise the column's hash, now cached; a missing hash raises `InvalidHash` and caches nothing; the answer always equals the column, so repeated reads agree |
| Controller.TotpController.MakeTotp | app/controllers/stellar_multisig/rails/api/v1/totp_controller.rb:37-39 | the ROTP object holds the given secret and takes the address itself as its issuer |
| Controller.TotpController.TotpExists | app/controllers/stellar_multisig/rails/api/v1/totp_controller.rb:54-56 | true exactly when a row is stored for the address |
| Controller.TotpController.TotpDontExist | app/controllers/stellar_multisig/rails/api/v1/totp_controller.rb:41-43 | halts with 409 exactly when the address is enrolled |
| Controller.TotpController.TotpMustExist | app/controllers/stellar_multisig/rails/api/v1/totp_controller.rb:45-47 | halts with 404 exactly when the address is not enrolled |
| Controller.TotpController.InvalidSignedPassphrase | app/controllers/stellar_multisig/rails/api/v1/totp_controller.rb:49-52 | lets the chain continue exactly when the signed passphrase verifies under the address's key; a bad signature halts with 401, an undecodable address raises |
| Controller.TotpController.Create | app/controllers/stellar_multisig/rails/api/v1/totp_controller.rb:8-20 | the filters in order, then the record is built, its passphrase set and saved; the reply and new table are those of `Registry.Create`; a table in which every row holds a hash stays so |
| Controller.TotpController.Verify | app/controllers/stellar_multisig/rails/api/v1/totp_controller.rb:22-29 | the existence filter, OTP check and passphrase check in order; the reply is that of `Registry.Verify`; with no frame on the table, nothing is persisted |

## Left out

- Cryptography: TOTP code derivation (RFC 4226 and RFC 6238, including ROTP's drift window) and Ed25519 signature verification (RFC 8032) are abstract capabilities. Stellar strkey address decoding is one too.
- bcrypt: the digest is a symbolic term that is equal only for equal salt and whole secret. bcrypt's truncation of the secret to its first 72 bytes is not modelled, nor are the cost factor, the real digest, one-wayness (the symbolic term keeps the secret) and the timing of the comparison.
- Bcrypt.CreateMatchesOnlyItsSecret: holds only for the symbolic digest; with bcrypt's 72-byte truncation, any secret sharing the first 72 bytes of `p` also matches.
- Models.Totp.SetPassphrase: "accepts `p` and no other string" holds only in the model, for the same reason (72-byte truncation not modelled).
- Registry.VerifyAfterCreate: "200 exactly for the enrolled passphrase" holds only in the model; real bcrypt also accepts a passphrase that agrees with it on its first 72 bytes.
- Secret and salt generation (`ROTP::Base32.random_base32`, bcrypt's salt) and `Time.now` are parameters, not random sources or clocks.
- The otpauth URI string layout: the URI is the value of its secret, issuer and account label.
- HTTP plumbing: `params.permit`, JSON rendering and Rails' exception-to-500 mapping. Missing (nil) parameters are not modelled: every parameter is a string.
- `created_at`/`updated_at` timestamps, maintained by ActiveRecord.
- The nullable `otp_secret` column: rows are created only by `create`, which always sets it, so it is a plain string here.
- Controller.TotpController: its invariant `Valid()` assumes every stored row holds a passphrase hash, although the `passphrase_hash` column is nullable; rows are created only by `create`, which always sets it. `Create` keeps the invariant when it held before and does not need it; `Registry.Verify` still answers a missing hash with the `InvalidHash` exception (500).
- Concurrency: requests are sequential, so the race between `exists?` and `create` is not modelled.
- Routing: config/routes.rb routes only `create`; `verify` is modelled as an action all the same.
- Transaction signing and the fee policy: none of the modelled files holds code for them. config/routes.rb:5 routes only `totp#create`, and spec/requests/api/v1/tx_spec.rb only checks that a fee endpoint echoes an environment variable.
